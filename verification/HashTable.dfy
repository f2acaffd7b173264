/** samu's hash table (htab.c): open addressing with linear probing and doubling. */
module HashTable {
  import opened Powers
  import opened Wrappers

  /** A key: its hash, and the bytes that are compared when hashes and lengths agree. */
  datatype Key = Key(hash: nat, str: string)

  // ---------------------------------------------------------------------------------------
  // Positions
  // ---------------------------------------------------------------------------------------

  /** Bitwise conjunction. */
  function And(a: nat, b: nat): nat {
    if a == 0 || b == 0 then 0
    else (if a % 2 == 1 && b % 2 == 1 then 1 else 0) + 2 * And(a / 2, b / 2)
  }

  /** Masking with a power of two less one keeps what is below it and folds the power itself
      to zero. */
  lemma {:induction false} MaskFolds(a: nat, n: nat)
    ensures And(a, Pow2(n) - 1) < Pow2(n)
    ensures a < Pow2(n) ==> And(a, Pow2(n) - 1) == a
    ensures a == Pow2(n) ==> And(a, Pow2(n) - 1) == 0
  {
    if n > 0 && a > 0 {
      MaskFolds(a / 2, n - 1);
      var p := Pow2(n - 1);
      assert Pow2(n) - 1 == 2 * (p - 1) + 1;
      assert (Pow2(n) - 1) % 2 == 1 && (Pow2(n) - 1) / 2 == p - 1;
    }
  }

  /** The slot after `i`, around the end of the table. */
  function Next(i: nat, cap: nat): nat { if i + 1 == cap then 0 else i + 1 }

  /** How many steps of probing lead from slot `home` to slot `i`. */
  function Dist(home: nat, i: nat, cap: nat): (d: nat)
    requires home < cap && i < cap
    ensures d < cap
  {
    if home <= i then i - home else i + cap - home
  }

  /** The slot that probing reaches after `d` steps. */
  function At(home: nat, d: nat, cap: nat): (i: nat)
    requires home < cap && d < cap
    ensures i < cap && Dist(home, i, cap) == d
  {
    if home + d < cap then home + d else home + d - cap
  }

  ghost predicate Capacity(cap: nat) { exists n: nat :: Pow2(n) == cap }

  lemma MaskFacts(cap: nat, i: nat)
    requires Capacity(cap)
    ensures And(i, cap - 1) < cap
    ensures i < cap ==> And(i + 1, cap - 1) == Next(i, cap)
  {
    var n: nat :| Pow2(n) == cap;
    MaskFolds(i, n);
    MaskFolds(i + 1, n);
  }

  /** The load rule grows the table before an insertion if more than half of it is used. That
      leaves an empty slot after every insertion exactly if the capacity is at least four. */
  lemma LoadRule(cap: nat)
    requires Capacity(cap)
    ensures cap >= 4 <==> forall len: nat {:trigger RoomAfter(len, cap)} :: len <= cap / 2 ==> RoomAfter(len, cap)
  {
    var n: nat :| Pow2(n) == cap;
    if n >= 2 {
      Pow2AtLeast(n);
    } else {
      assert n == 1 ==> cap == 2 * Pow2(0);
      assert !RoomAfter(cap / 2, cap);
    }
  }

  /** A table of capacity two is full after two entries, which the load rule lets in. */
  lemma SmallTableFills()
    ensures Capacity(2) && 1 <= 2 / 2 && !RoomAfter(1, 2)
  {
    assert Pow2(1) == 2;
  }

  /** After one more entry some slot is still empty. */
  predicate RoomAfter(len: nat, cap: nat) { len + 1 < cap }

  lemma {:induction false} Pow2AtLeast(n: nat)
    requires n >= 2
    ensures Pow2(n) >= 4
  {
    if n > 2 {
      Pow2AtLeast(n - 1);
    }
  }

  // ---------------------------------------------------------------------------------------
  // Probing
  // ---------------------------------------------------------------------------------------

  function Home(k: Key, cap: nat): (i: nat)
    requires Capacity(cap)
    ensures i < cap
  {
    MaskFacts(cap, k.hash);
    And(k.hash, cap - 1)
  }

  /** Every slot that probing for `k` visits in its first `d` steps is used by another key. */
  ghost predicate RunOf(keys: seq<Option<Key>>, k: Key, d: nat)
    requires Capacity(|keys|) && d <= |keys|
  {
    forall e: nat :: e < d ==> Busy(keys, k, e)
  }

  ghost predicate Busy(keys: seq<Option<Key>>, k: Key, e: nat)
    requires Capacity(|keys|) && e < |keys|
  {
    keys[At(Home(k, |keys|), e, |keys|)].Some? && keys[At(Home(k, |keys|), e, |keys|)] != Some(k)
  }

  /** Every stored key is found by an unbroken run of used slots from its home slot. */
  ghost predicate Probeable(keys: seq<Option<Key>>) {
    && Capacity(|keys|)
    && forall i {:trigger Reachable(keys, i)} :: 0 <= i < |keys| ==> Reachable(keys, i)
  }

  ghost predicate Reachable(keys: seq<Option<Key>>, i: nat)
    requires Capacity(|keys|) && i < |keys|
  {
    keys[i].Some? ==> RunOf(keys, keys[i].value, Dist(Home(keys[i].value, |keys|), i, |keys|))
  }

  /** A run does not go past the key or an empty slot. */
  lemma RunStops(keys: seq<Option<Key>>, k: Key, d: nat, e: nat)
    requires Capacity(|keys|) && d <= |keys| && e < |keys| && RunOf(keys, k, d) && !Busy(keys, k, e)
    ensures d <= e
  {
  }

  /** A key occurs at most once. */
  lemma OnceOnly(keys: seq<Option<Key>>, i: nat, j: nat)
    requires Probeable(keys) && i < |keys| && j < |keys| && keys[i].Some? && keys[i] == keys[j]
    ensures i == j
  {
    var k, cap := keys[i].value, |keys|;
    assert Reachable(keys, i) && Reachable(keys, j);
    var di, dj := Dist(Home(k, cap), i, cap), Dist(Home(k, cap), j, cap);
    assert At(Home(k, cap), di, cap) == i && At(Home(k, cap), dj, cap) == j;
    RunStops(keys, k, di, dj);
    RunStops(keys, k, dj, di);
  }

  /** A key that is not met before the first empty slot of its run is not in the table. */
  lemma NotStored(keys: seq<Option<Key>>, k: Key, d: nat, i: nat)
    requires Probeable(keys) && d < |keys| && RunOf(keys, k, d) && i < |keys|
    requires keys[At(Home(k, |keys|), d, |keys|)].None?
    ensures keys[i] != Some(k)
  {
    if keys[i] == Some(k) {
      assert Reachable(keys, i);
      var di := Dist(Home(k, |keys|), i, |keys|);
      assert At(Home(k, |keys|), di, |keys|) == i;
      RunStops(keys, k, di, d);
      RunStops(keys, k, d, di);
    }
  }

  /** Filling the first empty slot of its run with a key keeps all runs unbroken. */
  lemma FillKeeps(keys: seq<Option<Key>>, k: Key, d: nat)
    requires Probeable(keys) && d < |keys| && RunOf(keys, k, d)
    requires keys[At(Home(k, |keys|), d, |keys|)].None?
    ensures Probeable(keys[At(Home(k, |keys|), d, |keys|) := Some(k)])
  {
    var slot := At(Home(k, |keys|), d, |keys|);
    var keys' := keys[slot := Some(k)];
    forall i | 0 <= i < |keys'| ensures Reachable(keys', i) {
      assert Reachable(keys, i);
      if keys'[i].Some? {
        var key := keys'[i].value;
        forall e: nat | e < Dist(Home(key, |keys|), i, |keys|) ensures Busy(keys', key, e) {
          if i != slot {
            assert Busy(keys, key, e);
            NotStored(keys, k, d, i);
          } else {
            assert Busy(keys, k, e);
          }
        }
      }
    }
  }

  // ---------------------------------------------------------------------------------------
  // The map a table stands for
  // ---------------------------------------------------------------------------------------

  /** The slots hold exactly the entries of `m`. */
  ghost predicate Holds<V>(keys: seq<Option<Key>>, vals: seq<V>, m: map<Key, V>) {
    && |vals| == |keys|
    && (forall i {:trigger keys[i]} :: 0 <= i < |keys| && keys[i].Some? ==>
      keys[i].value in m && m[keys[i].value] == vals[i])
    && (forall k {:trigger k in m} :: k in m ==> Some(k) in keys)
  }

  /** With fewer entries than slots, some slot is empty. */
  lemma EmptySlot<V>(keys: seq<Option<Key>>, vals: seq<V>, m: map<Key, V>) returns (e: nat)
    requires Probeable(keys) && Holds(keys, vals, m) && |m| < |keys|
    ensures e < |keys| && keys[e].None?
  {
    if forall i :: 0 <= i < |keys| ==> keys[i].Some? {
      forall i, j | 0 <= i < j < |keys| ensures keys[i] != keys[j] {
        if keys[i] == keys[j] {
          OnceOnly(keys, i, j);
        }
      }
      Pigeonhole(keys, m.Keys);
    }
    e :| 0 <= e < |keys| && keys[e].None?;
  }

  lemma {:induction false} Pigeonhole(keys: seq<Option<Key>>, stored: set<Key>)
    requires forall i :: 0 <= i < |keys| ==> keys[i].Some? && keys[i].value in stored
    requires forall i, j :: 0 <= i < j < |keys| ==> keys[i] != keys[j]
    ensures |stored| >= |keys|
  {
    if keys != [] {
      var last := keys[|keys| - 1].value;
      Pigeonhole(keys[..|keys| - 1], stored - {last});
    }
  }

  /** A used slot and an entry of the map added together. */
  lemma HoldsAfterFill<V>(keys: seq<Option<Key>>, vals: seq<V>, m: map<Key, V>, k: Key, slot: nat, v: V)
    requires Holds(keys, vals, m) && slot < |keys| && keys[slot].None? && k !in m
    ensures Holds(keys[slot := Some(k)], vals[slot := v], m[k := v])
  {
    var keys' := keys[slot := Some(k)];
    forall key | key in m[k := v] ensures Some(key) in keys' {
      if key == k {
        assert keys'[slot] == Some(k);
      } else {
        assert key in m;
        var i :| 0 <= i < |keys| && keys[i] == Some(key);
        assert keys'[i] == Some(key);
      }
    }
  }

  lemma EmptyTable<V>(keys: seq<Option<Key>>, vals: seq<V>)
    requires Capacity(|keys|) && |vals| == |keys| && forall i :: 0 <= i < |keys| ==> keys[i].None?
    ensures Probeable(keys) && Holds(keys, vals, map[])
  {
  }

  /** With as many entries as slots, no slot is empty. */
  lemma FullSlots<V>(keys: seq<Option<Key>>, vals: seq<V>, m: map<Key, V>, i: nat)
    requires Holds(keys, vals, m) && |m| >= |keys| && i < |keys|
    ensures keys[i].Some?
  {
    if keys[i].None? {
      forall k | k in m ensures k in SomeOf(keys[..i] + keys[i + 1..]) {
        var j :| 0 <= j < |keys| && keys[j] == Some(k);
        assert (keys[..i] + keys[i + 1..])[if j < i then j else j - 1] == Some(k);
      }
      SomeCount(keys[..i] + keys[i + 1..]);
      SubsetSize(m.Keys, SomeOf(keys[..i] + keys[i + 1..]));
    }
  }

  ghost function SomeOf(keys: seq<Option<Key>>): set<Key> {
    set i | 0 <= i < |keys| && keys[i].Some? :: keys[i].value
  }

  lemma {:induction false} SomeCount(keys: seq<Option<Key>>)
    ensures |SomeOf(keys)| <= |keys|
  {
    if keys != [] {
      var front, last := keys[..|keys| - 1], keys[|keys| - 1];
      SomeCount(front);
      assert SomeOf(keys) == SomeOf(front) + if last.Some? then {last.value} else {};
    } else {
      assert SomeOf(keys) == {};
    }
  }

  lemma OnlyHeldKeys<V>(keys: seq<Option<Key>>, vals: seq<V>, m: map<Key, V>, k: Key, i: nat)
    requires Holds(keys, vals, m) && k !in m && i < |keys|
    ensures keys[i] != Some(k)
  {
  }

  /** The entries of the first `n` slots. */
  ghost function Entries<V>(keys: seq<Option<Key>>, vals: seq<V>, n: nat): map<Key, V>
    requires n <= |keys| == |vals|
  {
    if n == 0 then map[]
    else
      var rest := Entries(keys, vals, n - 1);
      if keys[n - 1].None? then rest else rest[keys[n - 1].value := vals[n - 1]]
  }

  lemma EntriesStep<V>(keys: seq<Option<Key>>, vals: seq<V>, n: nat)
    requires n <= |keys| == |vals|
    ensures n == 0 ==> Entries(keys, vals, n) == map[]
    ensures n > 0 && keys[n - 1].None? ==> Entries(keys, vals, n) == Entries(keys, vals, n - 1)
    ensures n > 0 && keys[n - 1].Some? ==>
      Entries(keys, vals, n) == Entries(keys, vals, n - 1)[keys[n - 1].value := vals[n - 1]]
  {
  }

  lemma {:induction false} EntriesAreHeld<V>(keys: seq<Option<Key>>, vals: seq<V>, m: map<Key, V>, n: nat)
    requires Probeable(keys) && Holds(keys, vals, m) && n <= |keys|
    ensures forall k {:trigger k in Entries(keys, vals, n)} :: k in Entries(keys, vals, n) <==> Some(k) in keys[..n]
    ensures forall k {:trigger k in Entries(keys, vals, n)} :: k in Entries(keys, vals, n) ==>
      k in m && m[k] == Entries(keys, vals, n)[k]
  {
    if n > 0 {
      EntriesAreHeld(keys, vals, m, n - 1);
      assert keys[..n] == keys[..n - 1] + [keys[n - 1]];
    }
  }

  lemma AllEntries<V>(keys: seq<Option<Key>>, vals: seq<V>, m: map<Key, V>)
    requires Probeable(keys) && Holds(keys, vals, m)
    ensures Entries(keys, vals, |keys|) == m
  {
    EntriesAreHeld(keys, vals, m, |keys|);
    assert keys[..|keys|] == keys;
    forall k | k in m ensures k in Entries(keys, vals, |keys|) {
    }
  }

  lemma FewerEntries<V>(keys: seq<Option<Key>>, vals: seq<V>, m: map<Key, V>, n: nat)
    requires Probeable(keys) && Holds(keys, vals, m) && n <= |keys|
    ensures |Entries(keys, vals, n)| <= |m|
  {
    EntriesAreHeld(keys, vals, m, n);
    SubsetSize(Entries(keys, vals, n).Keys, m.Keys);
  }

  /** The next used slot of the old table holds a key that is not yet in the new one. */
  lemma NotYetEntered<V>(keys: seq<Option<Key>>, vals: seq<V>, m: map<Key, V>, n: nat)
    requires Probeable(keys) && Holds(keys, vals, m) && n < |keys| && keys[n].Some?
    ensures keys[n].value !in Entries(keys, vals, n)
  {
    EntriesAreHeld(keys, vals, m, n);
    if Some(keys[n].value) in keys[..n] {
      var j :| 0 <= j < n && keys[j] == keys[n];
      OnceOnly(keys, n, j);
    }
  }

  lemma {:induction false} SubsetSize<T>(a: set<T>, b: set<T>)
    requires a <= b
    ensures |a| <= |b|
  {
    if a != {} {
      var x :| x in a;
      SubsetSize(a - {x}, b - {x});
    }
  }

  // ---------------------------------------------------------------------------------------
  // The table
  // ---------------------------------------------------------------------------------------

  /** `struct hashtable`. A slot's value is optional because a new entry's value is NULL. */
  class Table<V(!new)> {
    var len: nat
    var cap: nat
    var keys: array<Option<Key>>
    var vals: array<Option<V>>
    ghost var contents: map<Key, Option<V>>

    ghost predicate Valid()
      reads this, keys, vals
    {
      && Shaped()
      && len <= cap / 2 + 1
      && len <= cap
      && len == |contents|
      && Probeable(keys[..])
      && Holds(keys[..], vals[..], contents)
    }

    ghost predicate Shaped()
      reads this
    {
      && Capacity(cap)
      && keys.Length == vals.Length == cap
      && (keys as object) != (vals as object)
    }

    /** `mkhtab`: any power of two. */
    constructor (cap: nat)
      requires Capacity(cap)
      ensures Valid() && fresh(keys) && fresh(vals)
      ensures contents == map[] && this.cap == cap
    {
      this.len := 0;
      this.cap := cap;
      this.keys := new Option<Key>[cap](_ => None);
      this.vals := new Option<V>[cap](_ => None);
      this.contents := map[];
    }

    /** `keyindex`: the loop ends because some slot is empty or has the key. */
    method KeyIndex(k: Key, ghost stop: nat) returns (i: nat, ghost d: nat)
      requires Shaped() && stop < cap && (keys[stop].None? || keys[stop] == Some(k))
      ensures d < cap && i == At(Home(k, cap), d, cap) && RunOf(keys[..], k, d)
      ensures keys[i].None? || keys[i] == Some(k)
    {
      hide And, Capacity;
      MaskFacts(cap, k.hash);
      i := And(k.hash, cap - 1);
      d := 0;
      while keys[i].Some? && keys[i] != Some(k)
        invariant d < cap && i == At(Home(k, cap), d, cap)
        invariant RunOf(keys[..], k, d)
        decreases cap - d
      {
        assert Busy(keys[..], k, d);
        MaskFacts(cap, i);
        i := And(i + 1, cap - 1);
        assert d + 1 < cap by {
          var de := Dist(Home(k, cap), stop, cap);
          assert At(Home(k, cap), de, cap) == stop;
          RunStops(keys[..], k, d + 1, de);
        }
        d := d + 1;
      }
    }

    /** A probe that ends at an empty slot means that the key is not stored, and one that ends
        at a used slot means that it is stored there. */
    lemma ProbeDecides(k: Key, i: nat, d: nat)
      requires Valid() && d < cap && i == At(Home(k, cap), d, cap) && RunOf(keys[..], k, d)
      requires keys[i].None? || keys[i] == Some(k)
      ensures k in contents <==> keys[i].Some?
      ensures k in contents ==> vals[i] == contents[k]
    {
      if keys[i].None? && k in contents {
        var j :| 0 <= j < |keys[..]| && keys[..][j] == Some(k);
        NotStored(keys[..], k, d, j);
      }
    }

    /** Probing for a key comes to an end exactly if the key is stored or some slot is empty. */
    lemma ProbeEnds(k: Key)
      requires Valid()
      ensures (exists d: nat :: d < cap && !Busy(keys[..], k, d)) <==> k in contents || len < cap
    {
      if k in contents || len < cap {
        var i := Stop(k);
        var d := Dist(Home(k, cap), i, cap);
        assert At(Home(k, cap), d, cap) == i;
        assert !Busy(keys[..], k, d);
      } else {
        forall d: nat | d < cap ensures Busy(keys[..], k, d) {
          FullSlots(keys[..], vals[..], contents, At(Home(k, cap), d, cap));
          OnlyHeldKeys(keys[..], vals[..], contents, k, At(Home(k, cap), d, cap));
        }
      }
    }

    lemma Stop(k: Key) returns (i: nat)
      requires Valid() && (k in contents || len < cap)
      ensures i < cap && (keys[i].None? || keys[i] == Some(k))
    {
      if k in contents {
        assert Some(k) in keys[..];
        i :| 0 <= i < |keys[..]| && keys[..][i] == Some(k);
      } else {
        i := EmptySlot(keys[..], vals[..], contents);
      }
    }

    /** Only a table of capacity one or two is ever full. */
    lemma FullIsSmall()
      requires Valid()
      ensures cap >= 4 ==> len < cap
    {
    }

    /** `htabget`. A full table can only be asked for a key it has. */
    method Get(k: Key) returns (v: Option<V>)
      requires Valid() && (k in contents || len < cap)
      ensures v == if k in contents then contents[k] else None
    {
      ghost var e := Stop(k);
      ghost var d;
      var i;
      i, d := KeyIndex(k, e);
      ProbeDecides(k, i, d);
      v := if keys[i].Some? then vals[i] else None;
    }

    /** Enter one key and value; the table has room for them and does not have the key. */
    method Place(k: Key, v: Option<V>) returns (i: nat)
      requires Shaped() && Probeable(keys[..]) && Holds(keys[..], vals[..], contents)
      requires |contents| < cap && k !in contents
      modifies keys, vals, `contents
      ensures Probeable(keys[..]) && Holds(keys[..], vals[..], contents)
      ensures contents == old(contents)[k := v]
      ensures i < cap && keys[i] == Some(k)
    {
      ghost var e := EmptySlot(keys[..], vals[..], contents);
      ghost var d;
      i, d := KeyIndex(k, e);
      OnlyHeldKeys(keys[..], vals[..], contents, k, i);
      ghost var keys', vals' := keys[..], vals[..];
      FillKeeps(keys[..], k, d);
      HoldsAfterFill(keys[..], vals[..], contents, k, i, v);
      keys[i] := Some(k);
      vals[i] := v;
      contents := contents[k := v];
      assert keys[..] == keys'[i := Some(k)] && vals[..] == vals'[i := v];
    }

    /** New slots, all of them empty. */
    method Renew(newCap: nat)
      requires Shaped() && newCap == 2 * cap
      modifies `cap, `keys, `vals, `contents
      ensures Shaped() && cap == newCap && contents == map[] && fresh(keys) && fresh(vals)
      ensures Probeable(keys[..]) && Holds(keys[..], vals[..], contents)
    {
      hide Probeable, Holds, Capacity;
      DoubleCapacity(cap);
      cap := newCap;
      keys := new Option<Key>[cap](_ => None);
      vals := new Option<V>[cap](_ => None);
      contents := map[];
      EmptyTable(keys[..], vals[..]);
    }

    /** Twice the capacity: every entry is entered again at its new home. */
    method Grow()
      requires Valid()
      modifies this
      ensures Valid() && fresh(keys) && fresh(vals)
      ensures contents == old(contents) && len == old(len) && cap == 2 * old(cap)
    {
      hide Probeable, Holds, Entries, Capacity;
      var oldKeys, oldVals, oldCap := keys, vals, cap;
      ghost var whole, from, values := contents, keys[..], vals[..];
      assert from == oldKeys[..] && values == oldVals[..];
      Renew(2 * cap);
      EntriesStep(from, values, 0);
      var i := 0;
      while i < oldCap
        invariant i <= oldCap && cap == 2 * oldCap && len == |whole|
        invariant Shaped() && fresh(keys) && fresh(vals)
        invariant Probeable(keys[..]) && Holds(keys[..], vals[..], contents)
        invariant from == oldKeys[..] && values == oldVals[..]
        invariant contents == Entries(from, values, i)
      {
        EntriesStep(from, values, i + 1);
        if oldKeys[i].Some? {
          FewerEntries(from, values, whole, i);
          NotYetEntered(from, values, whole, i);
          var j := Place(oldKeys[i].value, oldVals[i]);
        }
        i := i + 1;
      }
      AllEntries(from, values, whole);
    }

    /** `htabput`: the slot of a key, which is new and has no value if the key was not stored. */
    method Put(k: Key) returns (i: nat)
      requires Valid()
      modifies this, keys, vals
      ensures Valid() && i < cap && keys[i] == Some(k)
      ensures keys == old(keys) || fresh(keys)
      ensures vals == old(vals) || fresh(vals)
      ensures contents == if k in old(contents) then old(contents) else old(contents)[k := None]
      ensures cap == if old(len) > old(cap) / 2 then 2 * old(cap) else old(cap)
    {
      if cap / 2 < len {
        Grow();
      }
      ghost var e := EmptySlot(keys[..], vals[..], contents);
      ghost var d;
      i, d := KeyIndex(k, e);
      ProbeDecides(k, i, d);
      if keys[i].None? {
        i := Place(k, None);
        len := len + 1;
      }
    }

    /** The caller's store through the pointer that `htabput` returns. */
    method Store(i: nat, v: Option<V>)
      requires Valid() && i < cap && keys[i].Some?
      modifies vals, `contents
      ensures Valid() && contents == old(contents)[keys[i].value := v]
    {
      ghost var k := keys[i].value;
      assert keys[..][i] == Some(k);
      ghost var before := vals[..];
      vals[i] := v;
      contents := contents[k := v];
      assert vals[..] == before[i := v];
      forall j | 0 <= j < cap && keys[j].Some?
        ensures keys[j].value in contents && contents[keys[j].value] == vals[j]
      {
        if keys[j] == Some(k) {
          OnceOnly(keys[..], i, j);
        } else {
          assert keys[..][j].Some?;
        }
      }
      assert contents.Keys == old(contents).Keys;
    }
  }

  /** A full table of capacity two, in which probing for a third key would never end. */
  method FullTable() returns (t: Table<int>, k: Key)
    ensures fresh(t) && t.Valid() && t.cap == 2 && t.len == 2 && k !in t.contents
    ensures forall d: nat :: d < t.cap ==> Busy(t.keys[..], k, d)
  {
    hide Holds, Probeable, Busy;
    assert Pow2(1) == 2;
    t := new Table(2);
    var i := t.Put(Key(0, "a"));
    i := t.Put(Key(0, "b"));
    assert t.contents == map[Key(0, "a") := None, Key(0, "b") := None];
    k := Key(0, "c");
    t.ProbeEnds(k);
  }

  lemma DoubleCapacity(cap: nat)
    requires Capacity(cap)
    ensures Capacity(2 * cap)
  {
    var n: nat :| Pow2(n) == cap;
    assert Pow2(n + 1) == 2 * cap;
  }
}
