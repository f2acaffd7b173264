/** samu's tree map (tree.c) on linked nodes: lookup, and insertion that descends recording the
    slots it passes in a fixed array and then rebalances the ancestors from the bottom up. */
module TreeMap {
  import opened Powers
  import opened Wrappers
  import opened Strings
  import opened AvlShape

  class TreeNode<V> {
    var key: string
    var value: V
    var child: seq<TreeNode?<V>>
    var height: int

    constructor (key: string, value: V)
      ensures this.key == key && this.value == value && child == [null, null] && height == 1
    {
      this.key, this.value, child, height := key, value, [null, null], 1;
    }
  }

  type Shape<V> = Tree<TreeNode<V>, V>
  type Path<V> = seq<Frame<TreeNode<V>, V>>

  /** A place that holds a pointer to a node: the root variable or a child field. */
  datatype Slot<V> = RootSlot | KidSlot(parent: TreeNode<V>, dir: nat)

  /** The number of entries of the ancestor array with 64-bit pointers. */
  const MAXH: nat := 64 * 3 / 2

  // ---------------------------------------------------------------------------------------
  // Which linked structure is which tree
  // ---------------------------------------------------------------------------------------

  /** The objects of a tree. */
  ghost function Refs<V>(t: Shape<V>): set<TreeNode<V>> {
    if t.Leaf? then {} else Refs(t.left) + {t.ref} + Refs(t.right)
  }

  /** No object occurs twice in the tree. */
  ghost predicate Separate<V>(t: Shape<V>) {
    t.Node? ==>
      && Separate(t.left) && Separate(t.right)
      && t.ref !in Refs(t.left) && t.ref !in Refs(t.right) && Refs(t.left) !! Refs(t.right)
  }

  /** Pointer `n` points to linked nodes that form tree `t`. */
  ghost predicate Match<V>(n: TreeNode?<V>, t: Shape<V>)
    reads Refs(t)
    decreases t
  {
    if t.Leaf? then n == null
    else
      && n == t.ref && n.key == t.key && n.value == t.value && n.height == t.height
      && |n.child| == 2 && Match(n.child[0], t.left) && Match(n.child[1], t.right)
  }

  ghost function PathRefs<V>(path: Path<V>): set<TreeNode<V>> {
    if path == [] then {}
    else
      var f := path[|path| - 1];
      PathRefs(path[..|path| - 1]) + {f.ref} + Refs(f.sibling)
  }

  ghost predicate SeparatePath<V>(path: Path<V>) {
    path != [] ==>
      var f := path[|path| - 1];
      && SeparatePath(path[..|path| - 1]) && Separate(f.sibling) && f.dir < 2
      && f.ref !in Refs(f.sibling) && f.ref !in PathRefs(path[..|path| - 1])
      && Refs(f.sibling) !! PathRefs(path[..|path| - 1])
  }

  /** Starting at `root`, the ancestors are linked as the path says, and the hole at the end of
      the path holds pointer `n`. */
  ghost predicate PathMatch<V>(root: TreeNode?<V>, path: Path<V>, n: TreeNode?<V>)
    reads PathRefs(path)
    decreases |path|
  {
    if path == [] then n == root
    else
      var f := path[|path| - 1];
      && f.dir < 2 && f.ref.key == f.key && f.ref.value == f.value && f.ref.height == f.height
      && |f.ref.child| == 2 && f.ref.child[f.dir] == n && Match(f.ref.child[1 - f.dir], f.sibling)
      && PathMatch(root, path[..|path| - 1], f.ref)
  }

  lemma {:induction false} PlugRefs<V>(path: Path<V>, t: Shape<V>)
    requires SeparatePath(path) && Separate(t) && Refs(t) !! PathRefs(path)
    ensures Refs(Plug(path, t)) == PathRefs(path) + Refs(t) && Separate(Plug(path, t))
  {
    if path != [] {
      PlugRefs(path[..|path| - 1], Fill(path[|path| - 1], t));
    }
  }

  lemma {:induction false} PlugMatch<V>(root: TreeNode?<V>, path: Path<V>, n: TreeNode?<V>, t: Shape<V>)
    requires PathMatch(root, path, n) && Match(n, t)
    ensures Match(root, Plug(path, t))
    decreases |path|
  {
    if path != [] {
      var f := path[|path| - 1];
      assert Match(f.ref, Fill(f, t));
      PlugMatch(root, path[..|path| - 1], f.ref, Fill(f, t));
    }
  }

  /** Rotations reuse the objects of the tree. */
  lemma RotRefs<V>(x: Shape<V>, dir: nat)
    requires x.Node? && dir < 2 && Kid(x, dir).Node? && Separate(x)
    requires Height(Kid(Kid(x, dir), 1 - dir)) > Height(Kid(Kid(x, dir), dir)) ==> Kid(Kid(x, dir), 1 - dir).Node?
    ensures Refs(Rotated(x, dir)) == Refs(x) && Separate(Rotated(x, dir))
  {
    var y: Shape<V> := Kid(x, dir);
    var z: Shape<V> := Kid(y, 1 - dir);
    var hz := Height(z);
    KidRefs(x, dir);
    KidRefs(y, dir);
    if hz > Height(Kid(y, dir)) {
      KidRefs(z, dir);
      var x': Shape<V> := Rebuilt(x, dir, Kid(z, 1 - dir), hz);
      var y': Shape<V> := Rebuilt(y, 1 - dir, Kid(z, dir), hz);
      KidRefs(x', dir);
      KidRefs(y', dir);
      KidRefs(Rotated(x, dir), dir);
    } else {
      var x': Shape<V> := Rebuilt(x, dir, z, hz + 1);
      KidRefs(x', dir);
      KidRefs(Rotated(x, dir), dir);
    }
  }

  lemma KidRefs<V>(t: Shape<V>, dir: nat)
    requires t.Node? && dir < 2
    ensures Refs(t) == Refs(Kid(t, dir)) + {t.ref} + Refs(Kid(t, 1 - dir))
    ensures Separate(t) <==>
              && Separate(Kid(t, dir)) && Separate(Kid(t, 1 - dir))
              && t.ref !in Refs(Kid(t, dir)) && t.ref !in Refs(Kid(t, 1 - dir))
              && Refs(Kid(t, dir)) !! Refs(Kid(t, 1 - dir))
  {
  }

  // ---------------------------------------------------------------------------------------
  // Rebalancing in place
  // ---------------------------------------------------------------------------------------

  lemma MatchKids<V>(n: TreeNode?<V>, t: Shape<V>, dir: nat)
    requires t.Node? && dir < 2 && Match(n, t)
    ensures n == t.ref && |n.child| == 2 && n.key == t.key && n.value == t.value && n.height == t.height
    ensures Match(n.child[dir], Kid(t, dir)) && Match(n.child[1 - dir], Kid(t, 1 - dir))
  {
  }

  /** A node that has the fields and children of a tree matches it. */
  lemma MatchJoin<V>(n: TreeNode<V>, t: Shape<V>, dir: nat)
    requires t.Node? && dir < 2 && n == t.ref && |n.child| == 2
    requires n.key == t.key && n.value == t.value && n.height == t.height
    requires Match(n.child[dir], Kid(t, dir)) && Match(n.child[1 - dir], Kid(t, 1 - dir))
    ensures Match(n, t)
  {
  }

  function NodeHeight<V>(n: TreeNode?<V>): int
    reads n
  {
    if n == null then 0 else n.height
  }

  lemma MatchHeight<V>(n: TreeNode?<V>, t: Shape<V>)
    requires Match(n, t)
    ensures NodeHeight(n) == Height(t)
  {
  }

  /** The double rotation of rot: the inner grandchild `z` becomes the root. */
  method RotDouble<V>(x: TreeNode<V>, y: TreeNode<V>, z: TreeNode<V>, dir: nat, hz: int, ghost t: Shape<V>)
    requires Match(x, t) && Separate(t) && t.Node? && dir < 2 && Kid(t, dir).Node?
    requires Kid(Kid(t, dir), 1 - dir).Node? && hz == Height(Kid(Kid(t, dir), 1 - dir)) > Height(Kid(Kid(t, dir), dir))
    requires y == Kid(t, dir).ref && z == Kid(Kid(t, dir), 1 - dir).ref
    modifies Refs(t)
    ensures Match(z, Rotated(t, dir))
  {
    hide Refs, Separate, Match;
    ghost var ty: Shape<V> := Kid(t, dir);
    ghost var tz: Shape<V> := Kid(ty, 1 - dir);
    KidRefs(t, dir);
    MatchKids(x, t, dir);
    KidRefs(ty, dir);
    MatchKids(y, ty, dir);
    KidRefs(tz, dir);
    MatchKids(z, tz, dir);
    ghost var xa, yd, zb, zc := x.child[1 - dir], y.child[dir], z.child[1 - dir], z.child[dir];
    x.child := x.child[dir := z.child[1 - dir]];
    y.child := y.child[1 - dir := z.child[dir]];
    z.child := z.child[1 - dir := x];
    z.child := z.child[dir := y];
    x.height := hz;
    y.height := hz;
    z.height := hz + 1;
    assert Match(xa, Kid(t, 1 - dir));
    assert Match(zb, Kid(tz, 1 - dir));
    assert Match(zc, Kid(tz, dir));
    assert Match(yd, Kid(ty, dir));
    MatchJoin(x, Rebuilt(t, dir, Kid(tz, 1 - dir), hz), dir);
    MatchJoin(y, Rebuilt(ty, 1 - dir, Kid(tz, dir), hz), dir);
    MatchJoin(z, Rotated(t, dir), dir);
  }

  /** The single rotation of rot: the deeper child `y` becomes the root. */
  method RotSingle<V>(x: TreeNode<V>, y: TreeNode<V>, z: TreeNode?<V>, dir: nat, hz: int, ghost t: Shape<V>)
    requires Match(x, t) && Separate(t) && t.Node? && dir < 2 && Kid(t, dir).Node?
    requires hz == Height(Kid(Kid(t, dir), 1 - dir)) <= Height(Kid(Kid(t, dir), dir))
    requires y == Kid(t, dir).ref && Match(z, Kid(Kid(t, dir), 1 - dir))
    modifies Refs(t)
    ensures Match(y, Rotated(t, dir))
  {
    hide Refs, Separate, Match;
    ghost var ty: Shape<V> := Kid(t, dir);
    ghost var tz: Shape<V> := Kid(ty, 1 - dir);
    KidRefs(t, dir);
    MatchKids(x, t, dir);
    KidRefs(ty, dir);
    MatchKids(y, ty, dir);
    x.child := x.child[dir := z];
    x.height := hz + 1;
    ghost var tx': Shape<V> := Rebuilt(t, dir, tz, hz + 1);
    MatchJoin(x, tx', dir);
    KidRefs(tx', dir);
    y.child := y.child[1 - dir := x];
    y.height := hz + 2;
    MatchJoin(y, Rotated(t, dir), dir);
  }

  /** Rotates the tree at `x`, whose child in direction `dir` is the deeper one, and returns its
      new root. The second result is the change over the height stored in `x` before. */
  method Rot<V>(x: TreeNode<V>, dir: nat, ghost t: Shape<V>) returns (p: TreeNode<V>, delta: int)
    requires Match(x, t) && Separate(t) && t.Node? && dir < 2 && Kid(t, dir).Node?
    requires Height(Kid(Kid(t, dir), 1 - dir)) > Height(Kid(Kid(t, dir), dir)) ==> Kid(Kid(t, dir), 1 - dir).Node?
    modifies Refs(t)
    ensures Match(p, Rotated(t, dir))
    ensures delta == Height(Rotated(t, dir)) - t.height
  {
    hide Refs, Separate, Match;
    MatchKids(x, t, dir);
    ghost var ty: Shape<V> := Kid(t, dir);
    var y := x.child[dir];
    MatchKids(y, ty, dir);
    ghost var tz: Shape<V> := Kid(ty, 1 - dir);
    var z := y.child[1 - dir];
    var hx := x.height;
    var hz := NodeHeight(z);
    MatchHeight(z, tz);
    MatchHeight(y.child[dir], Kid(ty, dir));
    if hz > NodeHeight(y.child[dir]) {
      MatchKids(z, tz, dir);
      RotDouble(x, y, z, dir, hz, t);
    } else {
      RotSingle(x, y, z, dir, hz, t);
      z := y;
    }
    MatchHeight(z, Rotated(t, dir));
    p := z;
    delta := z.height - hx;
  }

  /** Restores balance at node `n`, one of whose subtrees changed its height by at most one.
      Returns the new root of its tree and the change over the height stored before. */
  method Balance<V>(n: TreeNode<V>, ghost t: Shape<V>) returns (p: TreeNode<V>, delta: int)
    requires Match(n, t) && Separate(t) && t.Node? && (!Even(t) ==> Rotatable(t))
    modifies Refs(t)
    ensures Match(p, Balanced(t))
    ensures delta == Height(Balanced(t)) - t.height
  {
    hide Refs, Separate, Match;
    MatchKids(n, t, 0);
    KidRefs(t, 0);
    MatchHeight(n.child[0], t.left);
    MatchHeight(n.child[1], t.right);
    var h0 := NodeHeight(n.child[0]);
    var h1 := NodeHeight(n.child[1]);
    if -1 <= h0 - h1 <= 1 {
      var before := n.height;
      n.height := if h0 < h1 then h1 + 1 else h0 + 1;
      MatchJoin(n, Balanced(t), 0);
      return n, n.height - before;
    }
    p, delta := Rot(n, if h0 < h1 then 1 else 0, t);
  }

  lemma BalancedRefs<V>(t: Shape<V>)
    requires t.Node? && Separate(t) && (!Even(t) ==> Rotatable(t))
    ensures Refs(Balanced(t)) == Refs(t) && Separate(Balanced(t))
  {
    if !Even(t) {
      RotRefs(t, Deeper(t));
    }
  }

  // ---------------------------------------------------------------------------------------
  // Entries and maps
  // ---------------------------------------------------------------------------------------

  /** The finite map that a list of entries stands for. */
  ghost function MapOf<V>(q: seq<Entry<V>>): map<string, V> {
    if q == [] then map[] else MapOf(q[..|q| - 1])[q[|q| - 1].key := q[|q| - 1].value]
  }

  lemma {:induction false} MapConcat<V>(a: seq<Entry<V>>, b: seq<Entry<V>>)
    ensures MapOf(a + b) == MapOf(a) + MapOf(b)
  {
    if b == [] {
      assert a + b == a;
    } else {
      assert (a + b)[..|a + b| - 1] == a + b[..|b| - 1];
      MapConcat(a, b[..|b| - 1]);
    }
  }

  lemma {:induction false} MapKeys<V>(q: seq<Entry<V>>, key: string)
    ensures key in MapOf(q) <==> exists i :: 0 <= i < |q| && q[i].key == key
  {
    if q != [] {
      MapKeys(q[..|q| - 1], key);
      if q[|q| - 1].key != key && key in MapOf(q[..|q| - 1]) {
        var i :| 0 <= i < |q| - 1 && q[..|q| - 1][i].key == key;
        assert q[i].key == key;
      }
    }
  }

  /** An entry between smaller and larger keys decides the value of its key. */
  lemma MapAround<V>(l: seq<Entry<V>>, e: Entry<V>, r: seq<Entry<V>>)
    requires forall i :: 0 <= i < |r| ==> r[i].key != e.key
    ensures MapOf(l + [e] + r) == (MapOf(l) + MapOf(r))[e.key := e.value]
  {
    MapConcat(l + [e], r);
    assert (l + [e])[..|l|] == l;
    MapKeys(r, e.key);
  }

  /** The entries to the left of the hole have smaller keys, those to the right larger ones. */
  ghost predicate Around<V>(path: Path<V>, key: string) {
    && (forall i :: 0 <= i < |Before(path)| ==> Less(Before(path)[i].key, key))
    && (forall i :: 0 <= i < |After(path)| ==> Less(key, After(path)[i].key))
  }

  /** The frame that is left behind when descending in direction `dir`. */
  ghost function FrameOf<V>(t: Shape<V>, dir: nat): (f: Frame<TreeNode<V>, V>)
    requires t.Node? && dir < 2
    ensures Fill(f, Kid(t, dir)) == t
  {
    Frame(t.ref, t.key, t.value, t.height, dir, Kid(t, 1 - dir))
  }

  /** In a sorted list, the entries before one entry are smaller and those after it larger. */
  lemma SplitSorted<V>(l: seq<Entry<V>>, e: Entry<V>, r: seq<Entry<V>>)
    requires Sorted(l + [e] + r)
    ensures forall i :: 0 <= i < |l| ==> Less(l[i].key, e.key)
    ensures forall i :: 0 <= i < |r| ==> Less(e.key, r[i].key)
  {
    var q := l + [e] + r;
    forall i | 0 <= i < |l| ensures Less(l[i].key, e.key) {
      assert q[i] == l[i] && q[|l|] == e;
    }
    forall i | 0 <= i < |r| ensures Less(e.key, r[i].key) {
      assert q[|l|] == e && q[|l| + 1 + i] == r[i];
    }
  }

  /** The entries of the whole tree, split at the root of the subtree below the path. */
  lemma SplitAt<V>(path: Path<V>, t: Shape<V>)
    requires t.Node?
    ensures Entries(Plug(path, t)) ==
              (Before(path) + Entries(t.left)) + [Entry(t.key, t.value)] + (Entries(t.right) + After(path))
  {
    hide Plug, Before, After;
    PlugEntries(path, t);
    Regroup5(Before(path), Entries(t.left), [Entry(t.key, t.value)], Entries(t.right), After(path));
  }

  /** Going down towards the key keeps the entries around it in order. */
  lemma AroundStep<V>(path: Path<V>, t: Shape<V>, key: string, dir: nat)
    requires t.Node? && dir < 2 && Sorted(Entries(Plug(path, t))) && Around(path, key)
    requires if dir == 1 then Less(t.key, key) else Less(key, t.key)
    ensures Around(path + [FrameOf(t, dir)], key)
    ensures Plug(path + [FrameOf(t, dir)], Kid(t, dir)) == Plug(path, t)
  {
    hide Less, Sorted, Entries, Plug, Before, After;
    SplitAt(path, t);
    OneFrame(path, t, dir);
    var l, e, r := Before(path) + Entries(t.left), Entry(t.key, t.value), Entries(t.right) + After(path);
    SplitSorted(l, e, r);
    if dir == 1 {
      SmallerStill(l, e, key);
    } else {
      LargerStill(r, e, key);
    }
  }

  /** One more frame: the root of the subtree and its other child come to lie beside the hole. */
  lemma OneFrame<V>(path: Path<V>, t: Shape<V>, dir: nat)
    requires t.Node? && dir < 2
    ensures var path', e := path + [FrameOf(t, dir)], Entry(t.key, t.value);
      && Plug(path', Kid(t, dir)) == Plug(path, t)
      && Before(path') == (if dir == 1 then Before(path) + Entries(t.left) + [e] else Before(path))
      && After(path') == (if dir == 1 then After(path) else [e] + (Entries(t.right) + After(path)))
  {
    hide Entries;
    var path', e := path + [FrameOf(t, dir)], Entry(t.key, t.value);
    assert path'[..|path'| - 1] == path && path'[|path'| - 1] == FrameOf(t, dir);
    assert Before(path) + (Entries(t.left) + [e]) == Before(path) + Entries(t.left) + [e];
    assert [e] + Entries(t.right) + After(path) == [e] + (Entries(t.right) + After(path));
  }

  lemma SmallerStill<V>(l: seq<Entry<V>>, e: Entry<V>, key: string)
    requires (forall i :: 0 <= i < |l| ==> Less(l[i].key, e.key)) && Less(e.key, key)
    ensures forall i :: 0 <= i < |l + [e]| ==> Less((l + [e])[i].key, key)
  {
    forall i | 0 <= i < |l| ensures Less(l[i].key, key) {
      LessTrans(l[i].key, e.key, key);
    }
  }

  lemma LargerStill<V>(r: seq<Entry<V>>, e: Entry<V>, key: string)
    requires (forall i :: 0 <= i < |r| ==> Less(e.key, r[i].key)) && Less(key, e.key)
    ensures forall i :: 0 <= i < |[e] + r| ==> Less(key, ([e] + r)[i].key)
  {
    forall i | 0 <= i < |r| ensures Less(key, r[i].key) {
      LessTrans(key, e.key, r[i].key);
    }
  }

  /** The entry at the root of the subtree decides the value of its key in the whole map. */
  lemma FoundKey<V>(path: Path<V>, t: Shape<V>)
    requires t.Node? && Sorted(Entries(Plug(path, t)))
    ensures t.key in MapOf(Entries(Plug(path, t))) && MapOf(Entries(Plug(path, t)))[t.key] == t.value
  {
    hide Less, Sorted, Plug, Before, After, MapOf, Entries;
    SplitAt(path, t);
    var l, e, r := Before(path) + Entries(t.left), Entry(t.key, t.value), Entries(t.right) + After(path);
    SplitSorted(l, e, r);
    forall i | 0 <= i < |r| ensures r[i].key != e.key {
      LessIrreflexive(e.key);
    }
    MapAround(l, e, r);
  }

  /** The search ended at an empty slot. */
  lemma MissingKey<V>(path: Path<V>, key: string)
    requires Around(path, key)
    ensures key !in MapOf(Entries(Plug(path, Leaf)))
  {
    hide Less, Plug, Before, After, MapOf, Entries;
    HoleEntries(path);
    var q := Before(path) + After(path);
    forall i | 0 <= i < |q| ensures q[i].key != key {
      LessIrreflexive(key);
    }
    MapKeys(q, key);
  }

  /** The entries around an empty slot. */
  lemma HoleEntries<V>(path: Path<V>)
    ensures Entries(Plug(path, Leaf)) == Before(path) + After(path)
  {
    hide Plug, Before, After;
    var none: Shape<V> := Leaf;
    PlugEntries(path, none);
    assert Entries(none) == [];
    assert Before(path) + [] + After(path) == Before(path) + After(path);
  }

  /** Replacing the value at the root of the subtree. */
  lemma ReplaceEntry<V>(path: Path<V>, t: Shape<V>, value: V)
    requires t.Node? && Sorted(Entries(Plug(path, t))) && Avl(Plug(path, t))
    ensures var t' := t.(value := value);
            && Sorted(Entries(Plug(path, t'))) && Avl(Plug(path, t'))
            && MapOf(Entries(Plug(path, t'))) == MapOf(Entries(Plug(path, t)))[t.key := value]
  {
    hide Less, Entries, Avl, Sorted, Plug, Before, After, MapOf;
    var t' := t.(value := value);
    PlugAvlInner(path, t);
    SameShape(t, value);
    StopEarly(path, t, t');
    SplitAt(path, t);
    SplitAt(path, t');
    var l, r := Before(path) + Entries(t.left), Entries(t.right) + After(path);
    ReplaceMiddle(l, Entry(t.key, t.value), Entry(t.key, value), r);
  }

  lemma SameShape<V>(t: Shape<V>, value: V)
    requires t.Node? && Avl(t)
    ensures Avl(t.(value := value))
  {
  }

  lemma ReplaceMiddle<V>(l: seq<Entry<V>>, e: Entry<V>, e': Entry<V>, r: seq<Entry<V>>)
    requires Sorted(l + [e] + r) && e'.key == e.key
    ensures Sorted(l + [e'] + r) && MapOf(l + [e'] + r) == MapOf(l + [e] + r)[e.key := e'.value]
  {
    hide Less, MapOf;
    var q, q' := l + [e] + r, l + [e'] + r;
    SplitSorted(l, e, r);
    LessIrreflexive(e.key);
    MapAround(l, e, r);
    MapAround(l, e', r);
    forall i, j | 0 <= i < j < |q'| ensures Less(q'[i].key, q'[j].key) {
      assert q'[i].key == q[i].key && q'[j].key == q[j].key;
    }
  }

  /** Adding an entry in the hole of a path around its key. */
  lemma AddEntry<V>(path: Path<V>, t: Shape<V>, key: string, value: V)
    requires Around(path, key) && Sorted(Entries(Plug(path, Leaf))) && Entries(t) == [Entry(key, value)]
    ensures Sorted(Entries(Plug(path, t)))
    ensures MapOf(Entries(Plug(path, t))) == MapOf(Entries(Plug(path, Leaf)))[key := value]
  {
    hide Less, Sorted, MapOf, Plug, Before, After, Entries;
    HoleEntries(path);
    PlugEntries(path, t);
    InsertMiddle(Before(path), Entry(key, value), After(path));
  }

  lemma InsertMiddle<V>(l: seq<Entry<V>>, e: Entry<V>, r: seq<Entry<V>>)
    requires Sorted(l + r)
    requires (forall i :: 0 <= i < |l| ==> Less(l[i].key, e.key))
      && (forall i :: 0 <= i < |r| ==> Less(e.key, r[i].key))
    ensures Sorted(l + [e] + r) && MapOf(l + [e] + r) == MapOf(l + r)[e.key := e.value]
  {
    hide Less, Sorted;
    InsertSorted(l, e, r);
    forall i | 0 <= i < |r| ensures r[i].key != e.key {
      LessIrreflexive(e.key);
    }
    MapAround(l, e, r);
    MapConcat(l, r);
  }

  lemma InsertSorted<V>(l: seq<Entry<V>>, e: Entry<V>, r: seq<Entry<V>>)
    requires Sorted(l + r)
    requires (forall i :: 0 <= i < |l| ==> Less(l[i].key, e.key))
      && (forall i :: 0 <= i < |r| ==> Less(e.key, r[i].key))
    ensures Sorted(l + [e] + r)
  {
    hide Less;
    var q, q' := l + r, l + [e] + r;
    forall i, j | 0 <= i < j < |q'| ensures Less(q'[i].key, q'[j].key) {
      if i != |l| && j != |l| {
        var i', j' := if i < |l| then i else i - 1, if j < |l| then j else j - 1;
        assert q'[i] == q[i'] && q'[j] == q[j'];
      }
    }
  }

  // ---------------------------------------------------------------------------------------
  // The map
  // ---------------------------------------------------------------------------------------

  /** The slot at the end of a path. */
  ghost function SlotAt<V>(path: Path<V>): Slot<V> {
    if path == [] then RootSlot else KidSlot(path[|path| - 1].ref, path[|path| - 1].dir)
  }

  /** The object that holds the slot at the end of a path, unless that is the root variable. */
  ghost function Holder<V>(path: Path<V>): set<TreeNode<V>> {
    if path == [] then {} else {path[|path| - 1].ref}
  }

  class Map<V> {
    var root: TreeNode?<V>
    ghost var shape: Shape<V>

    ghost predicate Valid()
      reads this, Refs(shape)
    {
      Match(root, shape) && Separate(shape) && Avl(shape) && Sorted(Entries(shape))
    }

    ghost function Contents(): map<string, V>
      reads this
    {
      MapOf(Entries(shape))
    }

    constructor ()
      ensures Valid() && Contents() == map[]
    {
      root, shape := null, Leaf;
    }

    /** Looks up a key; the result is the node that holds it, or null. */
    method Find(key: string) returns (n: TreeNode?<V>)
      requires Valid()
      ensures n == null <==> key !in Contents()
      ensures n != null ==> n in Refs(shape) && n.key == key && n.value == Contents()[key]
    {
      n := root;
      ghost var path: Path<V>, t := [], shape;
      while n != null
        invariant Match(n, t) && shape == Plug(path, t) && Refs(t) <= Refs(shape)
        invariant Around(path, key)
        decreases t
      {
        var c := StrCmp(key, n.key);
        CmpZero(key, n.key);
        CmpFlip(key, n.key);
        if c == 0 {
          FoundKey(path, t);
          return;
        }
        var dir := if c > 0 then 1 else 0;
        AroundStep(path, t, key, dir);
        path, t := path + [FrameOf(t, dir)], Kid(t, dir);
        n := n.child[dir];
      }
      MissingKey(path, key);
    }

    /** The pointer in a slot. */
    function ReadSlot(slot: Slot<V>): TreeNode?<V>
      reads this, if slot.KidSlot? then {slot.parent} else {}
      requires slot.KidSlot? ==> slot.dir < |slot.parent.child|
    {
      if slot.RootSlot? then root else slot.parent.child[slot.dir]
    }

    /** Stores a pointer in a slot. */
    method WriteSlot(slot: Slot<V>, p: TreeNode?<V>, ghost path: Path<V>, ghost n: TreeNode?<V>)
      requires PathMatch(root, path, n) && SeparatePath(path) && slot == SlotAt(path)
      modifies `root, Holder(path)
      ensures PathMatch(root, path, p)
    {
      match slot
      case RootSlot =>
        root := p;
      case KidSlot(parent, dir) =>
        parent.child := parent.child[dir := p];
    }

    /** Inserts a key, or replaces its value. Returns the replaced value. The ancestor array has
        MAXH entries whatever the size of the tree, so no index may reach it. */
    method Insert(key: string, value: V) returns (old_value: Option<V>)
      requires Valid() && Size(shape) < Pow2(64)
      modifies this, Refs(shape)
      ensures Valid() && fresh(Refs(shape) - old(Refs(shape)))
      ensures Contents() == old(Contents())[key := value]
      ensures old_value == if key in old(Contents()) then Some(old(Contents())[key]) else None
    {
      hide Entries, Around, Less, Sorted, Avl, SlotsOk, Plug, Size, Pow2, MapOf;
      var a := new Slot<V>[MAXH];
      var i;
      ghost var path, t;
      var n;
      i, n, path, t := Descend(key, a);
      if n != null {
        FoundKey(path, t);
        HoleNode(path, t, n);
        PathWithin(path, t, n);
        old_value := Some(n.value);
        Replace(n, value, path, t);
        return;
      }
      old_value := None;
      MissingKey(path, key);
      RefsAllocated(shape);
      PathAllocated(path);
      var r := new TreeNode(key, value);
      Climb(r, a, i - 1, path);
    }

    /** Walks down to the key, or to the empty slot where it belongs, and records the slots. */
    method Descend(key: string, a: array<Slot<V>>) returns (i: nat, n: TreeNode?<V>, ghost path: Path<V>,
        ghost t: Shape<V>)
      requires Valid() && Size(shape) < Pow2(64) && a.Length == MAXH
      modifies a
      ensures i == |path| + 1 <= MAXH && SlotsOk(a[..], path)
      ensures Hole(path, t, n) && shape == Plug(path, t) && Around(path, key)
      ensures n == null ==> t == Leaf
      ensures n != null ==> t.Node? && t.key == key && t.value == n.value
      ensures Valid()
    {
      hide Entries, Around, Less, Sorted, Avl, Hole, SlotsOk, PathMatch, Refs, PathRefs, Plug, Size, Pow2, MapOf;
      n, i, path, t := root, 0, [], shape;
      a[i] := RootSlot;
      i := i + 1;
      StartDescent(key, a[..]);
      while n != null
        invariant i == |path| + 1 <= MAXH && SlotsOk(a[..], path)
        invariant Hole(path, t, n) && shape == Plug(path, t) && Around(path, key)
        decreases t
      {
        HoleNode(path, t, n);
        var c := StrCmp(key, n.key);
        CmpZero(key, n.key);
        if c == 0 {
          FinishClimb(path, t, n, Refs(t) + PathRefs(path));
          return;
        }
        var dir := if c > 0 then 1 else 0;
        StepDown(path, t, n, key, dir);
        SlotsStep(a[..], path, t, dir);
        a[i] := KidSlot(n, dir);
        i := i + 1;
        n := n.child[dir];
        path, t := path + [FrameOf(t, dir)], Kid(t, dir);
      }
      HoleNode(path, t, n);
      FinishClimb(path, t, n, Refs(t) + PathRefs(path));
    }

    /** The search starts at the root variable. */
    lemma StartDescent(key: string, a: seq<Slot<V>>)
      requires Match(root, shape) && Separate(shape) && a != [] && a[0] == RootSlot
      ensures Hole([], shape, root) && Around<V>([], key) && SlotsOk(a, []) && Plug([], shape) == shape
    {
    }

    lemma HoleNode(path: Path<V>, t: Shape<V>, n: TreeNode?<V>)
      requires Hole(path, t, n)
      ensures n == null <==> t == Leaf
      ensures n != null ==> t.Node? && n == t.ref && n.key == t.key && n.value == t.value && n in Refs(t)
    {
    }

    /** The path leads from the root to a slot that holds pointer `n`, below which is tree `t`. */
    ghost predicate Hole(path: Path<V>, t: Shape<V>, n: TreeNode?<V>)
      reads this, PathRefs(path), Refs(t)
    {
      && PathMatch(root, path, n) && Match(n, t)
      && SeparatePath(path) && Separate(t) && Refs(t) !! PathRefs(path)
    }

    lemma HoleStep(path: Path<V>, t: Shape<V>, n: TreeNode?<V>, dir: nat)
      requires Hole(path, t, n) && t.Node? && dir < 2
      ensures n != null && |n.child| == 2 && Hole(path + [FrameOf(t, dir)], Kid(t, dir), n.child[dir])
      ensures PathRefs(path + [FrameOf(t, dir)]) + Refs(Kid(t, dir)) == PathRefs(path) + Refs(t)
    {
      var path' := path + [FrameOf(t, dir)];
      assert path'[..|path'| - 1] == path && path'[|path'| - 1] == FrameOf(t, dir);
      KidRefs(t, dir);
      MatchKids(n, t, dir);
    }

    lemma StepDown(path: Path<V>, t: Shape<V>, n: TreeNode<V>, key: string, dir: nat)
      requires Hole(path, t, n) && Around(path, key) && StrCmp(key, n.key) != 0
        && dir == if StrCmp(key, n.key) > 0 then 1 else 0
      requires Sorted(Entries(Plug(path, t))) && Avl(Plug(path, t)) && Size(Plug(path, t)) < Pow2(64)
      ensures t.Node? && |path| + 1 < MAXH && |n.child| == 2
      ensures Hole(path + [FrameOf(t, dir)], Kid(t, dir), n.child[dir]) && Around(path + [FrameOf(t, dir)], key)
      ensures Plug(path + [FrameOf(t, dir)], Kid(t, dir)) == Plug(path, t)
      ensures PathRefs(path + [FrameOf(t, dir)]) + Refs(Kid(t, dir)) == PathRefs(path) + Refs(t)
    {
      hide Entries, Around, Less, Sorted, Avl, Hole, Plug, Size, Pow2;
      HoleNode(path, t, n);
      StillRoom(path, t);
      LessMeans(key, n.key);
      AroundStep(path, t, key, dir);
      HoleStep(path, t, n, dir);
    }

    /** Overwrites the value of the node that was found. */
    method Replace(n: TreeNode<V>, value: V, ghost path: Path<V>, ghost t: Shape<V>)
      requires Valid() && Hole(path, t, n) && shape == Plug(path, t) && t.Node?
      modifies n, `shape
      ensures Valid() && Refs(shape) == old(Refs(shape))
      ensures Contents() == old(Contents())[t.key := value]
    {
      hide Entries, Sorted, Avl, Plug, MapOf, PathRefs;
      PlugRefs(path, t);
      ReplaceEntry(path, t, value);
      ghost var t' := t.(value := value);
      assert Refs(t') == Refs(t) && Separate(t');
      n.value := value;
      shape := Plug(path, t');
      PlugRefs(path, t');
      PlugMatch(root, path, n, t');
    }

    /** Puts a new node into the empty slot at the end of the path and rebalances its ancestors
        from the nearest on, until one keeps its height. */
    method Climb(r: TreeNode<V>, a: array<Slot<V>>, last: nat, ghost path: Path<V>)
      requires Valid() && Hole(path, Leaf, null) && shape == Plug(path, Leaf)
      requires SlotsOk(a[..], path) && last == |path| < a.Length
      requires r !in Refs(shape) && r.child == [null, null] && r.height == 1 && Around(path, r.key)
      modifies this, Refs(shape), r
      ensures Valid() && Refs(shape) == old(Refs(shape)) + {r}
      ensures Contents() == old(Contents())[old(r.key) := old(r.value)]
    {
      hide Entries, Around, Sorted, Avl, Refs, PathRefs, Plug, SlotsOk, Hole, Balanced, Rotatable;
      ghost var t0: Shape<V> := Node(r, Leaf, r.key, r.value, 1, Leaf);
      ghost var whole, refs := shape, Refs(shape) + {r};
      NewEntries(t0);
      AddEntry(path, t0, r.key, r.value);
      ghost var none: Shape<V> := Leaf;
      PathWithin(path, none, null);
      assert Refs(none) == {} by {
        NoRefs(none);
      }
      HolderIn(path);
      var i := last;
      assert path[..i] == path;
      SlotsAt(a[..], path, i);
      PlaceNode(a[i], r, path, t0);
      ghost var sub, before := t0, Leaf;
      ghost var p: TreeNode?<V> := r;
      var going := true;
      while going && i > 0
        invariant 0 <= i <= |path| && SlotsOk(a[..], path)
        invariant Hole(path[..i], sub, p) && Refs(sub) + PathRefs(path[..i]) == refs && Avl(sub)
        invariant Height(sub) == Height(before) + (if going then 1 else 0)
        invariant Plug(path[..i], before) == whole
        invariant Entries(Plug(path[..i], sub)) == Entries(Plug(path, t0))
      {
        i := i - 1;
        ghost var f := path[i];
        PopFrame(path, i, sub, p, refs);
        PlugStep(path, i, before, sub);
        PlugAvlInner(path[..i], Fill(f, before));
        BalanceStep(f, before, sub);
        SlotsAt(a[..], path, i);
        before := Fill(f, before);
        sub := Fill(f, sub);
        BalancedRefs(sub);
        SameEntries(path[..i], sub, Balanced(sub));
        HolderIn(path[..i]);
        var delta;
        p, delta := BalanceSlot(a[i], path[..i], sub, f.ref);
        going := delta != 0;
        sub := Balanced(sub);
      }
      ghost var above := path[..i];
      if going {
        assert above == [];
        PlugNone(sub);
      } else {
        StopEarly(above, before, sub);
      }
      FinishClimb(above, sub, p, refs);
      shape := Plug(above, sub);
    }

    /** Puts a new node into an empty slot. */
    method PlaceNode(slot: Slot<V>, r: TreeNode<V>, ghost path: Path<V>, ghost t0: Shape<V>)
      requires Hole(path, Leaf, null) && slot == SlotAt(path) && r !in PathRefs(path)
      requires r.child == [null, null] && r.height == 1
      requires t0 == Node(r, Leaf, r.key, r.value, 1, Leaf)
      modifies `root, Holder(path)
      ensures Hole(path, t0, r) && Refs(t0) + PathRefs(path) == PathRefs(path) + {r}
      ensures Avl(t0) && Height(t0) == 1 && Entries(t0) == [Entry(r.key, r.value)]
    {
      assert Match(r, t0);
      WriteSlot(slot, r, path, null);
      assert Match(r, t0);
    }

    /** The function balance: rebalances the tree in a slot. */
    method BalanceSlot(slot: Slot<V>, ghost path: Path<V>, ghost t: Shape<V>, ghost x: TreeNode<V>)
      returns (p: TreeNode<V>, delta: int)
      requires Hole(path, t, x) && slot == SlotAt(path) && t.Node? && (!Even(t) ==> Rotatable(t))
      modifies `root, Holder(path), Refs(t)
      ensures Hole(path, Balanced(t), p) && Refs(Balanced(t)) == Refs(t)
      ensures delta == Height(Balanced(t)) - t.height
    {
      hide Refs, Balanced, Separate, Rotatable, Match, PathMatch, PathRefs;
      BalancedRefs(t);
      HolderIn(path);
      HoleRead(path, t, x);
      var n := ReadSlot(slot);
      PathAllocated(path);
      p, delta := Balance(n, t);
      RefsAllocated(Balanced(t));
      WriteSlot(slot, p, path, x);
    }

    lemma HoleRead(path: Path<V>, t: Shape<V>, x: TreeNode?<V>)
      requires Hole(path, t, x)
      ensures SlotAt(path).KidSlot? ==> SlotAt(path).dir < |SlotAt(path).parent.child|
      ensures ReadSlot(SlotAt(path)) == x
    {
    }

    /** Seen from one ancestor up, the hole holds the ancestor. */
    lemma PopFrame(path: Path<V>, i: nat, sub: Shape<V>, p: TreeNode?<V>, refs: set<TreeNode<V>>)
      requires i < |path| && Hole(path[..i + 1], sub, p) && Refs(sub) + PathRefs(path[..i + 1]) == refs
      ensures Hole(path[..i], Fill(path[i], sub), path[i].ref) && path[i].dir < 2
      ensures Refs(Fill(path[i], sub)) + PathRefs(path[..i]) == refs
    {
      var path', f := path[..i + 1], path[i];
      assert path'[..|path'| - 1] == path[..i] && path'[|path'| - 1] == f;
      KidRefs(Fill(f, sub), f.dir);
      MatchJoin(f.ref, Fill(f, sub), f.dir);
    }

    lemma PathWithin(path: Path<V>, t: Shape<V>, n: TreeNode?<V>)
      requires Hole(path, t, n) && shape == Plug(path, t)
      ensures Refs(shape) == PathRefs(path) + Refs(t)
    {
      PlugRefs(path, t);
    }

    lemma FinishClimb(path: Path<V>, t: Shape<V>, p: TreeNode?<V>, refs: set<TreeNode<V>>)
      requires Hole(path, t, p) && Refs(t) + PathRefs(path) == refs
      ensures Match(root, Plug(path, t)) && Separate(Plug(path, t)) && Refs(Plug(path, t)) == refs
    {
      PlugMatch(root, path, p, t);
      PlugRefs(path, t);
    }
  }

  lemma {:induction false} RefsAllocated<V>(t: Shape<V>)
    ensures forall x :: x in Refs(t) ==> allocated(x)
  {
    if t.Node? {
      RefsAllocated(t.left);
      RefsAllocated(t.right);
    }
  }

  lemma {:induction false} PathAllocated<V>(path: Path<V>)
    ensures forall x :: x in PathRefs(path) ==> allocated(x)
  {
    if path != [] {
      PathAllocated(path[..|path| - 1]);
      RefsAllocated(path[|path| - 1].sibling);
    }
  }

  lemma PlugNone<V>(t: Shape<V>)
    ensures Plug([], t) == t
  {
  }

  lemma NewEntries<V>(t: Shape<V>)
    requires t.Node? && t.left.Leaf? && t.right.Leaf?
    ensures Entries(t) == [Entry(t.key, t.value)]
  {
  }

  lemma NoRefs<V>(t: Shape<V>)
    requires t.Leaf?
    ensures Refs(t) == {}
  {
  }

  lemma HolderIn<V>(path: Path<V>)
    ensures Holder(path) <= PathRefs(path)
  {
  }

  lemma PlugStep<V>(path: Path<V>, i: nat, before: Shape<V>, sub: Shape<V>)
    requires i < |path|
    ensures Plug(path[..i + 1], before) == Plug(path[..i], Fill(path[i], before))
    ensures Plug(path[..i + 1], sub) == Plug(path[..i], Fill(path[i], sub))
  {
    var path' := path[..i + 1];
    assert path'[..|path'| - 1] == path[..i] && path'[|path'| - 1] == path[i];
  }

  lemma SameEntries<V>(path: Path<V>, t: Shape<V>, t': Shape<V>)
    requires Entries(t) == Entries(t')
    ensures Entries(Plug(path, t)) == Entries(Plug(path, t'))
  {
    PlugEntries(path, t);
    PlugEntries(path, t');
  }

  lemma SlotsAt<V>(a: seq<Slot<V>>, path: Path<V>, i: nat)
    requires SlotsOk(a, path) && i <= |path|
    ensures i < |a| && a[i] == SlotAt(path[..i])
  {
  }

  /** The array holds the slots along the path. */
  ghost predicate SlotsOk<V>(a: seq<Slot<V>>, path: Path<V>) {
    && |path| < |a|
    && forall k {:trigger a[k]} :: 0 <= k <= |path| ==> a[k] == SlotAt(path[..k])
  }

  lemma LessMeans(a: string, b: string)
    ensures Less(a, b) <==> StrCmp(a, b) < 0
    ensures Less(b, a) <==> StrCmp(a, b) > 0
  {
    CmpFlip(a, b);
  }

  /** In a balanced tree with fewer nodes than there are addresses the path to a node leaves
      room in the ancestor array for one more slot. */
  lemma StillRoom<V>(path: Path<V>, t: Shape<V>)
    requires t.Node? && Avl(Plug(path, t)) && Size(Plug(path, t)) < Pow2(64)
    ensures |path| + 1 < 96 <= MAXH
  {
    HeightBound(Plug(path, t), 32);
    PathHeight(path, t);
    PlugAvlInner(path, t);
    NonNegative(t);
  }

  lemma SlotsStep<V>(a: seq<Slot<V>>, path: Path<V>, t: Shape<V>, dir: nat)
    requires SlotsOk(a, path) && t.Node? && dir < 2 && |path| + 1 < |a|
    ensures SlotsOk(a[|path| + 1 := KidSlot(t.ref, dir)], path + [FrameOf(t, dir)])
  {
    var path' := path + [FrameOf(t, dir)];
    forall k | 0 <= k <= |path'| ensures a[|path| + 1 := KidSlot(t.ref, dir)][k] == SlotAt(path'[..k]) {
      if k <= |path| {
        assert path'[..k] == path[..k];
      } else {
        assert path'[..k] == path';
      }
    }
  }
}
