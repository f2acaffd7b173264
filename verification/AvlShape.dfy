/** The balanced trees of samu (tree.c) as values: what `rot` and `balance` do to a tree, why the
    result is balanced with exact heights, and why climbing may stop at the first ancestor whose
    height did not change. */
module AvlShape {
  import opened Powers
  import opened Strings

  /** One key with its value. */
  datatype Entry<V> = Entry(key: string, value: V)

  /** A tree together with the objects its nodes live in. `height` is the stored height. */
  datatype Tree<R, V> = Leaf | Node(ref: R, left: Tree<R, V>, key: string, value: V, height: int, right: Tree<R, V>)

  /** An ancestor on the way down: everything of it but the child in direction `dir`. */
  datatype Frame<R, V> = Frame(ref: R, key: string, value: V, height: int, dir: nat, sibling: Tree<R, V>)

  function Height<R, V>(t: Tree<R, V>): int {
    if t.Leaf? then 0 else t.height
  }

  function Kid<R, V>(t: Tree<R, V>, dir: nat): Tree<R, V>
    requires t.Node?
  {
    if dir == 0 then t.left else t.right
  }

  /** Node `t` with a new child in direction `dir` and a new stored height. */
  function Rebuilt<R, V>(t: Tree<R, V>, dir: nat, k: Tree<R, V>, h: int): (r: Tree<R, V>)
    requires t.Node? && dir < 2
    ensures r.Node? && r.ref == t.ref && r.key == t.key && r.value == t.value && r.height == h
    ensures Kid(r, dir) == k && Kid(r, 1 - dir) == Kid(t, 1 - dir)
  {
    if dir == 0 then t.(left := k, height := h) else t.(right := k, height := h)
  }

  /** The keys and values in key order. */
  function Entries<R, V>(t: Tree<R, V>): seq<Entry<V>> {
    if t.Leaf? then [] else Entries(t.left) + [Entry(t.key, t.value)] + Entries(t.right)
  }

  ghost predicate Sorted<V>(q: seq<Entry<V>>) {
    forall i, j :: 0 <= i < j < |q| ==> Less(q[i].key, q[j].key)
  }

  function Size<R, V>(t: Tree<R, V>): nat {
    if t.Leaf? then 0 else Size(t.left) + 1 + Size(t.right)
  }

  lemma {:induction false} SizeIsEntries<R, V>(t: Tree<R, V>)
    ensures Size(t) == |Entries(t)|
  {
    if t.Node? {
      SizeIsEntries(t.left);
      SizeIsEntries(t.right);
    }
  }

  function Max(a: int, b: int): int { if a < b then b else a }

  /** Stored heights are exact and siblings differ in height by at most one. */
  predicate Avl<R, V>(t: Tree<R, V>) {
    t.Node? ==>
      && Avl(t.left) && Avl(t.right)
      && t.height == Max(Height(t.left), Height(t.right)) + 1
      && -1 <= Height(t.left) - Height(t.right) <= 1
  }

  // ---------------------------------------------------------------------------------------
  // Rebalancing
  // ---------------------------------------------------------------------------------------

  /** Rotates a tree whose child in direction `dir` is too deep, as rot does. */
  function Rotated<R, V>(x: Tree<R, V>, dir: nat): (r: Tree<R, V>)
    requires x.Node? && dir < 2 && Kid(x, dir).Node?
    requires Height(Kid(Kid(x, dir), 1 - dir)) > Height(Kid(Kid(x, dir), dir)) ==> Kid(Kid(x, dir), 1 - dir).Node?
    ensures r.Node?
  {
    var y := Kid(x, dir);
    var z := Kid(y, 1 - dir);
    var hz := Height(z);
    if hz > Height(Kid(y, dir)) then
      var x' := Rebuilt(x, dir, Kid(z, 1 - dir), hz);
      var y' := Rebuilt(y, 1 - dir, Kid(z, dir), hz);
      Rebuilt(Rebuilt(z, 1 - dir, x', hz + 1), dir, y', hz + 1)
    else
      Rebuilt(y, 1 - dir, Rebuilt(x, dir, z, hz + 1), hz + 2)
  }

  /** Whether the children of a tree differ in height by at most one. */
  predicate Even<R, V>(t: Tree<R, V>)
    requires t.Node?
  {
    -1 <= Height(t.left) - Height(t.right) <= 1
  }

  /** The deeper side of a tree. */
  function Deeper<R, V>(t: Tree<R, V>): (dir: nat)
    requires t.Node?
    ensures dir < 2
  {
    if Height(t.left) < Height(t.right) then 1 else 0
  }

  /** The tree can be rotated: the deeper side has the nodes that move. */
  predicate Rotatable<R, V>(t: Tree<R, V>)
    requires t.Node?
  {
    var y := Kid(t, Deeper(t));
    y.Node? && (Height(Kid(y, 1 - Deeper(t))) > Height(Kid(y, Deeper(t))) ==> Kid(y, 1 - Deeper(t)).Node?)
  }

  /** What balance does to the tree below a slot. */
  function Balanced<R, V>(t: Tree<R, V>): (r: Tree<R, V>)
    requires t.Node? && (!Even(t) ==> Rotatable(t))
    ensures r.Node?
  {
    if Even(t) then t.(height := Max(Height(t.left), Height(t.right)) + 1) else Rotated(t, Deeper(t))
  }

  lemma Regroup<T>(a: seq<T>, x: seq<T>, b: seq<T>, y: seq<T>, c: seq<T>)
    ensures a + x + (b + y + c) == (a + x + b) + y + c
  {
  }

  lemma Regroup4<T>(a: seq<T>, x: seq<T>, b: seq<T>, z: seq<T>, c: seq<T>, y: seq<T>, d: seq<T>)
    ensures a + x + ((b + z + c) + y + d) == (a + x + b) + z + (c + y + d)
    ensures (a + x + (b + z + c)) + y + d == (a + x + b) + z + (c + y + d)
  {
  }

  lemma Regroup5<T>(a: seq<T>, b: seq<T>, c: seq<T>, d: seq<T>, e: seq<T>)
    ensures a + (b + c + d) + e == (a + b) + c + (d + e)
  {
  }

  /** Rotations keep the order of the entries. */
  lemma RotEntries<R, V>(x: Tree<R, V>, dir: nat)
    requires x.Node? && dir < 2 && Kid(x, dir).Node?
    requires Height(Kid(Kid(x, dir), 1 - dir)) > Height(Kid(Kid(x, dir), dir)) ==> Kid(Kid(x, dir), 1 - dir).Node?
    ensures Entries(Rotated(x, dir)) == Entries(x)
  {
    var y := Kid(x, dir);
    var z := Kid(y, 1 - dir);
    var ex, ey := [Entry(x.key, x.value)], [Entry(y.key, y.value)];
    if Height(z) > Height(Kid(y, dir)) {
      var ez := [Entry(z.key, z.value)];
      if dir == 0 {
        Regroup4(Entries(y.left), ey, Entries(z.left), ez, Entries(z.right), ex, Entries(x.right));
      } else {
        Regroup4(Entries(x.left), ex, Entries(z.left), ez, Entries(z.right), ey, Entries(y.right));
      }
    } else if dir == 0 {
      Regroup(Entries(y.left), ey, Entries(z), ex, Entries(x.right));
    } else {
      Regroup(Entries(x.left), ex, Entries(z), ey, Entries(y.right));
    }
  }

  /** The heart of insertion. Below a node whose stored height was exact before, one child grew
      by one level. Then balance restores balance and exact heights, keeps the entries, and the
      tree's height grows by at most one over the stale stored height, which is how balance
      can report the growth. */
  lemma BalanceStep<R, V>(f: Frame<R, V>, before: Tree<R, V>, sub: Tree<R, V>)
    requires f.dir < 2 && Avl(Fill(f, before)) && Avl(sub) && Height(sub) == Height(before) + 1
    ensures var t := Fill(f, sub);
            && sub.Node? && (!Even(t) ==> Rotatable(t))
            && Avl(Balanced(t)) && Entries(Balanced(t)) == Entries(t)
            && 0 <= Height(Balanced(t)) - f.height <= 1
  {
    hide Entries, Rotated;
    var t := Fill(f, sub);
    NonNegative(before);
    NonNegative(sub);
    if !Even(t) {
      assert Deeper(t) == f.dir && Kid(t, f.dir) == sub && Kid(t, 1 - f.dir) == f.sibling;
      RotAvl(t, f.dir);
      RotEntries(t, f.dir);
    } else {
      EvenStep(t);
    }
  }

  lemma EvenStep<R, V>(t: Tree<R, V>)
    requires t.Node? && Avl(t.left) && Avl(t.right) && Even(t)
    ensures Avl(Balanced(t)) && Entries(Balanced(t)) == Entries(t)
  {
  }

  lemma NonNegative<R, V>(t: Tree<R, V>)
    requires Avl(t)
    ensures Height(t) >= 0 && (Height(t) == 0 <==> t.Leaf?)
  {
  }

  lemma RotAvl<R, V>(x: Tree<R, V>, dir: nat)
    requires x.Node? && dir < 2 && Avl(x.left) && Avl(x.right)
    requires Height(Kid(x, dir)) == Height(Kid(x, 1 - dir)) + 2
    ensures Kid(x, dir).Node?
    ensures Height(Kid(Kid(x, dir), 1 - dir)) > Height(Kid(Kid(x, dir), dir)) ==> Kid(Kid(x, dir), 1 - dir).Node?
    ensures Avl(Rotated(x, dir))
    ensures Height(Kid(x, dir)) <= Height(Rotated(x, dir)) <= Height(Kid(x, dir)) + 1
  {
    var y, a := Kid(x, dir), Kid(x, 1 - dir);
    NonNegative(a);
    NonNegative(y);
    Join(y, dir);
    var z, d := Kid(y, 1 - dir), Kid(y, dir);
    NonNegative(z);
    NonNegative(d);
    hide Avl;
    var hz := Height(z);
    if hz > Height(d) {
      Join(z, dir);
      NonNegative(Kid(z, dir));
      NonNegative(Kid(z, 1 - dir));
      Join(Rebuilt(x, dir, Kid(z, 1 - dir), hz), dir);
      Join(Rebuilt(y, 1 - dir, Kid(z, dir), hz), dir);
    } else {
      Join(Rebuilt(x, dir, z, hz + 1), dir);
    }
    Join(Rotated(x, dir), dir);
  }

  /** Balance of a node in terms of its child in one direction and the other. */
  lemma Join<R, V>(t: Tree<R, V>, dir: nat)
    requires t.Node? && dir < 2
    ensures Avl(t) <==>
              && Avl(Kid(t, dir)) && Avl(Kid(t, 1 - dir))
              && t.height == Max(Height(Kid(t, dir)), Height(Kid(t, 1 - dir))) + 1
              && -1 <= Height(Kid(t, dir)) - Height(Kid(t, 1 - dir)) <= 1
  {
  }

  // ---------------------------------------------------------------------------------------
  // Paths
  // ---------------------------------------------------------------------------------------

  /** Puts a tree back under an ancestor. */
  function Fill<R, V>(f: Frame<R, V>, t: Tree<R, V>): (r: Tree<R, V>)
    ensures r.Node?
  {
    if f.dir == 0 then Node(f.ref, t, f.key, f.value, f.height, f.sibling)
    else Node(f.ref, f.sibling, f.key, f.value, f.height, t)
  }

  /** Puts a tree back under all its ancestors; the last one is the nearest. */
  function Plug<R, V>(path: seq<Frame<R, V>>, t: Tree<R, V>): Tree<R, V> {
    if path == [] then t else Plug(path[..|path| - 1], Fill(path[|path| - 1], t))
  }

  /** What one frame has to the left and to the right of its hole. */
  function LeftOf<R, V>(f: Frame<R, V>): seq<Entry<V>> {
    if f.dir == 0 then [] else Entries(f.sibling) + [Entry(f.key, f.value)]
  }

  function RightOf<R, V>(f: Frame<R, V>): seq<Entry<V>> {
    if f.dir == 0 then [Entry(f.key, f.value)] + Entries(f.sibling) else []
  }

  lemma FillEntries<R, V>(f: Frame<R, V>, t: Tree<R, V>)
    ensures Entries(Fill(f, t)) == LeftOf(f) + Entries(t) + RightOf(f)
  {
    assert Entries(t) + [Entry(f.key, f.value)] + Entries(f.sibling) ==
      Entries(t) + ([Entry(f.key, f.value)] + Entries(f.sibling));
  }

  /** The entries to the left and to the right of the hole of a path. */
  function Before<R, V>(path: seq<Frame<R, V>>): seq<Entry<V>> {
    if path == [] then []
    else
      Before(path[..|path| - 1]) + LeftOf(path[|path| - 1])
  }

  function After<R, V>(path: seq<Frame<R, V>>): seq<Entry<V>> {
    if path == [] then []
    else
      RightOf(path[|path| - 1]) + After(path[..|path| - 1])
  }

  lemma {:induction false} PlugEntries<R, V>(path: seq<Frame<R, V>>, t: Tree<R, V>)
    ensures Entries(Plug(path, t)) == Before(path) + Entries(t) + After(path)
  {
    hide Entries, LeftOf, RightOf, Fill;
    if path != [] {
      var front, f := path[..|path| - 1], path[|path| - 1];
      PlugEntries(front, Fill(f, t));
      FillEntries(f, t);
      Regroup5(Before(front), LeftOf(f), Entries(t), RightOf(f), After(front));
    }
  }

  /** Every subtree of a balanced tree is balanced. */
  lemma {:induction false} PlugAvlInner<R, V>(path: seq<Frame<R, V>>, t: Tree<R, V>)
    requires Avl(Plug(path, t))
    ensures Avl(t)
  {
    if path != [] {
      PlugAvlInner(path[..|path| - 1], Fill(path[|path| - 1], t));
    }
  }

  /** Stopping early is sound: a balanced subtree of the same height fits in without any change
      to the ancestors. */
  lemma {:induction false} StopEarly<R, V>(path: seq<Frame<R, V>>, before: Tree<R, V>, t: Tree<R, V>)
    requires Avl(Plug(path, before)) && Avl(t) && Height(t) == Height(before)
    ensures Avl(Plug(path, t)) && Height(Plug(path, t)) == Height(Plug(path, before))
  {
    if path != [] {
      var f := path[|path| - 1];
      PlugAvlInner(path[..|path| - 1], Fill(f, before));
      StopEarly(path[..|path| - 1], Fill(f, before), Fill(f, t));
    }
  }

  /** A path in a balanced tree is no longer than the tree is high. */
  lemma {:induction false} PathHeight<R, V>(path: seq<Frame<R, V>>, t: Tree<R, V>)
    requires Avl(Plug(path, t))
    ensures |path| + Height(t) <= Height(Plug(path, t))
  {
    if path != [] {
      var f := path[|path| - 1];
      PlugAvlInner(path[..|path| - 1], Fill(f, t));
      PathHeight(path[..|path| - 1], Fill(f, t));
    }
  }

  // ---------------------------------------------------------------------------------------
  // How high a balanced tree can be
  // ---------------------------------------------------------------------------------------

  /** The least number of nodes of a balanced tree of a given height. */
  function MinSize(h: nat): nat {
    if h == 0 then 0 else if h == 1 then 1 else MinSize(h - 1) + MinSize(h - 2) + 1
  }

  lemma {:induction false} SizeBound<R, V>(t: Tree<R, V>)
    requires Avl(t)
    ensures Height(t) >= 0 && Size(t) >= MinSize(Height(t))
  {
    NonNegative(t);
    if t.Node? {
      SizeBound(t.left);
      SizeBound(t.right);
      if t.height >= 2 {
        MinSizeMonotone(Height(t.left), t.height - 2);
        MinSizeMonotone(Height(t.right), t.height - 2);
      }
    }
  }

  lemma {:induction false} MinSizeMonotone(a: nat, b: nat)
    requires b <= a
    ensures MinSize(b) <= MinSize(a)
  {
    if b < a {
      MinSizeMonotone(a - 1, b);
    }
  }

  lemma {:induction false} MinSizeGrowth(h: nat)
    requires h >= 1
    ensures 2 * (MinSize(h + 1) + 1) >= 3 * (MinSize(h) + 1)
  {
    if h >= 3 {
      MinSizeGrowth(h - 1);
      MinSizeGrowth(h - 2);
    }
  }

  /** Three more levels mean at least four times as many nodes. */
  lemma {:induction false} MinSizeExponential(k: nat)
    requires k >= 1
    ensures MinSize(3 * k) >= Pow2(2 * k)
  {
    if k > 1 {
      var h: nat := 3 * (k - 1);
      MinSizeExponential(k - 1);
      MinSizeGrowth(h);
      assert MinSize(h + 3) == MinSize(h + 2) + MinSize(h + 1) + 1;
      assert MinSize(h + 2) == MinSize(h + 1) + MinSize(h) + 1;
      assert Pow2(2 * k) == 4 * Pow2(2 * (k - 1));
    }
  }

  /** On a machine with `2 * k`-bit pointers a balanced tree has fewer than `3 * k` levels, which
      is the size of the ancestor array of treeinsert. */
  lemma HeightBound<R, V>(t: Tree<R, V>, k: nat)
    requires Avl(t) && k >= 1 && Size(t) < Pow2(2 * k)
    ensures Height(t) < 3 * k
  {
    SizeBound(t);
    if Height(t) >= 3 * k {
      MinSizeExponential(k);
      MinSizeMonotone(Height(t), 3 * k);
    }
  }
}
