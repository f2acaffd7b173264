/** The job slots of build() (build.c): an array of slots that grows on demand, whose unused
    slots are linked into a free list through their `next` fields. */
module JobSlots {

  /** A full table doubles, from eight slots on, up to the number of jobs. */
  function GrownSize(had: nat, maxjobs: nat): nat {
    var twice := if had == 0 then 8 else 2 * had;
    if twice < maxjobs then twice else maxjobs
  }

  class JobTable {
    /** The edge each slot runs, the link of the free list, and whether the slot's descriptor
        is open. */
    var edge: seq<nat>
    var next: seq<nat>
    var busy: seq<bool>

    /** The first free slot, or the number of slots if there is none. */
    var head: nat

    /** The free slots in list order. */
    ghost var free: seq<nat>

    ghost predicate Valid()
      reads this
    {
      && |edge| == |next| == |busy|
      && head == Cell(0)
      && (forall i {:trigger free[i]} :: 0 <= i < |free| ==> free[i] < |next| && next[free[i]] == Cell(i + 1))
      && (forall i, k :: 0 <= i < k < |free| ==> free[i] != free[k])
      && (forall k: nat {:trigger busy[k]} :: k < |busy| ==> (busy[k] <==> k !in free))
    }

    /** The `i`-th element of the free list, where the list ends with the number of slots. */
    ghost function Cell(i: nat): nat
      reads this
    {
      if i < |free| then free[i] else |next|
    }

    ghost function Busy(): (r: set<nat>)
      reads this
    {
      BusyCells(busy)
    }

    constructor ()
      ensures Valid() && |edge| == 0 && free == []
    {
      edge, next, busy, head, free := [], [], [], 0, [];
    }

    /** Makes sure that there is a free slot, doubling the array if all are in use. */
    method Grow(maxjobs: nat)
      requires Valid() && |Busy()| < maxjobs && |next| <= maxjobs
      modifies this
      ensures Valid() && head < |next| <= maxjobs
      ensures |next| == if old(head) < old(|next|) then old(|next|) else GrownSize(old(|next|), maxjobs)
      ensures Busy() == old(Busy())
      ensures old(edge) <= edge
    {
      EveryCell(busy, free);
      if head == |next| {
        var len := if |next| != 0 then |next| * 2 else 8;
        if len > maxjobs {
          len := maxjobs;
        }
        var first := |next|;
        var links, edges, flags := Extended(len);
        ghost var cells := seq(len - first, k requires 0 <= k => first + k);
        AllBusy(busy, free, next, head);
        FreshCells(first, len, cells);
        GrownCells(busy, flags, links, first, len, cells);
        next, edge, busy := links, edges, flags;
        free := cells;
      }
    }

    /** The arrays with `len` slots, each new one linked to the one after it. */
    method Extended(len: nat) returns (links: seq<nat>, edges: seq<nat>, flags: seq<bool>)
      requires |edge| == |next| == |busy| <= len
      ensures |links| == |edges| == |flags| == len && edge <= edges && next <= links
      ensures forall k {:trigger flags[k]} :: 0 <= k < len ==> flags[k] == (k < |next| && busy[k])
      ensures forall k {:trigger links[k]} :: |next| <= k < len ==> links[k] == k + 1
    {
      var i := |next|;
      links, edges, flags := next, edge, busy;
      while i < len
        invariant |next| <= i <= len && |links| == |edges| == |flags| == i
        invariant edge <= edges && next <= links
        invariant forall k {:trigger flags[k]} :: 0 <= k < i ==> flags[k] == (k < |next| && busy[k])
        invariant forall k {:trigger links[k]} :: |next| <= k < i ==> links[k] == k + 1
      {
        links, edges, flags := links + [i + 1], edges + [0], flags + [false];
        i := i + 1;
      }
    }

    /** Gives the first free slot to the job of edge `e`. */
    method Take(e: nat) returns (slot: nat)
      requires Valid() && head < |next|
      modifies this
      ensures Valid() && |next| == old(|next|)
      ensures slot < |edge| && edge == old(edge)[slot := e]
      ensures slot !in old(Busy()) && Busy() == old(Busy()) + {slot}
    {
      slot := head;
      assert free != [] && free[0] == slot;
      ghost var rest := free[1..];
      FirstTaken(free, slot);
      TakenCells(busy, slot);
      edge := edge[slot := e];
      busy := busy[slot := true];
      head := next[slot];
      free := rest;
    }

    /** Returns a slot to the front of the free list. */
    method Release(slot: nat)
      requires Valid() && slot in Busy()
      modifies this
      ensures Valid() && |next| == old(|next|) && edge == old(edge)
      ensures Busy() == old(Busy()) - {slot}
    {
      next := next[slot := head];
      busy := busy[slot := false];
      head := slot;
      free := [slot] + free;
    }
  }

  lemma TakenCells(busy: seq<bool>, slot: nat)
    requires slot < |busy|
    ensures BusyCells(busy[slot := true]) == BusyCells(busy) + {slot}
  {
  }

  lemma FirstTaken(free: seq<nat>, slot: nat)
    requires free != [] && free[0] == slot
    requires forall i, k :: 0 <= i < k < |free| ==> free[i] != free[k]
    ensures forall k: nat :: k in free[1..] <==> k in free && k != slot
  {
    assert free == [free[0]] + free[1..];
  }

  ghost function BusyCells(busy: seq<bool>): set<nat> {
    set k: nat | k < |busy| && busy[k]
  }

  /** Every slot is either busy or in the free list. */
  lemma EveryCell(busy: seq<bool>, free: seq<nat>)
    requires forall i :: 0 <= i < |free| ==> free[i] < |busy|
    requires forall i, k :: 0 <= i < k < |free| ==> free[i] != free[k]
    requires forall k: nat {:trigger busy[k]} :: k < |busy| ==> (busy[k] <==> k !in free)
    ensures |BusyCells(busy)| + |free| == |busy|
  {
    assert Elements(free) !! BusyCells(busy);
    assert Elements(free) + BusyCells(busy) == Below(|busy|);
  }

  ghost function Below(n: nat): (r: set<nat>)
    ensures |r| == n
    ensures forall k: nat :: k in r <==> k < n
  {
    if n == 0 then {} else Below(n - 1) + {n - 1}
  }

  ghost function Elements(q: seq<nat>): (r: set<nat>)
    ensures forall x :: x in r <==> x in q
    ensures (forall i, k :: 0 <= i < k < |q| ==> q[i] != q[k]) ==> |r| == |q|
  {
    if q == [] then {} else
      assert q == q[..|q| - 1] + [q[|q| - 1]];
      Elements(q[..|q| - 1]) + {q[|q| - 1]}
  }

  /** The list ends at once exactly if every slot is busy. */
  lemma AllBusy(busy: seq<bool>, free: seq<nat>, next: seq<nat>, head: nat)
    requires |busy| == |next| == head && head == (if 0 < |free| then free[0] else |next|)
    requires forall i {:trigger free[i]} :: 0 <= i < |free| ==> free[i] < |next|
    requires forall k: nat {:trigger busy[k]} :: k < |busy| ==> (busy[k] <==> k !in free)
    ensures free == [] && forall k: nat {:trigger busy[k]} :: k < |busy| ==> busy[k]
  {
  }

  /** The new slots make up the new list. */
  lemma GrownCells(busy: seq<bool>, flags: seq<bool>, links: seq<nat>, first: nat, len: nat, cells: seq<nat>)
    requires |busy| == first <= len == |flags| == |links| && |cells| == len - first
    requires forall k: nat {:trigger busy[k]} :: k < |busy| ==> busy[k]
    requires forall k {:trigger flags[k]} :: 0 <= k < len ==> flags[k] == (k < first && busy[k])
    requires forall k {:trigger links[k]} :: first <= k < len ==> links[k] == k + 1
    requires forall k {:trigger cells[k]} :: 0 <= k < |cells| ==> cells[k] == first + k
    requires forall k: nat :: k in cells <==> first <= k < len
    ensures BusyCells(flags) == BusyCells(busy)
    ensures forall i {:trigger cells[i]} :: 0 <= i < |cells| ==>
      links[cells[i]] == if i + 1 < |cells| then cells[i + 1] else len
    ensures forall k: nat {:trigger flags[k]} :: k < len ==> (flags[k] <==> k !in cells)
  {
  }

  lemma FreshCells(first: nat, len: nat, free: seq<nat>)
    requires first <= len && |free| == len - first
    requires forall k :: 0 <= k < |free| ==> free[k] == first + k
    ensures forall k: nat :: k in free <==> first <= k < len
  {
    forall k: nat | first <= k < len ensures k in free {
      assert free[k - first] == k;
    }
  }
}
