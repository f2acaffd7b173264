/** The ring of context lines (context.c): which lines around the matching ones are listed. */
module Context {
  import opened Division

  /** A line's `show` byte: 0, '-' or ':'. */
  datatype Mark = Hidden | Near | Match

  /** One call of the list function: the line, whether it matches, and whether a separator goes
      before it. */
  datatype Item = Item(line: nat, matched: bool, separator: bool)

  // ---------------------------------------------------------------------------------------
  // What is to be listed
  // ---------------------------------------------------------------------------------------

  /** Line `l` is at most `before` lines before or `after` lines after a match; `m[i]` tells whether
      line `i + 1` matches. */
  predicate Selected(m: seq<bool>, before: nat, after: nat, l: int) {
    exists i {:trigger m[i]} :: 0 <= i < |m| && m[i] && l - after <= i + 1 <= l + before
  }

  /** The last of the first `n` lines that is selected, or 0. */
  function Last(m: seq<bool>, before: nat, after: nat, n: nat): (l: nat)
    ensures l <= n && (l > 0 ==> Selected(m, before, after, l))
    ensures forall j :: l < j <= n ==> !Selected(m, before, after, j)
  {
    if n == 0 || Selected(m, before, after, n) then n else Last(m, before, after, n - 1)
  }

  /** The listing of the first `n` lines: each selected line once, in order, with a separator at
      every gap. */
  function Listing(m: seq<bool>, before: nat, after: nat, n: nat): seq<Item> {
    if n == 0 then []
    else
      var front := Listing(m, before, after, n - 1);
      var last := Last(m, before, after, n - 1);
      if Selected(m, before, after, n) then front + [Item(n, n <= |m| && m[n - 1], last != 0 && last + 1 != n)]
      else front
  }

  /** A line that does not match selects nothing. */
  lemma NoMatchSelects(m: seq<bool>, before: nat, after: nat, l: int)
    ensures Selected(m + [false], before, after, l) <==> Selected(m, before, after, l)
  {
    var m' := m + [false];
    if Selected(m, before, after, l) {
      var i :| 0 <= i < |m| && m[i] && l - after <= i + 1 <= l + before;
      assert m'[i];
    }
  }

  /** A match selects what was selected before, and the lines around it. */
  lemma MatchSelects(m: seq<bool>, before: nat, after: nat, l: int)
    requires m != []
    ensures var n := |m|; Selected(m[n - 1 := true], before, after, l) <==>
      Selected(m, before, after, l) || l - after <= n <= l + before
  {
    var m' := m[|m| - 1 := true];
    if Selected(m, before, after, l) {
      var i :| 0 <= i < |m| && m[i] && l - after <= i + 1 <= l + before;
      assert m'[i];
    }
    if l - after <= |m| <= l + before {
      assert m'[|m| - 1];
    }
    if Selected(m', before, after, l) && !(l - after <= |m| <= l + before) {
      var i :| 0 <= i < |m'| && m'[i] && l - after <= i + 1 <= l + before;
      assert m[i];
    }
  }

  /** There is no gap in the last `before` lines before the last selected one. */
  lemma NoGap(m: seq<bool>, before: nat, after: nat, n: nat, l: nat)
    requires 1 <= l && |m| <= l + before
    ensures l <= Last(m, before, after, n) ==> Selected(m, before, after, l)
  {
    var last := Last(m, before, after, n);
    if l <= last {
      var i :| 0 <= i < |m| && m[i] && last - after <= i + 1 <= last + before;
      assert m[i] && l - after <= i + 1 <= l + before;
    }
  }

  /** Listings agree up to where selections and matches do. */
  lemma {:induction false} SameListing(m: seq<bool>, m': seq<bool>, before: nat, after: nat, n: nat)
    requires forall l {:trigger Selected(m, before, after, l)} {:trigger Selected(m', before, after, l)} ::
      1 <= l <= n ==> (Selected(m, before, after, l) <==> Selected(m', before, after, l))
    requires n <= |m| == |m'| || n <= |m| < |m'|
    requires forall i {:trigger m[i]} {:trigger m'[i]} :: 0 <= i < n ==> m[i] == m'[i]
    ensures Listing(m, before, after, n) == Listing(m', before, after, n)
    ensures Last(m, before, after, n) == Last(m', before, after, n)
  {
    hide Selected;
    if n > 0 {
      SameListing(m, m', before, after, n - 1);
    }
  }

  /** Nothing is listed after the last selected line. */
  lemma {:induction false} NothingAfterLast(m: seq<bool>, before: nat, after: nat, k: nat, n: nat)
    requires Last(m, before, after, n) <= k <= n
    ensures Listing(m, before, after, n) == Listing(m, before, after, k)
    ensures Last(m, before, after, n) == Last(m, before, after, k)
    decreases n
  {
    hide Selected;
    if k < n {
      NothingAfterLast(m, before, after, k, n - 1);
    }
  }

  ghost predicate Has(items: seq<Item>, l: nat) {
    exists k :: 0 <= k < |items| && items[k].line == l
  }

  /** Item `k` is a selected line, marked as matching iff it matches; it comes after the item before
      it, and a separator is between the two iff there is a gap. */
  ghost predicate Right(m: seq<bool>, before: nat, after: nat, n: nat, items: seq<Item>, k: nat)
    requires k < |items|
  {
    && 1 <= items[k].line <= n && Selected(m, before, after, items[k].line)
    && items[k].matched == (items[k].line <= |m| && m[items[k].line - 1])
    && (k > 0 ==> items[k - 1].line < items[k].line)
    && items[k].separator == (k > 0 && items[k - 1].line + 1 != items[k].line)
  }

  /** What a listing says: all the selected lines, and only those, once each and in order. */
  ghost predicate Lists(m: seq<bool>, before: nat, after: nat, n: nat, items: seq<Item>) {
    && (forall k {:trigger Right(m, before, after, n, items, k)} :: 0 <= k < |items| ==>
      Right(m, before, after, n, items, k))
    && (forall l: nat {:trigger Has(items, l)} :: 1 <= l <= n && Selected(m, before, after, l) ==> Has(items, l))
  }

  lemma {:induction false} Increasing(m: seq<bool>, before: nat, after: nat, n: nat, items: seq<Item>, j: nat, k: nat)
    requires Lists(m, before, after, n, items) && j < k < |items|
    ensures items[j].line < items[k].line
    decreases k
  {
    hide Selected;
    assert Right(m, before, after, n, items, k);
    if j < k - 1 {
      Increasing(m, before, after, n, items, j, k - 1);
    }
  }

  lemma ListsOneMore(m: seq<bool>, before: nat, after: nat, n: nat, front: seq<Item>, item: Item)
    requires Lists(m, before, after, n, front) && Selected(m, before, after, n + 1)
    requires item.line == n + 1 && item.matched == (n < |m| && m[n])
    requires item.separator == (front != [] && front[|front| - 1].line != n)
    ensures Lists(m, before, after, n + 1, front + [item])
  {
    hide Selected;
    var items, n' := front + [item], n + 1;
    forall k | 0 <= k < |items| ensures Right(m, before, after, n', items, k) {
      if k < |front| {
        assert Right(m, before, after, n, front, k);
      } else if k > 0 {
        assert Right(m, before, after, n, front, k - 1);
      }
    }
    forall l: nat | 1 <= l <= n + 1 && Selected(m, before, after, l) ensures Has(items, l) {
      if l == n + 1 {
        assert items[|front|].line == l;
      } else {
        assert Has(front, l);
        var k :| 0 <= k < |front| && front[k].line == l;
        assert items[k].line == l;
      }
    }
  }

  lemma ListsNoMore(m: seq<bool>, before: nat, after: nat, n: nat, items: seq<Item>)
    requires !Selected(m, before, after, n + 1)
    ensures Lists(m, before, after, n, items) <==> Lists(m, before, after, n + 1, items)
  {
    hide Selected;
    var n' := n + 1;
    if Lists(m, before, after, n, items) {
      forall k | 0 <= k < |items| ensures Right(m, before, after, n', items, k) {
        assert Right(m, before, after, n, items, k);
      }
    }
    if Lists(m, before, after, n', items) {
      forall k | 0 <= k < |items| ensures Right(m, before, after, n, items, k) {
        assert Right(m, before, after, n', items, k);
      }
    }
  }

  lemma ListsOneLess(m: seq<bool>, before: nat, after: nat, n: nat, items: seq<Item>)
    requires Lists(m, before, after, n + 1, items) && Selected(m, before, after, n + 1)
    ensures items != [] && items[|items| - 1].line == n + 1
    ensures Lists(m, before, after, n, items[..|items| - 1])
  {
    hide Selected;
    assert Has(items, n + 1);
    var k' :| 0 <= k' < |items| && items[k'].line == n + 1;
    var front := items[..|items| - 1];
    assert Right(m, before, after, n + 1, items, |front|);
    if k' < |front| {
      Increasing(m, before, after, n + 1, items, k', |front|);
      assert false;
    }
    forall k | 0 <= k < |front| ensures Right(m, before, after, n, front, k) {
      assert Right(m, before, after, n + 1, items, k);
      Increasing(m, before, after, n + 1, items, k, |front|);
    }
    forall l: nat | 1 <= l <= n && Selected(m, before, after, l) ensures Has(front, l) {
      assert Has(items, l);
      var k :| 0 <= k < |items| && items[k].line == l;
      assert front[k].line == l;
    }
  }

  /** The listing is a listing. */
  lemma {:induction false} ListingMeans(m: seq<bool>, before: nat, after: nat, n: nat)
    ensures Lists(m, before, after, n, Listing(m, before, after, n))
    ensures var items := Listing(m, before, after, n);
      Last(m, before, after, n) == if items == [] then 0 else items[|items| - 1].line
  {
    hide Selected;
    if n > 0 {
      ListingMeans(m, before, after, n - 1);
      var items := Listing(m, before, after, n);
      if Selected(m, before, after, n) {
        assert items[|items| - 1].line == n;
        assert Last(m, before, after, n) == n;
        var front := Listing(m, before, after, n - 1);
        if front != [] {
          assert Right(m, before, after, n - 1, front, |front| - 1);
        }
        ListsOneMore(m, before, after, n - 1, front, items[|items| - 1]);
      } else {
        ListsNoMore(m, before, after, n - 1, items);
      }
    }
  }

  /** Nothing else lists the selected lines. */
  lemma {:induction false} OnlyListing(m: seq<bool>, before: nat, after: nat, n: nat, items: seq<Item>)
    requires Lists(m, before, after, n, items)
    ensures items == Listing(m, before, after, n)
  {
    hide Selected;
    if n == 0 {
      if items != [] {
        var right := Right(m, before, after, n, items, 0);
        assert false;
      }
    } else if Selected(m, before, after, n) {
      ListsOneLess(m, before, after, n - 1, items);
      var k := |items| - 1;
      OnlyListing(m, before, after, n - 1, items[..k]);
      ListingMeans(m, before, after, n - 1);
      assert Right(m, before, after, n, items, k);
      var last := Last(m, before, after, n - 1);
      if k > 0 {
        assert Right(m, before, after, n, items, k - 1);
      }
      assert items[k] == Item(n, n <= |m| && m[n - 1], last != 0 && last + 1 != n);
      assert items == items[..k] + [items[k]];
    } else {
      ListsNoMore(m, before, after, n - 1, items);
      OnlyListing(m, before, after, n - 1, items);
    }
  }

  // ---------------------------------------------------------------------------------------
  // The ring
  // ---------------------------------------------------------------------------------------

  /** The slot of line `l`, which may be a line before the first. */
  function Slot(l: int, total: nat): (s: nat)
    requires total > 0 && l + total > 0
    ensures s < total
  {
    (l - 1 + total) % total
  }

  lemma NextSlot(l: int, total: nat)
    requires total > 0 && l + total > 0
    ensures Slot(l + 1, total) == if Slot(l, total) + 1 >= total then 0 else Slot(l, total) + 1
  {
    var n := l - 1 + total;
    var q, r := n / total, n % total;
    if r + 1 < total {
      Remainder(n + 1, total, q, r + 1);
    } else {
      Remainder(n + 1, total, q + 1, 0);
    }
  }

  /** Lines that are less than a whole turn apart have different slots. */
  lemma OwnSlot(l: int, k: int, total: nat)
    requires total > 0 && l + total > 0 && l < k < l + total
    ensures Slot(l, total) != Slot(k, total)
  {
    var n, d := l - 1 + total, k - l;
    var q, r := n / total, n % total;
    if r + d < total {
      Remainder(n + d, total, q, r + d);
    } else {
      Remainder(n + d, total, q + 1, r + d - total);
    }
  }

  lemma SlotAgain(l: int, total: nat)
    requires total > 0 && l + total > 0
    ensures Slot(l + total, total) == Slot(l, total)
  {
    var n := l - 1 + total;
    Remainder(n + total, total, n / total + 1, n % total);
  }

  /** The slot `d` places after that of line `l`, the way the code finds it. */
  lemma LaterSlot(l: int, d: nat, total: nat)
    requires total > 0 && l + total > 0 && d < total
    ensures Slot(l + d, total) == if Slot(l, total) + d >= total then Slot(l, total) + d - total else Slot(l, total) + d
  {
    var n := l - 1 + total;
    var q, r := n / total, n % total;
    if r + d < total {
      Remainder(n + d, total, q, r + d);
    } else {
      Remainder(n + d, total, q + 1, r + d - total);
    }
  }

  /** With lines before a match in the listing, a line read after the listed ones leaves no gap. */
  lemma NoGapAfter(m: seq<bool>, before: nat, after: nat)
    requires m != [] && before > 0 && Selected(m, before, after, |m|)
    ensures var last := Last(m, before, after, |m| - 1); last == 0 || last + 1 == |m|
  {
    var n := |m|;
    var i :| 0 <= i < n && m[i] && n - after <= i + 1 <= n + before;
    assert m[i] && n - 1 - after <= i + 1 <= n - 1 + before;
    assert Selected(m, before, after, n - 1);
  }

  /** What `show` says of line `k`, when line `|m|` is the current one. */
  predicate Fits(mark: Mark, m: seq<bool>, before: nat, after: nat, k: int) {
    && (mark == Hidden <==> k <= 0 || !Selected(m, before, after, k))
    && (k >= |m| ==> (mark == Match <==> 0 < k == |m| && m[k - 1]))
  }

  /** The slots of the lines around the current one. */
  ghost predicate Window(lines: seq<nat>, shows: seq<Mark>, m: seq<bool>, before: nat, after: nat) {
    var total := before + after + 1;
    && |lines| == |shows| == total
    && (forall k {:trigger Slot(k, total)} :: |m| - before <= k <= |m| ==>
          lines[Slot(k, total)] == if k <= 0 then 0 else k)
    && (forall k {:trigger Slot(k, total)} :: |m| - before <= k <= |m| + after ==>
          Fits(shows[Slot(k, total)], m, before, after, k))
  }

  lemma EmptyWindow(lines: seq<nat>, shows: seq<Mark>, before: nat, after: nat)
    requires |lines| == |shows| == before + after + 1
    requires forall i :: 0 <= i < |lines| ==> lines[i] == 0 && shows[i] == Hidden
    ensures Window(lines, shows, [], before, after)
    ensures Slot(0, before + after + 1) == before + after && Listing([], before, after, 0) == []
  {
    hide Slot;
    assert Slot(0, before + after + 1) == before + after by {
      StartSlot(before, after);
    }
  }

  lemma StartSlot(before: nat, after: nat)
    ensures Slot(0, before + after + 1) == before + after
  {
    Remainder(before + after, before + after + 1, 0, before + after);
  }

  /** The next line, which matches nothing as yet, takes the slot of the oldest one. */
  lemma NextWindow(lines: seq<nat>, shows: seq<Mark>, m: seq<bool>, before: nat, after: nat)
    requires Window(lines, shows, m, before, after)
    ensures var n, total := |m| + 1, before + after + 1;
      Window(lines[Slot(n, total) := n], shows[Slot(n + after, total) := Hidden], m + [false], before, after)
  {
    hide Selected, Slot;
    var n, total, m' := |m| + 1, before + after + 1, m + [false];
    var lines' := lines[Slot(n, total) := n];
    var shows' := shows[Slot(n + after, total) := Hidden];
    forall k {:trigger Slot(k, total)} | n - before <= k <= n
      ensures lines'[Slot(k, total)] == if k <= 0 then 0 else k {
      if k < n {
        OwnSlot(k, n, total);
      }
    }
    forall k {:trigger Slot(k, total)} | n - before <= k <= n + after
      ensures Fits(shows'[Slot(k, total)], m', before, after, k) {
      NoMatchSelects(m, before, after, k);
      if k < n + after {
        OwnSlot(k, n + after, total);
      } else {
        NotYetSelected(m, before, after, k);
      }
    }
  }

  lemma NotYetSelected(m: seq<bool>, before: nat, after: nat, k: int)
    requires k > |m| + after
    ensures !Selected(m, before, after, k)
  {
  }

  /** The context of a file that is being searched. `listed` records the calls of the list function,
      and `more` stands for the reads: whether there is a next line. */
  class Ring {
    const before: nat
    const after: nat
    const total: nat
    const show: array<Mark>
    const line: array<nat>
    var curline: nat
    var lineno: nat
    var next: nat
    var listed: seq<Item>

    /** Whether the lines match, as far as that has been told. */
    ghost var matches: seq<bool>

    ghost predicate Valid()
      reads this, show, line
    {
      && show.Length == line.Length == total == before + after + 1
      && lineno == |matches| && curline == Slot(lineno, total)
      && Window(line[..], show[..], matches, before, after)
      && (lineno == 0 ==> next == 0)
      && (lineno > 0 && !(before > 0 && matches[lineno - 1]) ==>
            next == var last := Last(matches, before, after, lineno - 1); if last == 0 then 0 else last + 1)
      && listed == Listing(matches, before, after, if lineno == 0 then 0 else lineno - 1)
    }

    constructor (before: nat, after: nat)
      ensures Valid() && fresh(show) && fresh(line)
      ensures this.before == before && this.after == after && matches == []
    {
      hide Selected, Slot, Last, Listing, Window;
      this.before, this.after, total := before, after, before + after + 1;
      show := new Mark[before + after + 1](i => Hidden);
      line := new nat[before + after + 1](i => 0);
      curline := before + after;
      lineno, next, listed, matches := 0, 0, [], [];
      new;
      EmptyWindow(line[..], show[..], before, after);
    }

    /** Lists the current line if it is to be shown, and goes to the next one. */
    method Line(more: bool) returns (ok: bool)
      requires Valid()
      modifies this, show, line
      ensures ok == more
      ensures ok ==> Valid() && matches == old(matches) + [false]
      ensures listed == Listing(old(matches), before, after, |old(matches)|)
    {
      hide Selected, Slot, Last, Listing, Window;
      ghost var m := matches;
      Emit();
      NextSlot(lineno, total);
      curline := if curline + 1 >= total then 0 else curline + 1;
      LaterSlot(lineno + 1, after, total);
      var n := curline + after;
      if n >= total {
        n := n - total;
      }
      NextWindow(line[..], show[..], m, before, after);
      show[n] := Hidden;
      if !more {
        return false;
      }
      lineno := lineno + 1;
      line[curline] := lineno;
      matches := matches + [false];
      ListingKept(m, before, after);
      return true;
    }

    /** Lists the current line if it is to be shown. */
    method Emit()
      requires Valid()
      modifies `listed, `next
      ensures listed == Listing(matches, before, after, |matches|)
      ensures next == var last := Last(matches, before, after, |matches|); if last == 0 then 0 else last + 1
    {
      hide Selected, Slot, Last, Listing, Window, Fits;
      CurrentLine(line[..], show[..], matches, before, after);
      ListCurrent(matches, before, after);
      if show[curline] != Hidden {
        listed := listed + [Item(line[curline], show[curline] == Match,
          if before > 0 then false else line[curline] != next && next != 0)];
        next := line[curline] + 1;
      }
    }

    /** The current line matches: the lines before it are listed, and the lines after it will be. */
    method Show()
      requires Valid() && lineno > 0
      modifies this, show
      ensures Valid() && lineno == old(lineno) && matches == old(matches)[lineno - 1 := true]
    {
      hide Selected, Slot, Last, Listing, Window, Painted, Fits;
      ghost var m, n := matches, lineno;
      ghost var m' := m[n - 1 := true];
      ghost var last := Last(m, before, after, n - 1);
      var j := curline;
      var i := 0;
      PaintNothing(line[..], show[..], m, before, after);
      while i < after
        invariant i <= after && j == Slot(n + i, total)
        invariant listed == old(listed) && next == old(next) && curline == old(curline) && lineno == n && matches == m
        invariant Painted(line[..], show[..], m, before, after, n - before, n + i)
      {
        NextSlot(n + i, total);
        PaintAfter(line[..], show[..], m, before, after, n - before, n + i);
        j := if j + 1 >= total then 0 else j + 1;
        show[j] := Near;
        i := i + 1;
      }
      i := 0;
      ListStart(m, before, after);
      SlotAgain(n - before - 1, total);
      while i < before
        invariant i <= before && next == old(next) && curline == old(curline) && lineno == n && matches == m
        invariant Painted(line[..], show[..], m, before, after, n - before + i, n + after)
        invariant j == Slot(n - before + i - 1, total)
        invariant listed == Listing(m', before, after, Done(n - before + i - 1, last))
      {
        ghost var k := n - before + i;
        NextSlot(k - 1, total);
        PaintBefore(line[..], show[..], m, before, after, k, n + after);
        if k >= 1 {
          ListBefore(m, before, after, k);
        }
        j := if j + 1 >= total then 0 else j + 1;
        if show[j] == Hidden && line[j] != 0 {
          show[j] := Near;
          listed := listed + [Item(line[j], false, i == 0 && line[j] != next && next != 0)];
        }
        i := i + 1;
      }
      PaintCurrent(line[..], show[..], m, before, after);
      if before == 0 {
        SameLast(m, after);
      }
      show[curline] := Match;
      matches := m';
    }
  }

  /** The last of the lines up to `k` and up to `last`. */
  function Done(k: int, last: nat): nat {
    if k > last then k else last
  }

  /** The window while it is told of a match: the lines before `lo` and those after the current one
      up to `hi` are done. */
  ghost predicate Painted(lines: seq<nat>, shows: seq<Mark>, m: seq<bool>, before: nat, after: nat, lo: int, hi: int)
    requires m != []
  {
    var n, total, m' := |m|, before + after + 1, m[|m| - 1 := true];
    && |lines| == |shows| == total
    && (forall k {:trigger Slot(k, total)} :: n - before <= k <= n ==> lines[Slot(k, total)] == if k <= 0 then 0 else k)
    && (forall k {:trigger Slot(k, total)} :: n - before <= k <= n + after ==>
          Fits(shows[Slot(k, total)], if k < lo || n < k <= hi then m' else m, before, after, k))
  }

  lemma PaintNothing(lines: seq<nat>, shows: seq<Mark>, m: seq<bool>, before: nat, after: nat)
    requires m != [] && Window(lines, shows, m, before, after)
    ensures Painted(lines, shows, m, before, after, |m| - before, |m|)
  {
    hide Selected, Slot, Fits;
  }

  lemma PaintAfter(lines: seq<nat>, shows: seq<Mark>, m: seq<bool>, before: nat, after: nat, lo: int, hi: int)
    requires m != [] && |m| <= hi < |m| + after && lo <= |m| && Painted(lines, shows, m, before, after, lo, hi)
    ensures Painted(lines, shows[Slot(hi + 1, before + after + 1) := Near], m, before, after, lo, hi + 1)
  {
    hide Selected, Slot;
    var total := before + after + 1;
    var shows' := shows[Slot(hi + 1, total) := Near];
    MatchSelects(m, before, after, hi + 1);
    forall k {:trigger Slot(k, total)} | |m| - before <= k <= |m| + after
      ensures Fits(shows'[Slot(k, total)], if k < lo || |m| < k <= hi + 1 then m[|m| - 1 := true] else m, before,
        after, k)
    {
      if k < hi + 1 {
        OwnSlot(k, hi + 1, total);
      } else if k > hi + 1 {
        OwnSlot(hi + 1, k, total);
      }
    }
  }

  lemma PaintBefore(lines: seq<nat>, shows: seq<Mark>, m: seq<bool>, before: nat, after: nat, lo: int, hi: int)
    requires m != [] && |m| - before <= lo < |m| && Painted(lines, shows, m, before, after, lo, hi)
    ensures var s := Slot(lo, before + after + 1);
      && lines[s] == (if lo <= 0 then 0 else lo)
      && (shows[s] == Hidden <==> lo <= 0 || !Selected(m, before, after, lo))
      && Painted(lines, if shows[s] == Hidden && lo > 0 then shows[s := Near] else shows, m, before, after, lo + 1, hi)
  {
    hide Selected, Slot;
    var total := before + after + 1;
    var s := Slot(lo, total);
    var shows' := if shows[s] == Hidden && lo > 0 then shows[s := Near] else shows;
    MatchSelects(m, before, after, lo);
    forall k {:trigger Slot(k, total)} | |m| - before <= k <= |m| + after
      ensures Fits(shows'[Slot(k, total)], if k < lo + 1 || |m| < k <= hi then m[|m| - 1 := true] else m, before,
        after, k)
    {
      if k < lo {
        OwnSlot(k, lo, total);
      } else if k > lo {
        OwnSlot(lo, k, total);
      }
    }
  }

  lemma PaintCurrent(lines: seq<nat>, shows: seq<Mark>, m: seq<bool>, before: nat, after: nat)
    requires m != [] && Painted(lines, shows, m, before, after, |m|, |m| + after)
    ensures Window(lines, shows[Slot(|m|, before + after + 1) := Match], m[|m| - 1 := true], before, after)
  {
    hide Selected, Slot;
    var n, total := |m|, before + after + 1;
    var m' := m[n - 1 := true];
    var shows' := shows[Slot(n, total) := Match];
    MatchSelects(m, before, after, n);
    forall k {:trigger Slot(k, total)} | n - before <= k <= n + after
      ensures Fits(shows'[Slot(k, total)], m', before, after, k)
    {
      if k < n {
        OwnSlot(k, n, total);
      } else if k > n {
        OwnSlot(n, k, total);
      }
    }
  }

  /** The lines that were listed before the match are listed after it, too. */
  lemma ListStart(m: seq<bool>, before: nat, after: nat)
    requires m != []
    ensures var n, m', last := |m|, m[|m| - 1 := true], Last(m, before, after, |m| - 1);
      && Listing(m, before, after, n - 1) == Listing(m', before, after, Done(n - before - 1, last))
      && Last(m', before, after, Done(n - before - 1, last)) == last
  {
    hide Selected, Last, Listing;
    var n, m', last := |m|, m[|m| - 1 := true], Last(m, before, after, |m| - 1);
    var k := Done(n - before - 1, last);
    NothingAfterLast(m, before, after, k, n - 1);
    forall l {:trigger Selected(m, before, after, l)} {:trigger Selected(m', before, after, l)} | 1 <= l <= k
      ensures Selected(m, before, after, l) <==> Selected(m', before, after, l)
    {
      MatchSelects(m, before, after, l);
      if l >= n - before {
        NoGap(m, before, after, n - 1, l);
      }
    }
    SameListing(m, m', before, after, k);
  }

  /** A line that is not far before the match has been listed, or it is the next one to be. */
  lemma ListBefore(m: seq<bool>, before: nat, after: nat, k: nat)
    requires 1 <= k && |m| - before <= k < |m|
    ensures var n, m', last := |m|, m[|m| - 1 := true], Last(m, before, after, |m| - 1);
      if Selected(m, before, after, k) then k <= last else
      last < k && !m[n - 1] && Listing(m', before, after, k) == Listing(m', before, after, k - 1) +
        [Item(k, false, k == n - before && last != 0 && last + 1 != k)]
  {
    hide Last, Listing;
    var n, m', last := |m|, m[|m| - 1 := true], Last(m, before, after, |m| - 1);
    if Selected(m, before, after, k) {
      LastAtLeast(m, before, after, n - 1, k);
    } else {
      NoGap(m, before, after, n - 1, k);
      MatchSelects(m, before, after, k);
      ListNext(m', before, after, k);
      if k == n - before {
        ListStart(m, before, after);
      } else if k > 1 {
        MatchSelects(m, before, after, k - 1);
        LastAtLeast(m', before, after, k - 1, k - 1);
      }
    }
  }

  lemma LastAtLeast(m: seq<bool>, before: nat, after: nat, n: nat, k: nat)
    requires 1 <= k <= n && Selected(m, before, after, k)
    ensures k <= Last(m, before, after, n)
  {
  }

  lemma ListNext(m: seq<bool>, before: nat, after: nat, n: nat)
    requires n > 0 && Selected(m, before, after, n)
    ensures var last := Last(m, before, after, n - 1);
      Listing(m, before, after, n) == Listing(m, before, after, n - 1)
        + [Item(n, n <= |m| && m[n - 1], last != 0 && last + 1 != n)]
  {
  }

  lemma SameLast(m: seq<bool>, after: nat)
    requires m != []
    ensures Last(m[|m| - 1 := true], 0, after, |m| - 1) == Last(m, 0, after, |m| - 1)
  {
    ListStart(m, 0, after);
  }

  lemma CurrentLine(lines: seq<nat>, shows: seq<Mark>, m: seq<bool>, before: nat, after: nat)
    requires Window(lines, shows, m, before, after)
    ensures var s := Slot(|m|, before + after + 1);
      && s < |lines| == |shows| && lines[s] == |m|
      && (shows[s] == Hidden <==> m == [] || !Selected(m, before, after, |m|))
      && (shows[s] == Match <==> m != [] && m[|m| - 1])
  {
    hide Selected, Slot;
  }

  /** The listing up to the current line. */
  lemma ListCurrent(m: seq<bool>, before: nat, after: nat)
    ensures m != [] ==> var n, last := |m|, Last(m, before, after, |m| - 1);
      && Last(m, before, after, n) == (if Selected(m, before, after, n) then n else last)
      && Listing(m, before, after, n) == Listing(m, before, after, n - 1) +
        (if Selected(m, before, after, n) then [Item(n, m[n - 1], before == 0 && last != 0 && last + 1 != n)] else [])
  {
    if m != [] && before > 0 && Selected(m, before, after, |m|) {
      hide Selected, Last, Listing;
      NoGapAfter(m, before, after);
    }
  }

  /** A next line that matches nothing as yet leaves the listing as it was. */
  lemma ListingKept(m: seq<bool>, before: nat, after: nat)
    ensures Listing(m + [false], before, after, |m|) == Listing(m, before, after, |m|)
    ensures Last(m + [false], before, after, |m|) == Last(m, before, after, |m|)
  {
    hide Selected, Last, Listing;
    forall l {:trigger Selected(m, before, after, l)} {:trigger Selected(m + [false], before, after, l)} | 1 <= l <= |m|
      ensures Selected(m, before, after, l) <==> Selected(m + [false], before, after, l)
    {
      NoMatchSelects(m, before, after, l);
    }
    SameListing(m, m + [false], before, after, |m|);
  }

  /** The search of a file with context lines (grep.c): `hits[i]` tells whether line `i + 1` matches. */
  method Search(hits: seq<bool>, before: nat, after: nat) returns (listed: seq<Item>)
    ensures Lists(hits, before, after, |hits|, listed)
  {
    hide Selected, Listing, Lists, Last;
    var ring := new Ring(before, after);
    var n := 0;
    var ok := ring.Line(n < |hits|);
    while ok
      invariant ring.before == before && ring.after == after && fresh(ring) && fresh(ring.show) && fresh(ring.line)
      invariant n <= |hits| && ok == (n < |hits|)
      invariant ok ==> ring.Valid() && ring.matches == hits[..n] + [false]
      invariant !ok ==> ring.listed == Listing(hits, before, after, |hits|)
      decreases |hits| - n, ok
    {
      if hits[n] {
        ring.Show();
      }
      assert ring.matches == hits[..n + 1];
      n := n + 1;
      assert n == |hits| ==> hits[..n] == hits;
      ok := ring.Line(n < |hits|);
    }
    listed := ring.listed;
    ListingMeans(hits, before, after, |hits|);
  }
}
