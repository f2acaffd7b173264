/** The byte-wise branches of `wc_count` (wclib.c): lines, words and bytes of a stream that comes
    in buffers of any size. */
module Wc {
  import opened Chunks

  newtype byte = x: int | 0 <= x < 256

  const NEWLINE: byte := 10

  /** An entry of the type table: 0, `WC_SP`, or `WC_SP|WC_NL`. */
  datatype Kind = Word | Space | Newline

  /** The table that `wc_init` fills: the newline has its own entry. */
  predicate IsTable(kinds: seq<Kind>) {
    && |kinds| == 256
    && forall b {:trigger kinds[b]} :: 0 <= b < 256 ==> (kinds[b] == Newline <==> b == 10)
  }

  // ---------------------------------------------------------------------------------------
  // What is counted
  // ---------------------------------------------------------------------------------------

  function Kinds(table: seq<Kind>, data: seq<byte>): (r: seq<Kind>)
    requires |table| == 256
    ensures |r| == |data|
  {
    seq(|data|, i requires 0 <= i < |data| => table[data[i] as int])
  }

  function Lines(kinds: seq<Kind>): nat {
    if kinds == [] then 0 else Lines(kinds[..|kinds| - 1]) + if kinds[|kinds| - 1] == Newline then 1 else 0
  }

  /** Words are the longest runs of word characters: each has one start. */
  function Words(kinds: seq<Kind>): nat {
    if kinds == [] then 0
    else
      var n := |kinds| - 1;
      Words(kinds[..n]) + if kinds[n] == Word && (n == 0 || kinds[n - 1] != Word) then 1 else 0
  }

  /** How often a word ends before the last character. */
  function Ends(kinds: seq<Kind>): nat {
    if |kinds| <= 1 then 0
    else
      var n := |kinds| - 1;
      Ends(kinds[..n]) + if kinds[n] != Word && kinds[n - 1] == Word then 1 else 0
  }

  /** Every word has ended, except one that is still going on. */
  lemma {:induction false} StartsAndEnds(kinds: seq<Kind>)
    requires kinds != [] && kinds[0] != Word
    ensures Words(kinds) == Ends(kinds) + if kinds[|kinds| - 1] == Word then 1 else 0
  {
    if |kinds| > 1 {
      StartsAndEnds(kinds[..|kinds| - 1]);
    } else {
      assert Words(kinds[..0]) == 0;
    }
  }

  /** A space in front changes nothing. */
  lemma {:induction false} SpaceInFront(kinds: seq<Kind>)
    ensures Words([Space] + kinds) == Words(kinds) && Lines([Space] + kinds) == Lines(kinds)
  {
    var all := [Space] + kinds;
    if kinds == [] {
      assert all[..0] == [];
    } else {
      SpaceInFront(kinds[..|kinds| - 1]);
      assert all[..|all| - 1] == [Space] + kinds[..|kinds| - 1];
    }
  }

  lemma {:induction false} LinesAppend(a: seq<Kind>, b: seq<Kind>)
    ensures Lines(a + b) == Lines(a) + Lines(b)
    decreases |b|
  {
    if b == [] {
      assert a + b == a;
    } else {
      assert (a + b)[..|a + b| - 1] == a + b[..|b| - 1];
      LinesAppend(a, b[..|b| - 1]);
    }
  }

  /** What ends after `a` depends only on the last character of `a`. */
  lemma {:induction false} EndsAppend(a: seq<Kind>, b: seq<Kind>)
    requires a != []
    ensures Ends(a + b) == Ends(a) + Ends([a[|a| - 1]] + b)
    decreases |b|
  {
    var last := [a[|a| - 1]];
    if b == [] {
      assert a + b == a && last + b == last;
    } else {
      assert (a + b)[..|a + b| - 1] == a + b[..|b| - 1];
      assert (last + b)[..|last + b| - 1] == last + b[..|b| - 1];
      EndsAppend(a, b[..|b| - 1]);
    }
  }

  // ---------------------------------------------------------------------------------------
  // Between buffers
  // ---------------------------------------------------------------------------------------

  /** The counters after the kinds of `seen`: the last character waits in `last`, and a line or a
      word that it ends is not counted yet. A space is put before the stream. */
  ghost predicate Counted(seen: seq<Kind>, nlines: nat, nwords: nat, last: Kind) {
    var all := [Space] + seen;
    && last == all[|all| - 1]
    && nlines == Lines(all[..|all| - 1])
    && nwords == Ends(all)
  }

  lemma CountedNothing()
    ensures Counted([], 0, 0, Space)
  {
    assert ([Space] + [])[..0] == [];
  }

  /** The last character is counted after the last buffer. */
  lemma CountedAll(seen: seq<Kind>, nlines: nat, nwords: nat, last: Kind)
    requires Counted(seen, nlines, nwords, last)
    ensures Lines(seen) == nlines + if last == Newline then 1 else 0
    ensures Words(seen) == nwords + if last == Word then 1 else 0
  {
    SpaceInFront(seen);
    StartsAndEnds([Space] + seen);
  }

  /** One buffer more. */
  lemma CountedMore(seen: seq<Kind>, more: seq<Kind>, nlines: nat, nwords: nat, last: Kind)
    requires Counted(seen, nlines, nwords, last) && more != []
    ensures var step := [last] + more;
      Counted(seen + more, nlines + Lines(step[..|more|]), nwords + Ends(step), more[|more| - 1])
  {
    var all := [Space] + seen;
    var step := [last] + more;
    assert [Space] + (seen + more) == all + more;
    EndsAppend(all, more);
    assert (all + more)[..|all + more| - 1] == all[..|all| - 1] + step[..|more|];
    LinesAppend(all[..|all| - 1], step[..|more|]);
  }

  // ---------------------------------------------------------------------------------------
  // One buffer
  // ---------------------------------------------------------------------------------------

  /** The kinds around a buffer that ends with the sentinel: the one before it, and its own. */
  ghost predicate Around(v: seq<Kind>, table: seq<Kind>, buf: seq<byte>) {
    && IsTable(table) && |v| == |buf| + 1 >= 3 && v[|buf|] == Newline
    && forall k {:trigger buf[k]} :: 0 <= k < |buf| ==> v[k + 1] == table[buf[k] as int]
  }

  /** Spaces and newlines, up to a word character or past the sentinel. */
  method Spaces(table: array<Kind>, buf: array<byte>, ghost v: seq<Kind>, cp0: nat, c0: Kind, nlines0: nat)
    returns (cp: nat, c: Kind, nlines: nat)
    requires Around(v, table[..], buf[..]) && cp0 <= buf.Length && c0 == v[cp0] && (c0 == Word ==> cp0 == 0)
    ensures cp0 <= cp <= buf.Length && c == v[cp] && (cp == buf.Length <==> c != Word) && (c == Word ==> cp > cp0)
    ensures nlines - Lines(v[..cp]) == nlines0 - Lines(v[..cp0])
    ensures Ends(v[..cp + 1]) == Ends(v[..cp0 + 1]) + if c0 == Word && v[1] != Word then 1 else 0
  {
    hide Lines, Ends;
    cp, c, nlines := cp0, c0, nlines0;
    while true
      invariant cp0 <= cp <= buf.Length && c == v[cp] && (c == Word ==> cp == cp0)
      invariant nlines - Lines(v[..cp]) == nlines0 - Lines(v[..cp0])
      invariant Ends(v[..cp + 1]) == Ends(v[..cp0 + 1]) + if cp > cp0 && c0 == Word && v[1] != Word then 1 else 0
      decreases buf.Length - cp
    {
      if c == Newline {
        while true
          invariant cp0 <= cp <= buf.Length && c == v[cp] == Newline
          invariant nlines - Lines(v[..cp]) == nlines0 - Lines(v[..cp0])
          invariant Ends(v[..cp + 1]) == Ends(v[..cp0 + 1]) + if cp > cp0 && c0 == Word && v[1] != Word then 1 else 0
          decreases buf.Length - cp
        {
          if cp > buf.Length - 1 {
            return;
          }
          PrefixStep(v, cp);
          PrefixStep(v, cp + 1);
          nlines := nlines + 1;
          if buf[cp] != NEWLINE {
            break;
          }
          cp := cp + 1;
        }
      } else {
        PrefixStep(v, cp);
        PrefixStep(v, cp + 1);
      }
      c := table[buf[cp] as int];
      cp := cp + 1;
      if c == Word {
        break;
      }
    }
  }

  /** Word characters, past the space that ends them. */
  method WordCharacters(table: array<Kind>, buf: array<byte>, ghost v: seq<Kind>, cp0: nat) returns (cp: nat, c: Kind)
    requires Around(v, table[..], buf[..]) && cp0 <= buf.Length && v[cp0] == Word
    ensures cp0 < cp <= buf.Length && c == v[cp] && c != Word
    ensures Lines(v[..cp]) == Lines(v[..cp0]) && Ends(v[..cp + 1]) == Ends(v[..cp0 + 1]) + 1
  {
    hide Lines, Ends;
    cp, c := cp0, Word;
    while true
      invariant cp0 <= cp <= buf.Length && v[cp] == Word
      invariant Lines(v[..cp]) == Lines(v[..cp0]) && Ends(v[..cp + 1]) == Ends(v[..cp0 + 1])
      decreases buf.Length - cp
    {
      PrefixStep(v, cp);
      PrefixStep(v, cp + 1);
      assert buf[..][cp] == buf[cp];
      c := table[buf[cp] as int];
      cp := cp + 1;
      if c != Word {
        break;
      }
    }
  }

  /** Lines and words of a buffer of at least two bytes. Its last byte is replaced by a newline,
      at which all the loops stop. */
  method CountBuffer(table: array<Kind>, buf: array<byte>, nlines0: nat, nwords0: nat, lasttype: Kind)
    returns (nlines: nat, nwords: nat, last: Kind)
    requires IsTable(table[..]) && buf.Length >= 2
    modifies buf
    ensures var step := [lasttype] + Kinds(table[..], old(buf[..]));
      && nlines == nlines0 + Lines(step[..buf.Length])
      && nwords == nwords0 + Ends(step)
      && last == step[buf.Length]
  {
    hide Lines, Ends, Kinds, Around;
    ghost var step := [lasttype] + Kinds(table[..], buf[..]);
    ghost var given := buf[..];
    nlines, nwords := nlines0, nwords0;
    var cp: nat := 0;
    var n := buf.Length;
    WithSentinel(table[..], given, buf[..][n - 1 := NEWLINE], lasttype);
    if lasttype == Word && table[buf[0] as int] != Word {
      nwords := nwords + 1;
    }
    var lastchar := buf[n - 1];
    var endbuff := n - 1;
    buf[endbuff] := NEWLINE;
    ghost var v := [lasttype] + Kinds(table[..], buf[..]);
    assert buf[..] == given[n - 1 := NEWLINE];
    ghost var kinds, bytes := table[..], buf[..];
    assert Around(v, kinds, bytes);
    var c := lasttype;
    PrefixStep(v, 0);
    while true
      modifies {}
      invariant table[..] == kinds && buf[..] == bytes
      invariant cp <= n && c == v[cp] && (c == Word ==> cp == 0)
      invariant nlines == nlines0 + Lines(v[..cp])
      invariant nwords == nwords0 + Ends(v[..cp + 1]) + if c == Word && v[1] != Word then 1 else 0
      decreases n - cp
    {
      cp, c, nlines := Spaces(table, buf, v, cp, c, nlines);
      if c != Word {
        break;
      }
      cp, c := WordCharacters(table, buf, v, cp);
      nwords := nwords + 1;
    }
    PrefixStep(v, n);
    PrefixStep(step, n);
    assert v[..n + 1] == v && step[..n + 1] == step;
    c := if cp >= 2 then table[buf[cp - 2] as int] else lasttype;
    last := table[lastchar as int];
    if c == Word && last == Word {
      nwords := nwords - 1;
    }
  }

  lemma WithSentinel(table: seq<Kind>, given: seq<byte>, buf: seq<byte>, lasttype: Kind)
    requires IsTable(table) && |given| == |buf| >= 2 && buf == given[|given| - 1 := NEWLINE]
    ensures var v, step := [lasttype] + Kinds(table, buf), [lasttype] + Kinds(table, given);
      && Around(v, table, buf) && v[0] == lasttype
      && |step| == |v| && v[..|buf|] == step[..|buf|] && v[1] == table[given[0] as int]
      && step[|buf|] == table[given[|buf| - 1] as int] && v[|buf| - 1] == step[|buf| - 1]
  {
    var v, step := [lasttype] + Kinds(table, buf), [lasttype] + Kinds(table, given);
    assert forall k :: 0 <= k < |buf| ==> v[k] == step[k];
  }

  lemma PrefixStep(v: seq<Kind>, k: nat)
    requires k < |v|
    ensures Lines(v[..k + 1]) == Lines(v[..k]) + if v[k] == Newline then 1 else 0
    ensures k >= 1 ==> Ends(v[..k + 1]) == Ends(v[..k]) + if v[k] != Word && v[k - 1] == Word then 1 else 0
    ensures k == 0 ==> Ends(v[..k + 1]) == 0 && Lines(v[..k]) == 0
  {
    assert v[..k + 1][..k] == v[..k];
  }

  // ---------------------------------------------------------------------------------------
  // The whole stream
  // ---------------------------------------------------------------------------------------

  lemma KindsAppend(table: seq<Kind>, a: seq<byte>, b: seq<byte>)
    requires |table| == 256
    ensures Kinds(table, a + b) == Kinds(table, a) + Kinds(table, b)
  {
  }

  /** The branch of `wc_count` that counts lines and words. The stream hands out `chunks`, none
      of them empty, in buffers that may be written to. */
  method CountWords(table: array<Kind>, chunks: seq<seq<byte>>) returns (nlines: nat, nwords: nat, nchars: nat)
    requires IsTable(table[..]) && forall i {:trigger chunks[i]} :: 0 <= i < |chunks| ==> chunks[i] != []
    ensures var kinds := Kinds(table[..], Concat(chunks));
      nlines == Lines(kinds) && nwords == Words(kinds) && nchars == |Concat(chunks)|
  {
    hide Lines, Ends, Words, Kinds, Counted;
    nlines, nwords, nchars := 0, 0, 0;
    var lasttype := Space;
    CountedNothing();
    NothingRead(table[..]);
    assert chunks[..0] == [];
    var i := 0;
    while i < |chunks|
      modifies {}
      invariant i <= |chunks| && nchars == |Concat(chunks[..i])|
      invariant Counted(Kinds(table[..], Concat(chunks[..i])), nlines, nwords, lasttype)
    {
      var chunk := chunks[i];
      nchars := nchars + |chunk|;
      ConcatStep(chunks, i);
      KindsAppend(table[..], Concat(chunks[..i]), chunk);
      ghost var kinds := Kinds(table[..], chunk);
      CountedMore(Kinds(table[..], Concat(chunks[..i])), kinds, nlines, nwords, lasttype);
      if |chunk| == 1 {
        OneByte(table[..], chunk, lasttype);
        if lasttype == Newline {
          nlines := nlines + 1;
        }
        var c := table[chunk[0] as int];
        if c != Word && lasttype == Word {
          nwords := nwords + 1;
        }
        lasttype := c;
      } else {
        var buf := new byte[|chunk|](k requires 0 <= k < |chunk| => chunk[k]);
        assert buf[..] == chunk;
        nlines, nwords, lasttype := CountBuffer(table, buf, nlines, nwords, lasttype);
      }
      i := i + 1;
    }
    assert chunks[..|chunks|] == chunks;
    CountedAll(Kinds(table[..], Concat(chunks)), nlines, nwords, lasttype);
    if lasttype == Newline {
      nlines := nlines + 1;
    } else if lasttype == Word {
      nwords := nwords + 1;
    }
  }

  lemma NothingRead(table: seq<Kind>)
    requires |table| == 256
    ensures Kinds(table, Concat<byte>([])) == []
  {
  }

  lemma OneByte(table: seq<Kind>, chunk: seq<byte>, lasttype: Kind)
    requires |table| == 256 && |chunk| == 1
    ensures var step := [lasttype] + Kinds(table, chunk);
      && step[1] == table[chunk[0] as int] && |step| == 2
      && Lines(step[..1]) == (if lasttype == Newline then 1 else 0)
      && Ends(step) == if lasttype == Word && step[1] != Word then 1 else 0
  {
    var step := [lasttype] + Kinds(table, chunk);
    PrefixStep(step, 0);
    PrefixStep(step, 1);
    assert step[..2] == step;
  }

  // ---------------------------------------------------------------------------------------
  // Lines only
  // ---------------------------------------------------------------------------------------

  function Newlines(data: seq<byte>): nat {
    if data == [] then 0 else Newlines(data[..|data| - 1]) + if data[|data| - 1] == NEWLINE then 1 else 0
  }

  lemma {:induction false} NewlinesAppend(a: seq<byte>, b: seq<byte>)
    ensures Newlines(a + b) == Newlines(a) + Newlines(b)
    decreases |b|
  {
    if b == [] {
      assert a + b == a;
    } else {
      assert (a + b)[..|a + b| - 1] == a + b[..|b| - 1];
      NewlinesAppend(a, b[..|b| - 1]);
    }
  }

  lemma NewlineStep(data: seq<byte>, k: nat)
    requires k < |data|
    ensures Newlines(data[..k + 1]) == Newlines(data[..k]) + if data[k] == NEWLINE then 1 else 0
  {
    assert data[..k + 1][..k] == data[..k];
  }

  /** The two branches count the same lines. */
  lemma {:induction false} NewlinesAreLines(table: seq<Kind>, data: seq<byte>)
    requires IsTable(table)
    ensures Newlines(data) == Lines(Kinds(table, data))
  {
    if data != [] {
      var n := |data| - 1;
      NewlinesAreLines(table, data[..n]);
      assert Kinds(table, data)[..n] == Kinds(table, data[..n]);
    }
  }

  /** The branch that counts only lines and bytes. A newline that is put at the end of each buffer
      stops the loop, and is not counted. */
  method CountLines(chunks: seq<seq<byte>>) returns (nlines: nat, nchars: nat)
    requires forall i {:trigger chunks[i]} :: 0 <= i < |chunks| ==> chunks[i] != []
    ensures nlines == Newlines(Concat(chunks)) && nchars == |Concat(chunks)|
  {
    hide Newlines;
    nlines, nchars := 0, 0;
    NoNewlines();
    assert chunks[..0] == [];
    var i := 0;
    while i < |chunks|
      modifies {}
      invariant i <= |chunks| && nchars == |Concat(chunks[..i])| && nlines == Newlines(Concat(chunks[..i]))
    {
      var chunk := chunks[i];
      nchars := nchars + |chunk|;
      ConcatStep(chunks, i);
      NewlinesAppend(Concat(chunks[..i]), chunk);
      var buf := new byte[|chunk|](k requires 0 <= k < |chunk| => chunk[k]);
      assert buf[..] == chunk;
      nlines := CountNewlines(buf, nlines);
      i := i + 1;
    }
    assert chunks[..|chunks|] == chunks;
  }

  method CountNewlines(buf: array<byte>, nlines0: nat) returns (nlines: nat)
    requires buf.Length > 0
    modifies buf
    ensures nlines == nlines0 + Newlines(old(buf[..]))
  {
    hide Newlines;
    ghost var given := buf[..];
    nlines := nlines0;
    var endbuff := buf.Length - 1;
    NewlineStep(given, endbuff);
    assert given[..endbuff + 1] == given;
    if buf[endbuff] == NEWLINE {
      nlines := nlines + 1;
    } else {
      buf[endbuff] := NEWLINE;
    }
    ghost var first := nlines;
    var cp: nat := 0;
    NoNewlines();
    assert given[..0] == [];
    while true
      modifies {}
      invariant cp <= endbuff && nlines == first + Newlines(given[..cp])
      decreases buf.Length - cp
    {
      if cp < endbuff {
        NewlineStep(given, cp);
      }
      var c := buf[cp];
      cp := cp + 1;
      if c == NEWLINE {
        if cp > endbuff {
          break;
        }
        nlines := nlines + 1;
      }
    }
  }

  lemma NoNewlines()
    ensures Newlines([]) == 0 && Concat<byte>([]) == []
  {
  }
}
