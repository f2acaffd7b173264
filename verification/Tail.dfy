/** The two ways of tail (tail.c) to find the last records: `tailpos` reads a file backwards,
    `pipetail` keeps two alternating files of what came through a pipe. */
module Tail {

  /** A record ends with a delimiter, or is a single byte. */
  datatype Delim = Single | Char(c: char)

  predicate Ends(d: Delim, c: char) { d.Single? || c == d.c }

  // ---------------------------------------------------------------------------------------
  // The last records
  // ---------------------------------------------------------------------------------------

  /** The last position up to `i` at which a record begins. */
  function Begin(d: Delim, s: string, i: nat): (k: nat)
    requires i <= |s|
    ensures k <= i && (k == 0 || Ends(d, s[k - 1])) && forall j :: k <= j < i ==> !Ends(d, s[j])
  {
    if i == 0 || Ends(d, s[i - 1]) then i else Begin(d, s, i - 1)
  }

  /** Where the last `k` records of `s` begin; a last record may lack its delimiter. */
  function Start(d: Delim, s: string, k: nat): (p: nat)
    ensures p <= |s|
    decreases k
  {
    if k == 0 || s == "" then |s| else Start(d, s[..Begin(d, s, |s| - 1)], k - 1)
  }

  /** The number of records. */
  function Count(d: Delim, s: string): (n: nat)
    ensures s == "" <==> n == 0
    ensures n <= |s|
    decreases |s|
  {
    if s == "" then 0 else Count(d, s[..Begin(d, s, |s| - 1)]) + 1
  }

  /** The position is at the beginning of a record, and as many records follow as were asked for,
      or all of them. */
  lemma {:induction false} StartMeans(d: Delim, s: string, k: nat)
    ensures var p := Start(d, s, k); p == 0 || p == |s| || Ends(d, s[p - 1])
    ensures Count(d, s) == Count(d, s[..Start(d, s, k)]) + if k <= Count(d, s) then k else Count(d, s)
    decreases k
  {
    hide Begin, Start, Count;
    StartStep(d, s, k);
    if k == 0 || s == "" {
      assert s[..|s|] == s;
    } else {
      var b := Begin(d, s, |s| - 1);
      var front := s[..b];
      StartMeans(d, front, k - 1);
      assert front[..Start(d, s, k)] == s[..Start(d, s, k)];
    }
  }

  lemma StartStep(d: Delim, s: string, k: nat)
    ensures k == 0 || s == "" ==> Start(d, s, k) == |s|
    ensures k > 0 && s != "" ==>
      var b := Begin(d, s, |s| - 1); Start(d, s, k) == Start(d, s[..b], k - 1) && Count(d, s) == Count(d, s[..b]) + 1
  {
    hide Begin;
  }

  // ---------------------------------------------------------------------------------------
  // From the end of a file
  // ---------------------------------------------------------------------------------------

  /** The search backwards from `p`, counting delimiters. */
  function Scan(d: Delim, s: string, p: nat, number: int): (r: nat)
    requires p <= |s|
    ensures r <= p
  {
    if p == 0 then 0
    else if Ends(d, s[p - 1]) then if number <= 0 then p else Scan(d, s, p - 1, number - 1)
    else Scan(d, s, p - 1, number)
  }

  lemma ScanStep(d: Delim, s: string, p: nat, number: int)
    requires p <= |s|
    ensures Scan(d, s, p, number) ==
      if p == 0 then 0
      else if Ends(d, s[p - 1]) then if number <= 0 then p else Scan(d, s, p - 1, number - 1)
      else Scan(d, s, p - 1, number)
  {
  }

  lemma {:induction false} ScanPrefix(d: Delim, s: string, b: nat, p: nat, number: int)
    requires p <= b <= |s|
    ensures Scan(d, s, p, number) == Scan(d, s[..b], p, number)
    decreases p
  {
    if p > 0 {
      ScanPrefix(d, s, b, p - 1, number - 1);
      ScanPrefix(d, s, b, p - 1, number);
    }
  }

  lemma {:induction false} ScanToBegin(d: Delim, s: string, p: nat, number: int)
    requires p <= |s|
    ensures Scan(d, s, p, number) == Scan(d, s, Begin(d, s, p), number)
    decreases p
  {
    if p > 0 && !Ends(d, s[p - 1]) {
      ScanToBegin(d, s, p - 1, number);
    }
  }

  /** The search finds the last records: an unterminated last line is one of them. */
  lemma {:induction false} ScanFinds(d: Delim, s: string, k: nat)
    requires s != ""
    ensures Ends(d, s[|s| - 1]) ==> Scan(d, s, |s|, k) == Start(d, s, k)
    ensures !Ends(d, s[|s| - 1]) && k > 0 ==> Scan(d, s, |s|, k - 1) == Start(d, s, k)
    decreases k
  {
    if k > 0 {
      var b := Begin(d, s, |s| - 1);
      ScanToBegin(d, s, |s| - 1, k - 1);
      ScanPrefix(d, s, b, b, k - 1);
      if b > 0 {
        ScanFinds(d, s[..b], k - 1);
      }
    }
  }

  /** A byte of a block, and the same byte of the range. */
  lemma BlockByte(file: string, first: nat, offset: nat, last: nat, t: nat)
    requires first <= offset <= last <= |file| && offset + t < last
    ensures file[offset..last][t] == file[first..][offset + t - first]
  {
  }

  /** `tailpos`, for a file that can seek; `size` is the size of the blocks. */
  method TailPos(file: string, first: nat, number0: nat, d: Delim, size: nat) returns (pos: nat)
    requires first <= |file| && size > 0
    ensures pos == first + Start(d, file[first..], number0)
  {
    hide Scan, Start;
    ghost var s := file[first..];
    var number: int := number0;
    var last: int := |file|;
    if d.Single? {
      StartOfBytes(s, number0);
      if last - number < first {
        return first;
      }
      return last - number;
    }
    var incomplete := true;
    while true
      invariant first <= last <= |file| && (incomplete ==> last == |file| && number == number0)
      invariant !incomplete ==> Scan(d, s, last - first, number) == Start(d, s, number0)
      decreases last - first, incomplete
    {
      var offset := last - size;
      if offset < first {
        offset := first;
      }
      var block := file[offset..last];
      var t := |block|;
      if incomplete {
        if t > 0 {
          BlockByte(file, first, offset, last, t - 1);
        }
        if t > 0 && block[t - 1] != d.c {
          ScanFinds(d, s, number0);
          if number <= 0 {
            StartStep(d, s, number0);
            return offset + t;
          }
          number := number - 1;
        } else if t > 0 {
          ScanFinds(d, s, number0);
        }
        incomplete := false;
        if s == "" {
          ScanStep(d, s, 0, number);
          StartStep(d, s, number0);
        }
      }
      while t > 0
        invariant 0 <= t <= |block|
        invariant Scan(d, s, offset + t - first, number) == Start(d, s, number0)
      {
        t := t - 1;
        BlockByte(file, first, offset, last, t);
        ScanStep(d, s, offset + t - first + 1, number);
        if block[t] == d.c {
          if number <= 0 {
            return offset + t + 1;
          }
          number := number - 1;
        }
      }
      if offset == first {
        break;
      }
      last := offset;
    }
    ScanStep(d, s, 0, number);
    pos := first;
  }

  lemma {:induction false} StartOfBytes(s: string, k: nat)
    ensures Start(Single, s, k) == if k <= |s| then |s| - k else 0
    decreases k
  {
    if k > 0 && s != "" {
      StartOfBytes(s[..|s| - 1], k - 1);
    }
  }

  // ---------------------------------------------------------------------------------------
  // Records from the front
  // ---------------------------------------------------------------------------------------

  /** The stream ends with a delimiter. */
  predicate Whole(d: Delim, s: string) { s == "" || Ends(d, s[|s| - 1]) }

  /** The length of the first record. */
  function FirstLength(d: Delim, s: string, i: nat): (n: nat)
    requires i < |s|
    ensures i < n <= |s| && (n == |s| || Ends(d, s[n - 1])) && forall j :: i <= j < n - 1 ==> !Ends(d, s[j])
    decreases |s| - i
  {
    if Ends(d, s[i]) || i + 1 == |s| then i + 1 else FirstLength(d, s, i + 1)
  }

  /** The length of the first `n` records, or of all. */
  function Prefix(d: Delim, s: string, n: nat): (p: nat)
    ensures p <= |s|
    decreases n
  {
    if n == 0 || s == "" then 0
    else
      var k := FirstLength(d, s, 0);
      k + Prefix(d, s[k..], n - 1)
  }

  lemma BeginIs(d: Delim, s: string, i: nat, k: nat)
    requires k <= i <= |s| && (k == 0 || Ends(d, s[k - 1])) && forall j :: k <= j < i ==> !Ends(d, s[j])
    ensures Begin(d, s, i) == k
  {
    var m := Begin(d, s, i);
    assert m <= k by {
      if m > 0 {
        assert !(k <= m - 1 < i);
      }
    }
  }

  /** The last record of two streams is that of the second. */
  lemma BeginOfTwo(d: Delim, a: string, b: string)
    requires Whole(d, a) && b != ""
    ensures Begin(d, a + b, |a + b| - 1) == |a| + Begin(d, b, |b| - 1)
  {
    hide Begin, Ends, Whole;
    var k := Begin(d, b, |b| - 1);
    TakeTwo(d, a, b, k);
    BeginInSecond(d, a + b, |a|, b, k);
  }

  lemma TakeTwo(d: Delim, a: string, b: string, k: nat)
    requires k <= |b| && Whole(d, a)
    ensures (a + b)[..|a| + k] == a + b[..k] && (a + b)[|a|..] == b && |a + b| == |a| + |b|
    ensures a == "" || Ends(d, (a + b)[|a| - 1])
  {
    hide Ends;
  }

  lemma BeginInSecond(d: Delim, s: string, n: nat, b: string, k: nat)
    requires n < |s| && s[n..] == b && k == Begin(d, b, |b| - 1)
    requires n == 0 || Ends(d, s[n - 1])
    ensures Begin(d, s, |s| - 1) == n + k
  {
    hide Begin, Ends;
    assert forall j :: 0 <= j < |b| ==> s[n + j] == b[j];
    forall j | n + k <= j < |s| - 1 ensures !Ends(d, s[j]) {
      assert s[n + (j - n)] == b[j - n];
    }
    assert k > 0 ==> s[n + (k - 1)] == b[k - 1];
    BeginIs(d, s, |s| - 1, n + k);
  }

  lemma {:induction false} CountConcat(d: Delim, a: string, b: string)
    requires Whole(d, a)
    ensures Count(d, a + b) == Count(d, a) + Count(d, b)
    decreases |b|
  {
    hide Begin, Count, Whole;
    if b == "" {
      assert a + b == a;
      NoRecords(d);
    } else {
      var k := Begin(d, b, |b| - 1);
      BeginOfTwo(d, a, b);
      TakeTwo(d, a, b, k);
      StartStep(d, b, 1);
      StartStep(d, a + b, 1);
      CountConcat(d, a, b[..k]);
    }
  }

  /** The last records of two streams. */
  lemma {:induction false} StartConcat(d: Delim, a: string, b: string, k: nat)
    requires Whole(d, a)
    ensures k <= Count(d, b) ==> Start(d, a + b, k) == |a| + Start(d, b, k)
    ensures k == Count(d, b) ==> Start(d, a + b, k) == |a|
    decreases k
  {
    hide Begin, Start, Count, Whole;
    StartStep(d, b, k);
    StartStep(d, a + b, k);
    NoRecords(d);
    if b == "" {
      assert a + b == a;
    } else if k > 0 {
      BeginOfTwo(d, a, b);
      TakeTwo(d, a, b, Begin(d, b, |b| - 1));
      StartConcat(d, a, b[..Begin(d, b, |b| - 1)], k - 1);
    } else {
      CountSome(d, b);
    }
  }

  lemma CountSome(d: Delim, s: string)
    ensures Count(d, s) == 0 <==> s == ""
  {
  }

  /** All records, if more are asked for. */
  lemma {:induction false} StartOfFew(d: Delim, s: string, k: nat)
    requires Count(d, s) <= k
    ensures k > 0 || s == "" ==> Start(d, s, k) == 0
    decreases k
  {
    if k > 0 && s != "" {
      StartOfFew(d, s[..Begin(d, s, |s| - 1)], k - 1);
    }
  }

  lemma OneRecord(d: Delim, s: string)
    requires s != "" && Whole(d, s)
    ensures var k := FirstLength(d, s, 0); Whole(d, s[..k]) && Count(d, s[..k]) == 1 && Whole(d, s[k..])
  {
    var k := FirstLength(d, s, 0);
    var r := s[..k];
    BeginIs(d, r, |r| - 1, 0);
    assert Count(d, r[..0]) == 0;
  }

  lemma PrefixStep(d: Delim, s: string, n: nat)
    ensures n == 0 || s == "" ==> Prefix(d, s, n) == 0
    ensures n > 0 && s != "" ==>
      var k := FirstLength(d, s, 0); Prefix(d, s, n) == k + Prefix(d, s[k..], n - 1)
  {
    hide FirstLength;
  }

  lemma {:induction false} PrefixCounts(d: Delim, s: string, n: nat)
    requires Whole(d, s)
    ensures Whole(d, s[..Prefix(d, s, n)]) && Whole(d, s[Prefix(d, s, n)..])
    ensures Count(d, s[..Prefix(d, s, n)]) == if n <= Count(d, s) then n else Count(d, s)
    ensures Count(d, s) == Count(d, s[..Prefix(d, s, n)]) + Count(d, s[Prefix(d, s, n)..])
    ensures Count(d, s) <= n ==> Prefix(d, s, n) == |s|
    decreases n
  {
    hide Begin, Count, Prefix, FirstLength, Whole;
    var p := Prefix(d, s, n);
    PrefixStep(d, s, n);
    if n == 0 || s == "" {
      assert s[..0] == "" && s[0..] == s;
      NoRecords(d);
    } else {
      var k := FirstLength(d, s, 0);
      OneRecord(d, s);
      PrefixCounts(d, s[k..], n - 1);
      FirstAndMore(d, s, k, Prefix(d, s[k..], n - 1));
    }
  }

  /** One record, and more of them. */
  lemma FirstAndMore(d: Delim, s: string, k: nat, m: nat)
    requires k + m <= |s| && Whole(d, s[..k]) && Count(d, s[..k]) == 1 && Whole(d, s[k..][..m])
    ensures Whole(d, s[..k + m]) && s[k + m..] == s[k..][m..]
    ensures Count(d, s[..k + m]) == 1 + Count(d, s[k..][..m])
    ensures Count(d, s) == 1 + Count(d, s[k..])
  {
    hide Count, Whole;
    Regroup(s, k, m);
    CountConcat(d, s[..k], s[k..]);
    CountConcat(d, s[..k], s[k..][..m]);
    WholeConcat(d, s[..k], s[k..][..m]);
  }

  lemma NoRecords(d: Delim)
    ensures Count(d, "") == 0 && Whole(d, "")
  {
  }

  lemma Regroup(s: string, k: nat, m: nat)
    requires k + m <= |s|
    ensures s == s[..k] + s[k..] && s[..k + m] == s[..k] + s[k..][..m] && s[k + m..] == s[k..][m..]
  {
  }

  lemma WholeConcat(d: Delim, a: string, b: string)
    requires Whole(d, a) && Whole(d, b)
    ensures Whole(d, a + b)
  {
    assert b == "" ==> a + b == a;
  }

  lemma FirstOfTwo(d: Delim, f: string, stale: string, i: nat)
    requires i < |f| && Whole(d, f)
    ensures FirstLength(d, f + stale, i) == FirstLength(d, f, i)
    decreases |f| - i
  {
    if !(Ends(d, f[i]) || i + 1 == |f|) {
      FirstOfTwo(d, f, stale, i + 1);
    }
  }

  /** What is left over in a file after the records does not matter. */
  lemma {:induction false} PrefixIgnores(d: Delim, f: string, stale: string, n: nat)
    requires Whole(d, f) && n <= Count(d, f)
    ensures Prefix(d, f + stale, n) == Prefix(d, f, n)
    decreases n
  {
    hide Begin, Count, Prefix, FirstLength, Whole;
    PrefixStep(d, f, n);
    PrefixStep(d, f + stale, n);
    NoRecords(d);
    if n > 0 {
      var k := FirstLength(d, f, 0);
      FirstOfTwo(d, f, stale, 0);
      OneRecord(d, f);
      Regroup(f, k, 0);
      CountConcat(d, f[..k], f[k..]);
      assert (f + stale)[k..] == f[k..] + stale;
      PrefixIgnores(d, f[k..], stale, n - 1);
    }
  }

  // ---------------------------------------------------------------------------------------
  // Through a pipe
  // ---------------------------------------------------------------------------------------

  /** A write into a file over what it holds. */
  function Overwrite(content: string, pos: nat, bytes: string): (r: string)
    requires pos <= |content|
    ensures |r| >= pos + |bytes| && r[..pos] == content[..pos] && r[pos..pos + |bytes|] == bytes
  {
    var r := content[..pos] + bytes + if pos + |bytes| <= |content| then content[pos + |bytes|..] else "";
    assert r[pos..pos + |bytes|] == bytes;
    r
  }

  /** After some moves: `older` was written and overwritten, `full` is in the other file, and
      `part` is at the beginning of the current one. */
  ghost predicate Kept(d: Delim, number: nat, nleft: int, mine: string, mineOffset: nat,
      other: string, otherOffset: nat, older: string, full: string, part: string) {
    && Whole(d, older) && Whole(d, full) && Whole(d, part)
    && (if full == "" then older == "" && otherOffset == 0
        else Count(d, full) == number && full <= other && otherOffset == |full|)
    && Count(d, part) == number - nleft
    && (part != "" ==> Count(d, part) < number && part <= mine && mineOffset == |part|)
  }

  lemma NothingKept(d: Delim, number: nat)
    ensures Kept(d, number, number, "", 0, "", 0, "", "", "")
  {
  }

  /** As many records as are kept were moved: the files change places. */
  lemma FullMove(d: Delim, number: nat, nleft: int, mine: string, mineOffset: nat,
      other: string, otherOffset: nat, older: string, full: string, chunk: string)
    requires Kept(d, number, nleft, mine, mineOffset, other, otherOffset, older, full, "")
    requires Whole(d, chunk) && Count(d, chunk) == number > 0 && nleft <= number
    ensures Kept(d, number, number, other, otherOffset, Overwrite(mine, 0, chunk), |chunk|, older + full, chunk, "")
    ensures nleft == number
  {
    hide Begin, Count;
    NoRecords(d);
    WholeConcat(d, older, full);
    var written := Overwrite(mine, 0, chunk);
    assert written[0..0 + |chunk|] == written[..|chunk|];
  }

  /** Fewer records were left. */
  lemma PartMove(d: Delim, number: nat, nleft: int, mine: string, mineOffset: nat,
      other: string, otherOffset: nat, older: string, full: string, chunk: string)
    requires Kept(d, number, nleft, mine, mineOffset, other, otherOffset, older, full, "")
    requires Whole(d, chunk) && 0 < Count(d, chunk) < number
    ensures Kept(d, number, nleft - Count(d, chunk), Overwrite(mine, 0, chunk), |chunk|, other, otherOffset, older,
      full, chunk)
    ensures nleft == number
  {
    hide Begin, Count;
    NoRecords(d);
    var written := Overwrite(mine, 0, chunk);
    assert written[0..0 + |chunk|] == written[..|chunk|];
  }

  /** At the end: the full file has the records. */
  lemma FullIsTail(d: Delim, number: nat, older: string, full: string)
    requires Whole(d, older) && Whole(d, full) && Count(d, full) == number
    ensures (older + full)[Start(d, older + full, number)..] == full
  {
    StartConcat(d, older, full, number);
    assert (older + full)[|older|..] == full;
  }

  /** At the end: the rest of the full file and the other file have them. */
  lemma BothAreTail(d: Delim, number: nat, older: string, full: string, part: string)
    requires Whole(d, older) && Whole(d, full) && Whole(d, part) && Count(d, part) < number
    requires if full == "" then older == "" else Count(d, full) == number
    ensures var input := older + full + part;
      input[Start(d, input, number)..] == full[Prefix(d, full, Count(d, part))..] + part
  {
    hide Begin, Count, Start, Prefix, FirstLength, Whole;
    var input := older + full + part;
    if full == "" {
      assert input == part;
      StartOfFew(d, part, number);
      assert full[Prefix(d, full, Count(d, part))..] + part == part;
    } else {
      var p := Prefix(d, full, Count(d, part));
      PrefixCounts(d, full, Count(d, part));
      var first, last := older + full[..p], full[p..] + part;
      assert input == first + last;
      WholeConcat(d, older, full[..p]);
      WholeConcat(d, full[p..], part);
      CountConcat(d, full[p..], part);
      FullIsTail(d, number, first, last);
    }
  }

  /** The records of a stream that have their delimiter: what `sfmove` hands on when it moves records.
      It leaves an unfinished record at the end of the stream behind. */
  function Finished(d: Delim, input: string): (s: string)
    ensures s <= input && Whole(d, s)
  {
    input[..Begin(d, input, |input|)]
  }

  /** `pipetail`. The files `tmp[0]` and `tmp[1]` are written from their beginnings in turn, and never
      cut off. What it outputs are the last finished records. */
  method PipeTail(input: string, number: nat, d: Delim) returns (output: string)
    ensures output == Finished(d, input)[Start(d, Finished(d, input), number)..]
    ensures output == input[Start(d, input, number)..] <==> number == 0 || Whole(d, input)
  {
    FinishedIsTail(d, input, number);
    output := LastOfFinished(Finished(d, input), number, d);
  }

  /** The last finished records are the last records exactly if there is no unfinished one, or
      nothing is asked for. */
  lemma FinishedIsTail(d: Delim, input: string, number: nat)
    ensures var s := Finished(d, input);
      s[Start(d, s, number)..] == input[Start(d, input, number)..] <==> number == 0 || Whole(d, input)
  {
    hide Start, Begin, Count, Finished, Ends;
    var s := Finished(d, input);
    FinishedFacts(d, input);
    StartStep(d, s, number);
    StartStep(d, input, number);
    if number == 0 {
      assert s[|s|..] == input[|input|..];
    } else if !Whole(d, input) {
      LastKept(d, input, number);
      LastOfPart(input, Start(d, input, number));
      LastOfPart(s, Start(d, s, number));
    }
  }

  lemma FinishedFacts(d: Delim, input: string)
    ensures Whole(d, Finished(d, input))
    ensures Whole(d, input) ==> Finished(d, input) == input
  {
  }

  /** The end of a string has its last character. */
  lemma LastOfPart(s: string, p: nat)
    requires p <= |s|
    ensures s[p..] != "" ==> s != "" && s[p..][|s[p..]| - 1] == s[|s| - 1]
    ensures p < |s| ==> s[p..] != ""
  {
  }

  /** If a record is asked for, the last byte is among what is found. */
  lemma LastKept(d: Delim, input: string, number: nat)
    requires number > 0 && input != ""
    ensures Start(d, input, number) < |input|
  {
    hide Start, Count;
    StartStep(d, input, number);
  }

  /** A last line without its newline is lost in a pipe. */
  lemma UnfinishedIsLost()
    ensures Finished(Char('\n'), "a") == "" && "a"[Start(Char('\n'), "a", 1)..] == "a"
  {
    LastKept(Char('\n'), "a", 1);
  }

  /** The loop, on the finished records that `sfmove` hands on. */
  method LastOfFinished(input: string, number: nat, d: Delim) returns (output: string)
    requires Whole(d, input)
    ensures output == input[Start(d, input, number)..]
  {
    hide Begin, Start, Count, Prefix, Whole, Kept, FirstLength, Overwrite;
    var rest := input;
    var nleft: int := number;
    var fno := 0;
    var tmp: seq<string>, offset: seq<nat> := ["", ""], [0, 0];
    var outpos: nat := 0;
    ghost var older, full, part := "", "", "";
    NothingKept(d, number);
    assert input == "" + "" + "" + rest;
    while true
      invariant 0 <= fno < 2 && |tmp| == |offset| == 2 && nleft <= number
      invariant Kept(d, number, nleft, tmp[fno], offset[fno], tmp[1 - fno], offset[1 - fno], older, full, part)
      invariant Whole(d, rest) && input == older + full + part + rest
      invariant if part == "" then outpos == 0 else rest == ""
      decreases |rest|
    {
      var moved := Prefix(d, rest, number);
      var chunk := rest[..moved];
      var n := Count(d, chunk);
      PrefixCounts(d, rest, number);
      NoRecords(d);
      if n == 0 {
        break;
      }
      ghost var before := tmp[fno];
      CutRest(older, full, rest, moved);
      tmp := tmp[fno := Overwrite(tmp[fno], outpos, chunk)];
      outpos := outpos + moved;
      if n == number {
        FullMove(d, number, nleft, before, offset[fno], tmp[1 - fno], offset[1 - fno], older, full, chunk);
        older, full := older + full, chunk;
      } else {
        PartMove(d, number, nleft, before, offset[fno], tmp[1 - fno], offset[1 - fno], older, full, chunk);
        part := chunk;
      }
      offset := offset[fno := outpos];
      nleft := nleft - n;
      if nleft <= 0 {
        fno := 1 - fno;
        outpos := 0;
        nleft := number;
      }
      rest := rest[moved..];
    }
    output := Drain(d, number, nleft, fno, tmp, offset, older, full, part);
    assert older + full + part + rest == input;
    KeptFacts(d, number, nleft, tmp[fno], offset[fno], tmp[1 - fno], offset[1 - fno], older, full, part);
    CountSome(d, rest);
    AtEnd(d, number, older, full, part, rest);
  }

  lemma CutRest(older: string, full: string, rest: string, moved: nat)
    requires moved <= |rest|
    ensures older + full + "" + rest == older + full + rest[..moved] + rest[moved..]
    ensures older + full + "" + rest == older + full + rest[..moved] + "" + rest[moved..]
  {
    assert rest == rest[..moved] + rest[moved..];
    assert older + full + "" == older + full;
    assert older + full + rest[..moved] + "" == older + full + rest[..moved];
  }

  /** The kept records are written out; the files are read from their beginnings. */
  method Drain(d: Delim, number: nat, nleft: int, fno0: nat, tmp: seq<string>, offset0: seq<nat>,
      ghost older: string, ghost full: string, ghost part: string)
    returns (output: string)
    requires fno0 < 2 && |tmp| == |offset0| == 2
    requires Kept(d, number, nleft, tmp[fno0], offset0[fno0], tmp[1 - fno0], offset0[1 - fno0], older, full, part)
    ensures output == if part == "" then full else full[Prefix(d, full, Count(d, part))..] + part
  {
    hide Count, Prefix, Kept;
    var fno, offset := fno0, offset0;
    KeptFiles(d, number, nleft, tmp[fno0], offset0[fno0], tmp[1 - fno0], offset0[1 - fno0], older, full, part);
    if nleft == number {
      offset := offset[fno := 0];
      fno := 1 - fno;
    }
    output := "";
    if offset[fno] != 0 {
      var pos: nat := 0;
      var n := number - nleft;
      if n > 0 {
        pos := Prefix(d, tmp[1 - fno], n);
      }
      n := offset[1 - fno] - pos;
      if n > 0 {
        output := output + tmp[1 - fno][pos..pos + n];
      }
    } else {
      fno := 1 - fno;
    }
    output := output + tmp[fno][..offset[fno]];
  }

  /** What the two files hold when the stream has ended. */
  lemma KeptFiles(d: Delim, number: nat, nleft: int, mine: string, mineOffset: nat,
      other: string, otherOffset: nat, older: string, full: string, part: string)
    requires Kept(d, number, nleft, mine, mineOffset, other, otherOffset, older, full, part)
    ensures nleft == number <==> part == ""
    ensures nleft <= number && otherOffset == |full| && (full != "" ==> full <= other)
    ensures part != "" ==> mineOffset == |part| && part <= mine && Count(d, part) == number - nleft
    ensures part != "" && full != "" ==> Prefix(d, other, number - nleft) == Prefix(d, full, Count(d, part)) <= |full|
    ensures full == "" ==> Prefix(d, full, Count(d, part)) == 0
  {
    hide Begin, Count, Prefix, Whole, FirstLength;
    NoRecords(d);
    CountSome(d, part);
    PrefixStep(d, "", Count(d, part));
    if part != "" && full != "" {
      SkipInFull(d, other, full, number - nleft);
    }
  }

  lemma SkipInFull(d: Delim, other: string, full: string, n: nat)
    requires Whole(d, full) && full <= other && (full != "" ==> n <= Count(d, full))
    ensures full != "" ==> Prefix(d, other, n) == Prefix(d, full, n)
  {
    hide Begin, Count, Prefix, Whole, FirstLength;
    if full != "" {
      assert other == full + other[|full|..];
      PrefixIgnores(d, full, other[|full|..], n);
    }
  }

  lemma AtEnd(d: Delim, number: nat, older: string, full: string, part: string, rest: string)
    requires Whole(d, older) && Whole(d, full) && Whole(d, part)
    requires if full == "" then older == "" else Count(d, full) == number
    requires part != "" ==> Count(d, part) < number && rest == ""
    requires number == 0 || rest == ""
    ensures var input := older + full + part + rest;
      input[Start(d, input, number)..] == if part == "" then full else full[Prefix(d, full, Count(d, part))..] + part
  {
    hide Begin, Count, Prefix, Whole, FirstLength, Start;
    var input := older + full + part + rest;
    NoRecords(d);
    StartStep(d, input, number);
    if part != "" {
      assert input == older + full + part;
      BothAreTail(d, number, older, full, part);
    } else if number == 0 {
      CountSome(d, full);
    } else if full == "" {
      assert input == "";
    } else {
      assert input == older + full;
      FullIsTail(d, number, older, full);
    }
  }

  lemma KeptFacts(d: Delim, number: nat, nleft: int, mine: string, mineOffset: nat,
      other: string, otherOffset: nat, older: string, full: string, part: string)
    requires Kept(d, number, nleft, mine, mineOffset, other, otherOffset, older, full, part)
    ensures Whole(d, older) && Whole(d, full) && Whole(d, part)
    ensures if full == "" then older == "" else Count(d, full) == number
    ensures part != "" ==> Count(d, part) < number
  {
  }
}
