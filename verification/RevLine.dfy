/** `rev_line` (revlib.c): the lines of a file in reverse order, read backwards block by block. */
module RevLine {
  import opened Division

  const NEWLINE: char := '\n'

  // ---------------------------------------------------------------------------------------
  // Lines in reverse order
  // ---------------------------------------------------------------------------------------

  /** The last position up to `i` at which a line starts. */
  function LineStart(s: string, i: nat): (k: nat)
    requires i <= |s|
    ensures k <= i && (k == 0 || s[k - 1] == NEWLINE) && forall j :: k <= j < i ==> s[j] != NEWLINE
  {
    if i == 0 || s[i - 1] == NEWLINE then i else LineStart(s, i - 1)
  }

  /** The lines of `s`, the last first; the last may lack its newline. */
  function Reversed(s: string): (r: string)
    ensures |r| == |s|
    decreases |s|
  {
    if s == "" then ""
    else
      var k := LineStart(s, |s| - 1);
      s[k..] + Reversed(s[..k])
  }

  predicate NoNewline(s: string, lo: nat, hi: nat)
    requires lo <= hi <= |s|
  {
    forall j :: lo <= j < hi ==> s[j] != NEWLINE
  }

  lemma LineStartIs(s: string, i: nat, k: nat)
    requires k <= i <= |s| && NoNewline(s, k, i) && (k == 0 || s[k - 1] == NEWLINE)
    ensures LineStart(s, i) == k
  {
  }

  /** The last line of the first `end` characters. */
  lemma TakeLine(s: string, k: nat, end: nat)
    requires k < end <= |s| && NoNewline(s, k, end - 1) && (k == 0 || s[k - 1] == NEWLINE)
    ensures Reversed(s[..end]) == s[k..end] + Reversed(s[..k])
  {
    hide Reversed;
    assert s[..end][k..] == s[k..end] && s[..end][..k] == s[..k];
    assert k > 0 ==> s[..end][k - 1] == s[k - 1];
    assert NoNewline(s[..end], k, |s[..end]| - 1);
    hide NoNewline;
    TakeLast(s[..end], k);
  }

  /** The last line of all. */
  lemma TakeLast(s: string, k: nat)
    requires k < |s| && NoNewline(s, k, |s| - 1) && (k == 0 || s[k - 1] == NEWLINE)
    ensures Reversed(s) == s[k..] + Reversed(s[..k])
  {
    hide Reversed, NoNewline, LineStart;
    LineStartIs(s, |s| - 1, k);
    ReversedStep(s);
  }

  lemma ReversedStep(s: string)
    requires s != ""
    ensures var k := LineStart(s, |s| - 1); Reversed(s) == s[k..] + Reversed(s[..k])
  {
    hide LineStart;
  }

  /** The reversal begins with the last line. */
  lemma BeginsWithLastLine(s: string, k: nat)
    requires k < |s| && NoNewline(s, k, |s| - 1) && (k == 0 || s[k - 1] == NEWLINE)
    ensures Reversed(s)[..|s| - k] == s[k..]
  {
    TakeLast(s, k);
  }

  /** Lines: each ends at its newline, and only the last may lack it. */
  ghost predicate AreLines(lines: seq<string>) {
    forall i {:trigger lines[i]} :: 0 <= i < |lines| ==>
      var line := lines[i];
      && line != "" && (forall j :: 0 <= j < |line| - 1 ==> line[j] != '\n')
      && (i < |lines| - 1 ==> line[|line| - 1] == '\n')
  }

  function Text(lines: seq<string>): string {
    if lines == [] then "" else Text(lines[..|lines| - 1]) + lines[|lines| - 1]
  }

  /** The text of the lines in the opposite order. */
  function Backwards(lines: seq<string>): string {
    if lines == [] then "" else lines[|lines| - 1] + Backwards(lines[..|lines| - 1])
  }

  /** The reversal of a text is the text of its lines in the opposite order. */
  lemma {:induction false} ReversedMeans(lines: seq<string>)
    requires AreLines(lines)
    ensures Reversed(Text(lines)) == Backwards(lines)
  {
    hide Reversed;
    if lines == [] {
      NothingReversed();
    } else {
      var front, line := lines[..|lines| - 1], lines[|lines| - 1];
      assert forall i {:trigger front[i]} :: 0 <= i < |front| ==> front[i] == lines[i];
      ReversedMeans(front);
      LastCharacter(front);
      var s, k := Text(lines), |Text(front)|;
      assert s[k..] == line && s[..k] == Text(front);
      TakeLast(s, k);
    }
  }

  lemma LastCharacter(lines: seq<string>)
    requires AreLines(lines)
    ensures lines != [] ==>
      var s, line := Text(lines), lines[|lines| - 1]; s != "" && s[|s| - 1] == line[|line| - 1]
  {
  }

  /** Every text is made of lines. */
  lemma {:induction false} MadeOfLines(s: string) returns (lines: seq<string>)
    ensures AreLines(lines) && Text(lines) == s
    decreases |s|
  {
    if s == "" {
      lines := [];
    } else {
      var k := LineStart(s, |s| - 1);
      var front := MadeOfLines(s[..k]);
      LastCharacter(front);
      lines := front + [s[k..]];
      assert lines[..|front|] == front;
      assert forall i :: 0 <= i < |front| ==> lines[i] == front[i];
      assert k > 0 ==> front != [];
    }
  }

  /** A line in front goes to the end. */
  lemma {:induction false} LineInFront(line: string, s: string)
    requires line != "" && line[|line| - 1] == NEWLINE && NoNewline(line, 0, |line| - 1)
    ensures Reversed(line + s) == Reversed(s) + line
    decreases |s|
  {
    hide Reversed;
    if s == "" {
      assert line + s == line && line[0..] == line && line[..0] == "";
      TakeLast(line, 0);
      NothingReversed();
    } else {
      var k := LineStart(s, |s| - 1);
      LineInFront(line, s[..k]);
      LastOfTwo(line, s, k);
      TakeLast(s, k);
      assert s[k..] + (Reversed(s[..k]) + line) == s[k..] + Reversed(s[..k]) + line;
    }
  }

  lemma NothingReversed()
    ensures Reversed("") == ""
  {
  }

  lemma LastOfTwo(line: string, s: string, k: nat)
    requires line != "" && line[|line| - 1] == NEWLINE
    requires k < |s| && NoNewline(s, k, |s| - 1) && (k == 0 || s[k - 1] == NEWLINE)
    ensures Reversed(line + s) == s[k..] + Reversed(line + s[..k])
  {
    hide Reversed, NoNewline;
    CutSecond(line, s, k);
    EndOfFirst(line, s);
    TakeLast(line + s, |line| + k);
  }

  lemma EndOfFirst(a: string, b: string)
    requires a != ""
    ensures (a + b)[|a| - 1] == a[|a| - 1]
  {
  }

  lemma CutSecond(a: string, b: string, k: nat)
    requires k <= |b|
    ensures (a + b)[|a| + k..] == b[k..] && (a + b)[..|a| + k] == a + b[..k]
    ensures k < |b| && NoNewline(b, k, |b| - 1) ==> NoNewline(a + b, |a| + k, |a| + |b| - 1)
    ensures k > 0 ==> (a + b)[|a| + k - 1] == b[k - 1]
  {
    forall j | |a| + k <= j < |a| + |b| ensures (a + b)[j] == b[j - |a|] {
    }
  }

  /** Reversing twice gives back a file that ends with a newline. */
  lemma {:induction false} Involution(s: string)
    requires s == "" || s[|s| - 1] == NEWLINE
    ensures Reversed(Reversed(s)) == s
    decreases |s|
  {
    hide Reversed, NoNewline;
    NothingReversed();
    if s != "" {
      var k := LastLine(s);
      Involution(s[..k]);
      TakeLast(s, k);
      CutLine(s, k);
      LineInFront(s[k..], Reversed(s[..k]));
      assert Reversed(s[k..] + Reversed(s[..k])) == s[..k] + s[k..];
    }
  }

  lemma LastLine(s: string) returns (k: nat)
    requires s != ""
    ensures k < |s| && NoNewline(s, k, |s| - 1) && (k == 0 || s[k - 1] == NEWLINE)
  {
    k := LineStart(s, |s| - 1);
  }

  lemma CutLine(s: string, k: nat)
    requires k < |s| && s[|s| - 1] == NEWLINE && NoNewline(s, k, |s| - 1)
    ensures s == s[..k] + s[k..] && s[k..][|s| - k - 1] == NEWLINE && NoNewline(s[k..], 0, |s| - k - 1)
  {
  }

  // ---------------------------------------------------------------------------------------
  // What the program writes
  // ---------------------------------------------------------------------------------------

  predicate Aligned(n: nat, size: nat)
    requires size > 0
  {
    n % size == 0
  }

  /** The file does not end with a newline, its last byte is alone in its block, and the block
      before has a newline in the range. */
  ghost predicate LoneLastByte(data: string, start: nat, size: nat)
    requires size > 0
  {
    var n := |data|;
    && n > 0 && n - 1 > start && Aligned(n - 1, size) && data[n - 1] != NEWLINE
    && !NoNewline(data, if n - 1 < start + size then start else n - 1 - size, n - 1)
  }

  /** The data as the program writes it: a lone last byte comes out as a newline. */
  ghost function Written(data: string, start: nat, size: nat): (r: string)
    requires size > 0
    ensures |r| == |data|
  {
    if LoneLastByte(data, start, size) then data[|data| - 1 := NEWLINE] else data
  }

  /** The output is the reversal exactly if there is no lone last byte. */
  lemma RightUnlessLone(data: string, start: nat, size: nat)
    requires size > 0 && start <= |data|
    ensures Reversed(Written(data, start, size)[start..]) == Reversed(data[start..])
        <==> !LoneLastByte(data, start, size)
  {
    if LoneLastByte(data, start, size) {
      var s, w := data[start..], Written(data, start, size)[start..];
      var k := LineStart(s, |s| - 1);
      BeginsWithLastLine(s, k);
      LineStartIs(w, |w| - 1, k);
      BeginsWithLastLine(w, k);
      assert s[k..][|s| - k - 1] != w[k..][|s| - k - 1];
    }
  }

  /** A newline at the end of the first block, and one more byte: that byte is lost. */
  lemma OneMoreByteIsLost(size: nat, last: char)
    requires size > 0 && last != NEWLINE
    ensures var data := seq(size - 1, _ => 'x') + [NEWLINE, last];
      LoneLastByte(data, 0, size) && Reversed(Written(data, 0, size)) != Reversed(data)
  {
    hide Reversed;
    var data := seq(size - 1, _ => 'x') + [NEWLINE, last];
    assert data[size - 1] == NEWLINE && data[size] == last && |data| - 1 == size;
    Remainder(size, size, 1, 0);
    assert LoneLastByte(data, 0, size);
    RightUnlessLone(data, 0, size);
    assert data[0..] == data && Written(data, 0, size)[0..] == Written(data, 0, size);
  }

  /** `out` is written, and the range up to `end` is still to be written. */
  ghost predicate Done(v: string, start: nat, end: nat, out: string) {
    start <= end <= |v| && Reversed(v[start..]) == out + Reversed(v[start..end])
  }

  lemma WriteLine(v: string, start: nat, k: nat, end: nat, out: string)
    requires Done(v, start, end, out) && start <= k < end
    requires NoNewline(v, k, end - 1) && (k == start || v[k - 1] == NEWLINE)
    ensures Done(v, start, k, out + v[k..end])
  {
    hide Reversed;
    var s := v[start..];
    TakeLine(s, k - start, end - start);
    assert s[..end - start] == v[start..end] && s[k - start..end - start] == v[k..end];
    assert s[..k - start] == v[start..k];
    assert out + (v[k..end] + Reversed(v[start..k])) == out + v[k..end] + Reversed(v[start..k]);
  }

  /** What is left of a line that starts before the block at `edge`: `nleft` characters, of which a
      single one is written as a newline if the block before has one. */
  ghost predicate Left(data: string, v: string, offset: nat, edge: nat, nleft: nat) {
    && offset <= edge && edge + nleft <= |data| == |v|
    && (nleft > 0 ==> NoNewline(v, edge, edge + nleft - 1))
    && v[..edge] == data[..edge]
    && (nleft != 1 ==> v[edge..edge + nleft] == data[edge..edge + nleft])
    && (nleft == 1 ==> if NoNewline(data, offset, edge) then v[edge] == data[edge] else v[edge] == NEWLINE)
  }

  /** What is written for the piece that was left. */
  function Piece(data: string, edge: nat, nleft: nat): string
    requires edge + nleft <= |data|
  {
    if nleft == 1 then [NEWLINE] else data[edge..edge + nleft]
  }

  /** A line that starts in the block: from `k` to `end`, and what was left after the block. */
  lemma WriteStep(data: string, v: string, start: nat, offset: nat, edge: nat, nleft: nat, k: nat, end: nat,
      out: string)
    requires Left(data, v, offset, edge, nleft) && Done(v, start, end + nleft, out)
    requires start <= offset < k <= end <= edge && (nleft > 0 ==> end == edge) && (nleft == 0 ==> k < end)
    requires data[k - 1] == NEWLINE && NoNewline(data, k, if nleft == 0 then end - 1 else end)
    ensures Done(v, start, k, out + data[k..end] + Piece(data, edge, nleft))
  {
    hide Done;
    assert forall i :: 0 <= i < edge ==> v[i] == data[i];
    assert k <= end - 1 || k == end;
    assert NoNewline(v, k, end + nleft - 1) by {
      forall j | k <= j < end + nleft - 1 ensures v[j] != NEWLINE {
        if j < edge {
          assert v[j] == data[j];
        }
      }
    }
    assert nleft == 1 ==> !NoNewline(data, offset, edge);
    assert v[k..end + nleft] == data[k..end] + Piece(data, edge, nleft);
    WriteLine(v, start, k, end + nleft, out);
    assert out + (data[k..end] + Piece(data, edge, nleft)) == out + data[k..end] + Piece(data, edge, nleft);
  }

  /** No line starts in the rest of the block. */
  lemma LeaveStep(data: string, v: string, offset: nat, edge: nat, nleft: nat, end: nat)
    requires Left(data, v, offset, edge, nleft)
    requires offset < end <= edge && (nleft > 0 ==> end == edge)
    requires NoNewline(data, offset, if nleft == 0 then end - 1 else end)
    ensures NoNewline(v, offset, end + nleft - 1) && v[offset..end + nleft] == data[offset..end + nleft]
  {
    assert forall i :: 0 <= i < edge ==> v[i] == data[i];
    forall j | offset <= j < end + nleft - 1 ensures v[j] != NEWLINE {
      if j < edge {
        assert v[j] == data[j];
      }
    }
    forall j | offset <= j < end + nleft ensures v[j] == data[j] {
      if j >= edge {
        assert v[edge..edge + nleft][j - edge] == v[j];
        assert data[edge..edge + nleft][j - edge] == data[j];
      }
    }
  }

  /** The newline before `cp`, where a sentinel stops the search. */
  method ScanBack(buff: array<char>, from: nat) returns (cp: nat)
    requires 0 < from <= buff.Length && buff[0] == NEWLINE
    ensures cp < from && buff[cp] == NEWLINE && forall i :: cp < i < from ==> buff[i] != NEWLINE
  {
    cp := from - 1;
    while buff[cp] != NEWLINE
      invariant cp < from && forall i :: cp < i < from ==> buff[i] != NEWLINE
      decreases cp
    {
      cp := cp - 1;
    }
  }

  lemma SearchedBlock(b: seq<char>, data: string, offset: nat, lo: nat, hi: nat)
    requires 1 <= lo <= hi <= |b| && offset + hi <= |data|
    requires forall i :: lo <= i < hi ==> b[i] == data[offset + i] && b[i] != NEWLINE
    ensures NoNewline(data, offset + lo, offset + hi)
    ensures lo == 1 && data[offset] != NEWLINE ==> NoNewline(data, offset, offset + hi)
  {
    forall j | offset + lo <= j < offset + hi ensures data[j] != NEWLINE {
      assert b[j - offset] == data[offset + (j - offset)];
    }
  }

  /** One block, from its end to its beginning. */
  method ReverseBlock(data: string, ghost v: string, ghost start: nat, offset: nat, buff: array<char>, n: nat,
      nleft0: nat, out0: string)
    returns (nleft: nat, out: string)
    requires start <= offset && 0 < n <= buff.Length && offset + n <= |data|
    requires forall i :: 0 <= i < n ==> buff[i] == data[offset + i]
    requires Left(data, v, offset, offset + n, nleft0) && Done(v, start, offset + n + nleft0, out0)
    requires nleft0 == 0 ==> offset + n == |data|
    modifies buff
    ensures 0 < nleft && offset + nleft <= |data| && Done(v, start, offset + nleft, out)
    ensures NoNewline(v, offset, offset + nleft - 1)
    ensures nleft != 1 ==> v[offset..offset + nleft] == data[offset..offset + nleft]
    ensures nleft == 1 ==> offset + 1 == |data| || data[offset] == NEWLINE
    ensures v[..offset] == data[..offset]
  {
    hide Done, Left, Piece;
    nleft, out := nleft0, out0;
    var cp: nat := n;
    var first := buff[0];
    buff[0] := NEWLINE;
    LeftBefore(data, v, offset, offset + n, nleft0);
    while true
      invariant first == data[offset] && buff[0] == NEWLINE && forall i :: 0 < i < n ==> buff[i] == data[offset + i]
      invariant cp <= n && (nleft > 0 ==> nleft == nleft0 && cp == n)
      invariant nleft == 0 ==> cp > 0 && (data[offset + cp - 1] == NEWLINE || offset + cp == |data|)
      invariant Left(data, v, offset, offset + n, nleft)
      invariant Done(v, start, offset + cp + nleft, out)
      decreases cp + if nleft > 0 then 1 else 0
    {
      var cpold := cp;
      if nleft == 0 {
        cp := cp - 1;
      }
      if cp == 0 {
        nleft := 1;
        break;
      }
      ghost var from := cp;
      cp := ScanBack(buff, cp);
      if cp == 0 && first != NEWLINE {
        SearchedBlock(buff[..], data, offset, 1, from);
        LeaveStep(data, v, offset, offset + n, nleft, offset + cpold);
        nleft := nleft + cpold - cp;
        break;
      }
      cp := cp + 1;
      SearchedBlock(buff[..], data, offset, cp, from);
      out := WriteOut(data, v, start, offset, buff, n, nleft, cp, cpold, out);
      LeftBefore(data, v, offset, offset + n, nleft);
      nleft := 0;
    }
  }

  /** Writes the line that begins at `cp` in the buffer, and what is left of it in later blocks. */
  method WriteOut(data: string, ghost v: string, ghost start: nat, offset: nat, buff: array<char>, n: nat,
      nleft: nat, cp: nat, cpold: nat, out0: string)
    returns (out: string)
    requires start <= offset && 1 <= cp <= cpold <= n <= buff.Length && offset + n <= |data|
    requires forall i :: cp <= i < cpold ==> buff[i] == data[offset + i]
    requires Left(data, v, offset, offset + n, nleft) && Done(v, start, offset + cpold + nleft, out0)
    requires if nleft > 0 then cpold == n else cp < cpold
    requires data[offset + cp - 1] == NEWLINE
    requires NoNewline(data, offset + cp, if nleft == 0 then offset + cpold - 1 else offset + cpold)
    ensures Done(v, start, offset + cp, out)
  {
    hide Done, Left, Piece, NoNewline;
    WriteStep(data, v, start, offset, offset + n, nleft, offset + cp, offset + cpold, out0);
    SameText(buff[..], data, offset, cp, cpold);
    assert buff[cp..cpold] == buff[..][cp..cpold];
    LeftBefore(data, v, offset, offset + n, nleft);
    out := out0 + buff[cp..cpold];
    if nleft > 0 {
      out := out + Piece(data, offset + n, nleft);
    } else {
      assert out + Piece(data, offset + n, nleft) == out by {
        NoPiece(data, offset + n);
      }
    }
  }

  lemma SameText(b: seq<char>, data: string, offset: nat, lo: nat, hi: nat)
    requires lo <= hi <= |b| && offset + hi <= |data|
    requires forall i :: lo <= i < hi ==> b[i] == data[offset + i]
    ensures b[lo..hi] == data[offset + lo..offset + hi]
  {
  }

  lemma NoPiece(data: string, edge: nat)
    requires edge <= |data|
    ensures Piece(data, edge, 0) == ""
  {
  }

  lemma LeftBefore(data: string, v: string, offset: nat, edge: nat, nleft: nat)
    requires Left(data, v, offset, edge, nleft)
    ensures edge + nleft <= |data| == |v| && v[..offset] == data[..offset]
    ensures Left(data, v, offset, edge, 0)
  {
    assert forall i :: 0 <= i < edge ==> v[i] == data[i];
  }

  // ---------------------------------------------------------------------------------------
  // The whole file
  // ---------------------------------------------------------------------------------------

  /** The block before an edge. */
  function BlockStart(start: nat, edge: nat, size: nat): (offset: nat)
    requires start <= edge
    ensures start <= offset <= edge
  {
    if edge < start + size then start else edge - size
  }

  /** The view of the data after the first block: a lone last byte counts as a newline. */
  lemma FirstBlock(data: string, start: nat, size: nat, offset: nat, nleft: nat, out: string)
    requires size > 0 && LoneLastByte(data, start, size) && offset == |data| - 1 && nleft == 1
    requires Done(data, start, |data|, out)
    ensures var v := Written(data, start, size);
      Done(v, start, |data|, out) && v[..offset] == data[..offset]
      && Left(data, v, BlockStart(start, offset, size), offset, nleft)
  {
    hide NoNewline, Reversed;
    var v := Written(data, start, size);
    assert data[start..] == data[start..|data|] && v[start..] == v[start..|data|];
    assert |out| == 0;
    LoneIsLeft(data, start, size);
  }

  lemma LoneIsLeft(data: string, start: nat, size: nat)
    requires size > 0 && LoneLastByte(data, start, size)
    ensures Left(data, Written(data, start, size), BlockStart(start, |data| - 1, size), |data| - 1, 1)
  {
  }

  /** What a block leaves is in order for the block before it. */
  lemma NextBlock(data: string, v: string, start: nat, size: nat, offset: nat, nleft: nat)
    requires size > 0 && start < offset && Aligned(offset, size) && offset + nleft <= |data| == |v|
    requires v == data || (offset + 1 < |data| && v == Written(data, start, size))
    requires v == data ==> !LoneLastByte(data, start, size)
    requires 0 < nleft && NoNewline(v, offset, offset + nleft - 1) && v[..offset] == data[..offset]
    requires nleft != 1 ==> v[offset..offset + nleft] == data[offset..offset + nleft]
    requires nleft == 1 ==> offset + 1 == |data| || data[offset] == NEWLINE
    ensures Left(data, v, BlockStart(start, offset, size), offset, nleft)
  {
  }

  lemma LastPiece(v: string, start: nat, nleft: nat, out: string)
    requires Done(v, start, start + nleft, out) && 0 < nleft && NoNewline(v, start, start + nleft - 1)
    ensures Reversed(v[start..]) == out + v[start..start + nleft]
  {
    var piece := v[start..start + nleft];
    TakeLast(piece, 0);
    assert piece[0..] == piece && Reversed(piece[..0]) == "";
  }

  method Fill(buff: array<char>, data: string, offset: nat, n: nat)
    requires n <= buff.Length && offset + n <= |data|
    modifies buff
    ensures forall i :: 0 <= i < n ==> buff[i] == data[offset + i]
  {
    forall i | 0 <= i < n {
      buff[i] := data[offset + i];
    }
  }

  /** `rounddown(n, size)`: where the block that holds byte `n - 1` begins. */
  function RoundDown(n: nat, size: nat): nat
    requires n > 0 && size > 0
  {
    n - 1 - (n - 1) % size
  }

  lemma RoundDownIs(n: nat, size: nat)
    requires n > 0 && size > 0
    ensures RoundDown(n, size) < n <= RoundDown(n, size) + size && Aligned(RoundDown(n, size), size)
    ensures Aligned(n - 1, size) ==> RoundDown(n, size) == n - 1
  {
    var q, r := (n - 1) / size, (n - 1) % size;
    assert n - 1 - r == size * q + 0;
    Multiple(size, q);
  }

  /** Before a block is read: the range from `edge` on is written, up to the piece that is left. */
  ghost predicate Ready(data: string, start: nat, size: nat, u: string, offset: nat, edge: nat, nleft: nat, out: string)
    requires size > 0
  {
    && start < edge <= |data| == |u| && Aligned(offset, size)
    && edge == (if offset + size < |data| then offset + size else |data|)
    && Left(data, u, if offset < start then start else offset, edge, nleft)
    && Done(u, start, edge + nleft, out)
    && (edge == |data| ==> u == data && nleft == 0 && offset == RoundDown(|data|, size))
    && (edge < |data| ==> u == Written(data, start, size) && nleft > 0)
  }

  /** After the block that holds `start`. */
  ghost predicate Ended(data: string, start: nat, size: nat, u: string, nleft: nat, out: string)
    requires size > 0
  {
    && start + nleft <= |data| == |u| && u == Written(data, start, size)
    && Done(u, start, start + nleft, out) && 0 < nleft && NoNewline(u, start, start + nleft - 1)
    && u[start..start + nleft] == data[start..start + nleft]
  }

  /** One turn of the outer loop. */
  method OneBlock(data: string, start: nat, size: nat, buff: array<char>, offset0: nat, nleft0: nat, out0: string,
      ghost u0: string, ghost edge: nat)
    returns (offset: nat, nleft: nat, out: string, ghost u: string)
    requires buff.Length == size > 0 && Ready(data, start, size, u0, offset0, edge, nleft0, out0)
    modifies buff
    ensures offset == if offset0 < start then start else offset0
    ensures offset == start ==> Ended(data, start, size, u, nleft, out)
    ensures offset > start ==> offset >= size && Ready(data, start, size, u, offset - size, offset, nleft, out)
  {
    hide Reversed, Done, Left, LoneLastByte, Written;
    offset, u := offset0, u0;
    var n := size;
    if offset < start {
      n := n - (start - offset);
      offset := start;
    }
    n := if n <= |data| - offset then n else |data| - offset;
    Fill(buff, data, offset, n);
    nleft, out := ReverseBlock(data, u, start, offset, buff, n, nleft0, out0);
    u := AfterBlock(data, start, size, u, offset0, offset, edge, nleft, out);
  }

  /** The view that the next block needs. */
  lemma AfterBlock(data: string, start: nat, size: nat, u0: string, offset0: nat, offset: nat, edge: nat, nleft: nat,
      out: string)
    returns (u: string)
    requires size > 0 && start < edge <= |data| == |u0| && Aligned(offset0, size)
    requires edge == (if offset0 + size < |data| then offset0 + size else |data|)
    requires edge == |data| ==> u0 == data && offset0 == RoundDown(|data|, size)
    requires edge < |data| ==> u0 == Written(data, start, size)
    requires offset == (if offset0 < start then start else offset0) < edge
    requires 0 < nleft && offset + nleft <= |data| && Done(u0, start, offset + nleft, out)
    requires NoNewline(u0, offset, offset + nleft - 1) && u0[..offset] == data[..offset]
    requires nleft != 1 ==> u0[offset..offset + nleft] == data[offset..offset + nleft]
    requires nleft == 1 ==> offset + 1 == |data| || data[offset] == NEWLINE
    ensures offset == start ==> Ended(data, start, size, u, nleft, out)
    ensures offset > start ==> offset >= size && Ready(data, start, size, u, offset - size, offset, nleft, out)
  {
    hide Reversed, Done, Left, LoneLastByte, Written, RoundDown, Aligned;
    WrittenIs(data, start, size);
    RoundDownIs(|data|, size);
    if offset > start {
      AtLeastOneBlock(offset, size);
    }
    u := u0;
    if edge == |data| && LoneLastByte(data, start, size) {
      FirstBlock(data, start, size, offset, nleft, out);
      u := Written(data, start, size);
    } else if offset > start {
      NextBlock(data, u, start, size, offset, nleft);
    } else {
      assert edge == |data| ==> u == Written(data, start, size);
      assert nleft == 1 ==> u[start..start + 1] == data[start..start + 1] by {
        assert start < |data|;
      }
    }
  }

  lemma AtLeastOneBlock(n: nat, size: nat)
    requires size > 0 && n > 0 && Aligned(n, size)
    ensures n >= size && Aligned(n - size, size)
  {
    LessOne(n, size);
  }

  /** The blocks from the last to the one that holds `start`. */
  method ReverseRange(data: string, start: nat, size: nat) returns (out: string)
    requires size > 0 && start < |data|
    ensures out == Reversed(Written(data, start, size)[start..])
  {
    hide Reversed, Done, Left, Written;
    ghost var u, edge: nat := data, |data|;
    var buff := new char[size];
    var nleft: nat := 0;
    out := "";
    Begin(data, start, size);
    var offset: nat := RoundDown(|data|, size);
    while true
      invariant Ready(data, start, size, u, offset, edge, nleft, out)
      decreases offset
    {
      offset, nleft, out, u := OneBlock(data, start, size, buff, offset, nleft, out, u, edge);
      if offset <= start {
        break;
      }
      edge := offset;
      offset := offset - size;
    }
    LastPiece(u, start, nleft, out);
    if nleft > 0 {
      out := out + data[start..start + nleft];
    }
  }

  /** `rev_line`. An input that cannot seek is copied from `start` on, and read as a file. */
  method Rev(data: string, start: nat, size: nat, seekable: bool) returns (status: int, out: string)
    requires size > 0
    ensures status == -1 <==> !seekable && |data| < start
    ensures status == -1 || status == 0
    ensures status == 0 ==>
      var file, from := if seekable then data else data[start..], if seekable then start else 0;
      out == if from < |file| then Reversed(Written(file, from, size)[from..]) else ""
  {
    var file, from := data, start;
    if !seekable {
      if start > 0 && |data| < start {
        return -1, "";
      }
      file, from := data[start..], 0;
    }
    if |file| <= from {
      return 0, "";
    }
    status := 0;
    out := ReverseRange(file, from, size);
  }

  lemma WrittenIs(data: string, start: nat, size: nat)
    requires size > 0
    ensures !LoneLastByte(data, start, size) ==> Written(data, start, size) == data
    ensures LoneLastByte(data, start, size) ==>
      |data| - 1 > start && Aligned(|data| - 1, size) && Written(data, start, size) == data[|data| - 1 := NEWLINE]
        && data[|data| - 1] != NEWLINE
  {
  }

  lemma Begin(data: string, start: nat, size: nat)
    requires size > 0 && start < |data|
    ensures Ready(data, start, size, data, RoundDown(|data|, size), |data|, 0, "")
  {
    RoundDownIs(|data|, size);
    assert data[start..] == data[start..|data|];
  }
}
