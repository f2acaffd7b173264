/** samu's `canonpath` (util.c): a path is put in canonical form inside its own buffer. */
module CanonPath {
  import opened Wrappers

  const NUL: char := '\0'

  const MAX_COMPONENTS: nat := 60

  // ---------------------------------------------------------------------------------------
  // What a path means
  // ---------------------------------------------------------------------------------------

  predicate Absolute(path: string) { path != "" && path[0] == '/' }

  /** A path without its leading slash. */
  function Body(path: string): string { if Absolute(path) then path[1..] else path }

  /** The components of a text, empty ones included. */
  function Split(text: string): (parts: seq<string>)
    ensures parts != []
  {
    if text == "" then [""]
    else
      var rest := Split(text[1..]);
      if text[0] == '/' then [""] + rest
      else [[text[0]] + rest[0]] + rest[1..]
  }

  /** The directory reached from `dir`, a list of names from the root, by going through
      `parts`. The root is its own parent. */
  function Walk(dir: seq<string>, parts: seq<string>): seq<string>
    decreases parts
  {
    if parts == [] then dir else Walk(Go(dir, parts[0]), parts[1..])
  }

  function Go(dir: seq<string>, part: string): seq<string> {
    if part == "" || part == "." then dir
    else if part == ".." then if dir == [] then [] else dir[..|dir| - 1]
    else dir + [part]
  }

  function Resolve(cwd: seq<string>, path: string): seq<string> {
    Walk(if Absolute(path) then [] else cwd, Split(Body(path)))
  }

  // ---------------------------------------------------------------------------------------
  // The canonical form
  // ---------------------------------------------------------------------------------------

  /** A reduced path: `..` components that have nothing to cancel, then plain names. */
  datatype Reduced = Reduced(root: bool, ups: nat, names: seq<string>)

  /** One more component; a path may have no more than 60 live names. */
  function Step(p: Reduced, part: string): Option<Reduced> {
    if part == "" || part == "." then Some(p)
    else if part == ".." then
      if p.names != [] then Some(p.(names := p.names[..|p.names| - 1])) else Some(p.(ups := p.ups + 1))
    else if |p.names| == MAX_COMPONENTS then None
    else Some(p.(names := p.names + [part]))
  }

  function Fold(p: Reduced, parts: seq<string>): Option<Reduced>
    decreases parts
  {
    if parts == [] then Some(p)
    else match Step(p, parts[0])
      case None => None
      case Some(q) => Fold(q, parts[1..])
  }

  function Reduce(path: string): Option<Reduced> {
    Fold(Reduced(Absolute(path), 0, []), Split(Body(path)))
  }

  function Parts(p: Reduced): seq<string> { seq(p.ups, _ => "..") + p.names }

  /** The components of a reduced path, each followed by a slash. */
  function Text(p: Reduced): string { (if p.root then "/" else "") + Lines(Parts(p)) }

  function Lines(parts: seq<string>): string {
    if parts == [] then "" else Lines(parts[..|parts| - 1]) + parts[|parts| - 1] + "/"
  }

  /** The text without its last slash, or a dot for no text. */
  function Written(p: Reduced): string {
    if Text(p) == "" then "." else Text(p)[..|Text(p)| - 1]
  }

  function Canon(path: string): Option<string> {
    match Reduce(path)
    case None => None
    case Some(p) => Some(Written(p))
  }

  // ---------------------------------------------------------------------------------------
  // In place
  // ---------------------------------------------------------------------------------------

  lemma {:induction false} SplitFirst(text: string, k: nat)
    requires k <= |text| && (forall i :: 0 <= i < k ==> text[i] != '/')
    requires k == |text| || text[k] == '/'
    ensures Split(text) == [text[..k]] + if k == |text| then [] else Split(text[k + 1..])
  {
    if k > 0 {
      SplitFirst(text[1..], k - 1);
      assert text[1..][..k - 1] == text[1..k];
      assert text[..k] == [text[0]] + text[1..k];
      if k < |text| {
        assert text[1..][k - 1 + 1..] == text[k + 1..];
      }
    }
  }

  /** What is still to be folded after the first component, `k` characters long. */
  lemma FoldFirst(p: Reduced, text: string, k: nat)
    requires k <= |text| && (forall i :: 0 <= i < k ==> text[i] != '/')
    requires k == |text| || text[k] == '/'
    ensures Step(p, text[..k]).None? ==> Fold(p, Split(text)) == None
    ensures Step(p, text[..k]).Some? ==>
      Fold(p, Split(text)) == if k == |text| then Step(p, text[..k])
        else Fold(Step(p, text[..k]).value, Split(text[k + 1..]))
  {
    SplitFirst(text, k);
    var parts := Split(text);
    assert parts[0] == text[..k];
    assert parts[1..] == if k == |text| then [] else Split(text[k + 1..]);
  }

  /** Where the name number `i` of a reduced path starts in its text. */
  function Offset(p: Reduced, i: nat): nat
    requires i <= |p.names|
  {
    |Text(p.(names := p.names[..i]))|
  }

  lemma LinesSnoc(parts: seq<string>, part: string)
    ensures Lines(parts + [part]) == Lines(parts) + part + "/"
  {
    assert (parts + [part])[..|parts|] == parts;
  }

  lemma PushText(p: Reduced, name: string)
    ensures Text(p.(names := p.names + [name])) == Text(p) + name + "/"
    ensures forall i :: 0 <= i <= |p.names| ==> Offset(p.(names := p.names + [name]), i) == Offset(p, i)
  {
    var q := p.names + [name];
    LinesSnoc(Parts(p), name);
    assert Parts(p.(names := q)) == Parts(p) + [name];
    assert Text(p.(names := q)) == Text(p) + name + "/";
    forall i | 0 <= i <= |p.names| ensures Offset(p.(names := q), i) == Offset(p, i) {
      assert q[..i] == p.names[..i];
    }
  }

  lemma UpKeeps(p: Reduced)
    requires p.names == []
    ensures Step(p, "..") == Some(p.(ups := p.ups + 1))
    ensures Text(p.(ups := p.ups + 1)) == Text(p) + "../"
  {
    LinesSnoc(Parts(p), "..");
    assert Parts(p.(ups := p.ups + 1)) == Parts(p) + [".."];
  }

  lemma PopText(p: Reduced)
    requires p.names != []
    ensures var q := p.(names := p.names[..|p.names| - 1]);
      Text(q) <= Text(p) && |Text(q)| == Offset(p, |p.names| - 1)
      && forall i :: 0 <= i <= |q.names| ==> Offset(q, i) == Offset(p, i)
  {
    var q := p.(names := p.names[..|p.names| - 1]);
    assert q.names + [p.names[|p.names| - 1]] == p.names;
    PushText(q, p.names[|p.names| - 1]);
    assert p == p.(names := q.names + [p.names[|p.names| - 1]]);
  }

  datatype Outcome = Done(length: nat) | EmptyPath | TooManyComponents

  /** The state between two components: `p` is what has been written up to the write cursor
      `d`, and the text from the read cursor `s` on is untouched and still to be folded. After
      the terminating NUL has been read, the last character written may be a NUL. */
  ghost predicate Between(buf: seq<char>, text: string, s: nat, d: nat, p: Reduced, goal: Option<Reduced>)
  {
    && |text| + 1 <= |buf|
    && d <= s <= |text| + 1
    && d == |Text(p)|
    && (s <= |text| ==>
          && buf[|text|] == NUL && (forall i :: s <= i < |text| ==> buf[i] == text[i])
          && buf[..d] == Text(p) && Fold(p, Split(text[s..])) == goal)
    && (s == |text| + 1 ==> goal == Some(p) && (d > 0 ==> buf[..d - 1] == Text(p)[..d - 1]))
  }

  /** The stack of component starts. */
  ghost predicate Starts(component: seq<nat>, n: nat, p: Reduced) {
    && n == |p.names| <= |component|
    && forall i {:trigger component[i]} :: 0 <= i < n ==> component[i] == Offset(p, i)
  }

  /** An empty component or a dot is passed over. */
  lemma SkipKeeps(buf: seq<char>, text: string, s: nat, d: nat, p: Reduced, goal: Option<Reduced>, k: nat)
    requires Between(buf, text, s, d, p, goal) && s + k <= |text| && k <= 1
    requires k == 1 ==> text[s] == '.'
    requires s + k == |text| || text[s + k] == '/'
    ensures Between(buf, text, s + k + 1, d, p, goal)
  {
    var rest := text[s..];
    FoldFirst(p, rest, k);
    assert rest[..k] == if k == 1 then "." else "";
    if s + k < |text| {
      assert rest[k + 1..] == text[s + k + 1..];
    }
  }

  /** Two dots take back the last name. */
  lemma PopKeeps(buf: seq<char>, text: string, s: nat, d: nat, p: Reduced, goal: Option<Reduced>)
    requires Between(buf, text, s, d, p, goal) && s + 2 <= |text| && p.names != []
    requires text[s] == text[s + 1] == '.' && (s + 2 == |text| || text[s + 2] == '/')
    ensures var q := p.(names := p.names[..|p.names| - 1]);
      Between(buf, text, s + 3, Offset(p, |p.names| - 1), q, goal)
  {
    var rest := text[s..];
    FoldFirst(p, rest, 2);
    assert rest[..2] == "..";
    PopText(p);
    var q := p.(names := p.names[..|p.names| - 1]);
    assert buf[..|Text(q)|] == Text(p)[..|Text(q)|] == Text(q);
    if s + 2 < |text| {
      assert rest[3..] == text[s + 3..];
    }
  }

  /** `after` is `before` with the characters from `s` up to and with `e` moved to `d`. */
  ghost predicate Moved(before: seq<char>, after: seq<char>, s: nat, e: nat, d: nat)
  {
    && d <= s <= e < |before| == |after|
    && (forall i :: 0 <= i < d || e < i < |before| ==> after[i] == before[i])
    && (forall i :: s <= i <= e ==> after[i - s + d] == before[i])
  }

  lemma MovedThree(before: seq<char>, after: seq<char>, s: nat, d: nat)
    requires d <= s && s + 2 < |before|
    requires after == before[d := before[s]][d + 1 := before[s + 1]][d + 2 := before[s + 2]]
    ensures Moved(before, after, s, s + 2, d)
  {
  }

  lemma MovedText(before: seq<char>, after: seq<char>, text: string, s: nat, e: nat, d: nat)
    requires Moved(before, after, s, e, d) && e <= |text| < |before|
    requires forall i :: s <= i < |text| ==> before[i] == text[i]
    requires e < |text| ==> text[e] == '/'
    ensures after[..d + e - s] == before[..d] + text[s..e]
    ensures e < |text| ==> after[..d + e - s + 1] == before[..d] + text[s..e] + "/"
  {
    forall i | 0 <= i < d + e - s
      ensures after[..d + e - s][i] == (before[..d] + text[s..e])[i]
    {
      if i >= d {
        assert after[(i - d + s) - s + d] == before[i - d + s];
      }
    }
    if e < |text| {
      assert after[e - s + d] == '/';
      assert after[..d + e - s + 1] == after[..d + e - s] + "/";
    }
  }

  /** Two dots with nothing to take back are kept, and so is a name. */
  lemma MoveKeeps(before: seq<char>, after: seq<char>, text: string, s: nat, e: nat, d: nat, p: Reduced, q: Reduced,
      goal: Option<Reduced>)
    requires Between(before, text, s, d, p, goal) && s < e <= |text| && Moved(before, after, s, e, d)
    requires forall i :: s <= i < e ==> text[i] != '/'
    requires e == |text| || text[e] == '/'
    requires Step(p, text[s..e]) == Some(q) && Text(q) == Text(p) + text[s..e] + "/"
    ensures Between(after, text, e + 1, d + e - s + 1, q, goal)
  {
    hide Text, Split;
    var rest := text[s..];
    FoldFirst(p, rest, e - s);
    assert rest[..e - s] == text[s..e];
    MovedText(before, after, text, s, e, d);
    if e < |text| {
      assert rest[e - s + 1..] == text[e + 1..];
    }
  }

  lemma DotsKeep(before: seq<char>, after: seq<char>, text: string, s: nat, d: nat, p: Reduced, goal: Option<Reduced>)
    requires Between(before, text, s, d, p, goal) && s + 2 <= |text| && d <= s && |text| < |before| && p.names == []
    requires text[s] == text[s + 1] == '.' && (s + 2 == |text| || text[s + 2] == '/')
    requires after == before[d := before[s]][d + 1 := before[s + 1]][d + 2 := before[s + 2]]
    ensures Between(after, text, s + 3, d + 3, p.(ups := p.ups + 1), goal)
  {
    hide Text, Split, Step, Fold, Between, Moved;
    UpKeeps(p);
    MovedThree(before, after, s, d);
    assert text[s..s + 2] == "..";
    MoveKeeps(before, after, text, s, s + 2, d, p, p.(ups := p.ups + 1), goal);
  }

  lemma StepName(p: Reduced, text: string, s: nat, e: nat)
    requires s < e <= |text| && (forall i :: s <= i < e ==> text[i] != '/')
    requires !(e == s + 1 && text[s] == '.')
    requires !(e == s + 2 && text[s] == '.' && text[s + 1] == '.')
    ensures Step(p, text[s..e]) == if |p.names| == MAX_COMPONENTS then None
      else Some(p.(names := p.names + [text[s..e]]))
  {
    assert text[s..e][0] == text[s];
    if e == s + 2 {
      assert text[s..e][1] == text[s + 1];
    }
  }

  /** The buffer from the read cursor on. */
  lemma Ahead(buf: seq<char>, text: string, s: nat, d: nat, p: Reduced, goal: Option<Reduced>)
    requires Between(buf, text, s, d, p, goal) && s < |text|
    ensures |text| < |buf| && buf[|text|] == NUL && d <= s && d == |Text(p)|
    ensures forall i :: s <= i < |text| ==> buf[i] == text[i]
  {
  }

  /** The start of one more name on the stack. */
  lemma PushStart(component: seq<nat>, live: nat, d: nat, p: Reduced, name: string)
    requires Starts(component, live, p) && live < |component| && d == |Text(p)|
    ensures Starts(component[live := d], live + 1, p.(names := p.names + [name]))
  {
    PushText(p, name);
    assert p.names[..|p.names|] == p.names;
    assert p.(names := p.names) == p;
  }

  lemma PopStart(component: seq<nat>, live: nat, p: Reduced)
    requires Starts(component, live, p) && live > 0
    ensures live == |p.names| <= |component| && component[live - 1] == Offset(p, live - 1)
    ensures Starts(component, live - 1, p.(names := p.names[..live - 1]))
  {
    PopText(p);
  }

  lemma UpStarts(component: seq<nat>, live: nat, p: Reduced)
    requires Starts(component, live, p) && p.names == []
    ensures Starts(component, live, p.(ups := p.ups + 1))
  {
  }

  lemma StackSize(component: seq<nat>, live: nat, p: Reduced)
    requires Starts(component, live, p)
    ensures live == |p.names| <= |component|
  {
  }

  /** Where the component at `s` ends. */
  ghost function NameEnd(text: string, s: nat): (e: nat)
    requires s <= |text|
    ensures s <= e <= |text| && (forall i :: s <= i < e ==> text[i] != '/') && (e == |text| || text[e] == '/')
    decreases |text| - s
  {
    if s == |text| || text[s] == '/' then s else NameEnd(text, s + 1)
  }

  lemma AtEnd(buf: seq<char>, text: string, s: nat, d: nat, p: Reduced, goal: Option<Reduced>)
    requires Between(buf, text, s, d, p, goal) && s >= |text|
    ensures goal == Some(p) && d == |Text(p)| <= |text| + 1
    ensures d > 0 ==> buf[..d - 1] == Text(p)[..d - 1]
  {
    if s == |text| {
      FoldFirst(p, text[s..], 0);
    }
  }

  /** A name too many. */
  lemma NoRoom(buf: seq<char>, text: string, s: nat, e: nat, d: nat, p: Reduced, goal: Option<Reduced>)
    requires Between(buf, text, s, d, p, goal) && s < e <= |text|
    requires forall i :: s <= i < e ==> text[i] != '/'
    requires e == |text| || text[e] == '/'
    requires Step(p, text[s..e]).None?
    ensures goal == None
  {
    FoldFirst(p, text[s..], e - s);
    assert text[s..][..e - s] == text[s..e];
  }

  /** Copy a component and the character that ends it. */
  method CopyComponent(buf: array<char>, s: nat, d: nat, ghost n: nat) returns (s': nat, d': nat)
    requires d <= s <= n < buf.Length && buf[n] == NUL
    modifies buf
    ensures s < s' <= n + 1 && d' == d + s' - s
    ensures forall i :: s <= i < s' - 1 ==> old(buf[i]) != '/' && old(buf[i]) != NUL
    ensures old(buf[s' - 1]) == '/' || old(buf[s' - 1]) == NUL
    ensures Moved(old(buf[..]), buf[..], s, s' - 1, d)
  {
    s', d' := s, d;
    while buf[s'] != '/' && buf[s'] != NUL
      invariant s <= s' <= n && d' == d + s' - s
      invariant forall i :: s <= i < s' ==> old(buf[i]) != '/' && old(buf[i]) != NUL
      invariant forall i :: 0 <= i < d || s' <= i < buf.Length ==> buf[i] == old(buf[i])
      invariant forall i :: s <= i < s' ==> buf[i - s + d] == old(buf[i])
      decreases n - s'
    {
      buf[d'] := buf[s'];
      d' := d' + 1;
      s' := s' + 1;
    }
    buf[d'] := buf[s'];
    d' := d' + 1;
    s' := s' + 1;
  }

  /** One turn of the loop: a slash, a dot, two dots, or a name. */
  method Turn(buf: array<char>, component: array<nat>, s: nat, d: nat, live: nat, ghost text: string, ghost p: Reduced,
      ghost goal: Option<Reduced>)
    returns (full: bool, s': nat, d': nat, live': nat, ghost q: Reduced)
    requires component.Length == MAX_COMPONENTS && s < |text| < buf.Length && NUL !in text
    requires Between(buf[..], text, s, d, p, goal) && Starts(component[..], live, p)
    modifies buf, component
    ensures full ==> goal == None
    ensures !full ==> s < s' && Between(buf[..], text, s', d', q, goal) && Starts(component[..], live', q)
    ensures q.root == p.root
  {
    hide Text, Split, Step, Fold, Between, Starts, Offset, Moved;
    full, s', d', live', q := false, s, d, live, p;
    ghost var before := buf[..];
    Ahead(before, text, s, d, p, goal);
    StackSize(component[..], live, p);
    if buf[s] == '/' {
      SkipKeeps(before, text, s, d, p, goal, 0);
      s' := s + 1;
    } else if buf[s] == '.' && (buf[s + 1] == NUL || buf[s + 1] == '/') {
      SkipKeeps(before, text, s, d, p, goal, 1);
      s' := s + 2;
    } else if buf[s] == '.' && buf[s + 1] == '.' && (buf[s + 2] == '/' || buf[s + 2] == NUL) {
      if live > 0 {
        PopKeeps(before, text, s, d, p, goal);
        PopStart(component[..], live, p);
        live' := live - 1;
        d' := component[live'];
        q := p.(names := p.names[..live']);
      } else {
        q := p.(ups := p.ups + 1);
        UpStarts(component[..], live, p);
        buf[d] := buf[s];
        buf[d + 1] := buf[s + 1];
        buf[d + 2] := buf[s + 2];
        DotsKeep(before, buf[..], text, s, d, p, goal);
        d' := d + 3;
      }
      s' := s + 3;
    } else {
      full, s', d', live', q := Enter(buf, component, s, d, live, text, p, goal);
    }
  }

  /** A name: its start is put on the stack, and it is copied. */
  method Enter(buf: array<char>, component: array<nat>, s: nat, d: nat, live: nat, ghost text: string,
      ghost p: Reduced, ghost goal: Option<Reduced>)
    returns (full: bool, s': nat, d': nat, live': nat, ghost q: Reduced)
    requires component.Length == MAX_COMPONENTS && s < |text| < buf.Length && NUL !in text
    requires Between(buf[..], text, s, d, p, goal) && Starts(component[..], live, p)
    requires buf[s] != '/'
    requires !(buf[s] == '.' && (buf[s + 1] == NUL || buf[s + 1] == '/'))
    requires !(buf[s] == '.' && buf[s + 1] == '.' && (buf[s + 2] == '/' || buf[s + 2] == NUL))
    modifies buf, component
    ensures full ==> goal == None
    ensures !full ==> s < s' && Between(buf[..], text, s', d', q, goal) && Starts(component[..], live', q)
    ensures q.root == p.root
  {
    hide Text, Split, Step, Fold, Between, Starts, Offset, Moved;
    full, s', d', live', q := false, s, d, live, p;
    ghost var before := buf[..];
    Ahead(before, text, s, d, p, goal);
    StackSize(component[..], live, p);
    ghost var e := NameEnd(text, s);
    ghost var name := text[s..e];
    StepName(p, text, s, e);
    if live == component.Length {
      NoRoom(before, text, s, e, d, p, goal);
      full := true;
      return;
    }
    PushStart(component[..], live, d, p, name);
    component[live] := d;
    live' := live + 1;
    q := p.(names := p.names + [name]);
    PushText(p, name);
    s', d' := CopyComponent(buf, s, d, |text|);
    assert s' == e + 1;
    MoveKeeps(before, buf[..], text, s, e, d, p, q, goal);
  }

  method Canonicalise(buf: array<char>, n: nat) returns (r: Outcome)
    requires n < buf.Length && buf[n] == NUL && NUL !in buf[..n]
    modifies buf
    ensures r.EmptyPath? <==> n == 0
    ensures n > 0 ==> (r.TooManyComponents? <==> Refused(old(buf[..n])))
    ensures r.Done? ==> r.length <= n && Canon(old(buf[..n])) == Some(buf[..r.length]) && buf[r.length] == NUL
  {
    hide Refused;
    if n == 0 {
      return EmptyPath;
    }
    ghost var text := buf[..n];
    ghost var goal := Reduce(text);
    ghost var p := Reduced(Absolute(text), 0, []);
    var component := new nat[MAX_COMPONENTS];
    var s: nat, d: nat, live: nat := 0, 0, 0;
    if buf[0] == '/' {
      s := 1;
      d := 1;
    }
    assert text[if p.root then 1 else 0..] == Body(text);
    while s < n
      invariant component.Length == MAX_COMPONENTS && fresh(component)
      invariant Between(buf[..], text, s, d, p, goal) && Starts(component[..], live, p)
      decreases n - s
    {
      var full;
      full, s, d, live, p := Turn(buf, component, s, d, live, text, p, goal);
      if full {
        FailsExactly(text);
        return TooManyComponents;
      }
    }
    AtEnd(buf[..], text, s, d, p, goal);
    if d == 0 {
      buf[0] := '.';
      buf[1] := NUL;
      d := 1;
      assert buf[..1] == ".";
    } else {
      d := d - 1;
      ghost var kept := buf[..d];
      buf[d] := NUL;
      assert buf[..d] == kept;
    }
    assert buf[..d] == Written(p);
    FailsExactly(text);
    r := Done(d);
  }

  // ---------------------------------------------------------------------------------------
  // The canonical form means what the path meant
  // ---------------------------------------------------------------------------------------

  predicate Plain(name: string) { name != "" && name != "." && name != ".." && '/' !in name }

  ghost predicate AllPlain(names: seq<string>) {
    forall i {:trigger names[i]} :: 0 <= i < |names| ==> Plain(names[i])
  }

  lemma {:induction false} SplitHasNoSlash(text: string)
    ensures forall i {:trigger Split(text)[i]} :: 0 <= i < |Split(text)| ==> '/' !in Split(text)[i]
  {
    if text != "" {
      SplitHasNoSlash(text[1..]);
    }
  }

  /** A folded path has plain names, and no more than the limit. */
  lemma {:induction false} FoldIsPlain(p: Reduced, parts: seq<string>)
    requires AllPlain(p.names) && |p.names| <= MAX_COMPONENTS
    requires forall i {:trigger parts[i]} :: 0 <= i < |parts| ==> '/' !in parts[i]
    ensures Fold(p, parts).Some? ==>
      var q := Fold(p, parts).value; AllPlain(q.names) && |q.names| <= MAX_COMPONENTS && q.root == p.root
    decreases parts
  {
    if parts != [] && Step(p, parts[0]).Some? {
      var q := Step(p, parts[0]).value;
      assert AllPlain(q.names);
      FoldIsPlain(q, parts[1..]);
    }
  }

  // ---------------------------------------------------------------------------------------
  // Too many components
  // ---------------------------------------------------------------------------------------

  /** How many names are live after `parts`: a name adds one, and two dots take one away if there is one. */
  function Live(parts: seq<string>): (n: nat) {
    if parts == [] then 0
    else
      var n, part := Live(parts[..|parts| - 1]), parts[|parts| - 1];
      if part == "" || part == "." then n
      else if part == ".." then if n > 0 then n - 1 else 0
      else n + 1
  }

  /** At some point more than 60 names are live. */
  ghost predicate Crowded(parts: seq<string>) {
    exists k :: 0 <= k <= |parts| && Live(parts[..k]) > 60
  }

  lemma {:induction false} LiveNames(p: Reduced, parts: seq<string>)
    requires p.names == []
    ensures Fold(p, parts).None? <==> Crowded(parts)
    ensures Fold(p, parts).Some? ==> |Fold(p, parts).value.names| == Live(parts)
  {
    if parts == [] {
      assert Live(parts[..0]) == 0;
    } else {
      var front, part := parts[..|parts| - 1], parts[|parts| - 1];
      assert parts == front + [part];
      LiveNames(p, front);
      CrowdedSnoc(front, part);
      if Fold(p, front).Some? {
        FoldSnoc(p, front, part);
        assert front[..|front|] == front;
        assert Live(front) <= 60;
      } else {
        FoldStuck(p, front, part);
      }
    }
  }

  lemma CrowdedSnoc(parts: seq<string>, part: string)
    ensures Crowded(parts + [part]) <==> Crowded(parts) || Live(parts + [part]) > 60
  {
    var all := parts + [part];
    assert all[..|all|] == all;
    assert forall k :: 0 <= k <= |parts| ==> all[..k] == parts[..k];
    if Crowded(parts) {
      var k :| 0 <= k <= |parts| && Live(parts[..k]) > 60;
      assert Live(all[..k]) > 60;
    }
    if Crowded(all) {
      var k :| 0 <= k <= |all| && Live(all[..k]) > 60;
      assert k <= |parts| ==> Live(parts[..k]) > 60;
    }
  }

  lemma {:induction false} FoldStuck(p: Reduced, parts: seq<string>, part: string)
    requires Fold(p, parts).None?
    ensures Fold(p, parts + [part]).None?
    decreases parts
  {
    assert (parts + [part])[1..] == parts[1..] + [part];
    if Step(p, parts[0]).Some? {
      FoldStuck(Step(p, parts[0]).value, parts[1..], part);
    }
  }

  ghost predicate Refused(path: string) { Crowded(Split(Body(path))) }

  /** A path is refused exactly if at some point of it more than 60 names are live. */
  lemma FailsExactly(path: string)
    ensures Canon(path).None? <==> Refused(path)
  {
    LiveNames(Reduced(Absolute(path), 0, []), Split(Body(path)));
  }

  lemma ReducedIsPlain(path: string)
    requires Reduce(path).Some?
    ensures var q := Reduce(path).value;
      AllPlain(q.names) && |q.names| <= 60 && q.root == Absolute(path)
  {
    SplitHasNoSlash(Body(path));
    FoldIsPlain(Reduced(Absolute(path), 0, []), Split(Body(path)));
  }

  lemma {:induction false} WalkAppend(dir: seq<string>, a: seq<string>, b: seq<string>)
    ensures Walk(dir, a + b) == Walk(Walk(dir, a), b)
    decreases a
  {
    if a == [] {
      assert a + b == b;
    } else {
      assert (a + b)[1..] == a[1..] + b;
      WalkAppend(Go(dir, a[0]), a[1..], b);
    }
  }

  lemma WalkNone(dir: seq<string>)
    ensures Walk(dir, []) == dir
  {
  }

  lemma WalkSnoc(dir: seq<string>, a: seq<string>, part: string)
    ensures Walk(dir, a + [part]) == Go(Walk(dir, a), part)
  {
    WalkAppend(dir, a, [part]);
    assert Walk(Go(Walk(dir, a), part), []) == Go(Walk(dir, a), part);
  }

  /** One component is folded: the directory reached is the same. */
  lemma StepMeans(dir: seq<string>, p: Reduced, part: string)
    requires AllPlain(p.names) && Step(p, part).Some?
    ensures Walk(dir, Parts(Step(p, part).value)) == Go(Walk(dir, Parts(p)), part)
  {
    var q := Step(p, part).value;
    if part == ".." && p.names != [] {
      var name := p.names[|p.names| - 1];
      assert Parts(p) == Parts(q) + [name];
      WalkSnoc(dir, Parts(q), name);
    } else if part != "" && part != "." {
      assert Parts(q) == Parts(p) + [part];
      WalkSnoc(dir, Parts(p), part);
    }
  }

  lemma {:induction false} FoldMeans(dir: seq<string>, p: Reduced, parts: seq<string>)
    requires AllPlain(p.names) && |p.names| <= MAX_COMPONENTS && Fold(p, parts).Some?
    requires forall i {:trigger parts[i]} :: 0 <= i < |parts| ==> '/' !in parts[i]
    ensures Walk(dir, Parts(Fold(p, parts).value)) == Walk(Walk(dir, Parts(p)), parts)
    decreases parts
  {
    if parts != [] {
      FoldIsPlain(p, [parts[0]]);
      var q := Step(p, parts[0]).value;
      assert Fold(p, [parts[0]]) == Some(q) by { assert Fold(q, []) == Some(q); }
      StepMeans(dir, p, parts[0]);
      FoldMeans(dir, q, parts[1..]);
    }
  }

  lemma ReduceMeans(cwd: seq<string>, path: string)
    requires Reduce(path).Some?
    ensures Walk(if Absolute(path) then [] else cwd, Parts(Reduce(path).value)) == Resolve(cwd, path)
  {
    SplitHasNoSlash(Body(path));
    var none := Reduced(Absolute(path), 0, []);
    assert Parts(none) == [];
    FoldMeans(if Absolute(path) then [] else cwd, none, Split(Body(path)));
  }

  // Reading a written path back.

  lemma SplitNext(c: char, text: string)
    ensures Split([c] + text) == if c == '/' then [""] + Split(text) else [[c] + Split(text)[0]] + Split(text)[1..]
  {
    assert ([c] + text)[1..] == text;
  }

  lemma {:induction false} SplitJoin(a: string, b: string)
    ensures Split(a + "/" + b) == Split(a) + Split(b)
  {
    if a == "" {
      SplitNext('/', b);
      assert a + "/" + b == ['/'] + b;
    } else {
      hide Split;
      var rest := a[1..] + "/" + b;
      SplitJoin(a[1..], b);
      SplitNext(a[0], rest);
      SplitNext(a[0], a[1..]);
      HeadFirst(a, b);
      FirstLonger(a[0], Split(a[1..]), Split(b));
    }
  }

  lemma FirstLonger(c: char, p: seq<string>, q: seq<string>)
    requires p != []
    ensures [[c] + (p + q)[0]] + (p + q)[1..] == [[c] + p[0]] + p[1..] + q
    ensures [""] + (p + q) == [""] + p + q
  {
    assert (p + q)[1..] == p[1..] + q;
  }

  lemma HeadFirst(a: string, b: string)
    requires a != ""
    ensures a == [a[0]] + a[1..] && a + "/" + b == [a[0]] + (a[1..] + "/" + b)
  {
  }

  lemma SplitNone()
    ensures Split("") == [""]
  {
  }

  /** Splitting the lines of a path gives its components and an empty one. */
  lemma {:induction false} SplitLines(parts: seq<string>)
    requires forall i {:trigger parts[i]} :: 0 <= i < |parts| ==> '/' !in parts[i]
    ensures Split(Lines(parts)) == parts + [""]
    ensures parts != [] ==> Split(Lines(parts)[..|Lines(parts)| - 1]) == parts
  {
    if parts != [] {
      hide Split, Lines;
      var front, last := parts[..|parts| - 1], parts[|parts| - 1];
      SplitLines(front);
      SplitNone();
      var before := Lines(front) + last;
      LinesEnd(front, last);
      SplitJoin(before, "");
      assert parts == front + [last];
      if front == [] {
        OnlyName(last);
      } else {
        LinesFront(front);
        SplitFirst(last, |last|);
        assert last[..|last|] == last;
        SplitJoin(Lines(front)[..|Lines(front)| - 1], last);
      }
    }
  }

  lemma LinesEnd(front: seq<string>, last: string)
    ensures var lines, before := Lines(front + [last]), Lines(front) + last;
      lines == before + "/" + "" && lines[..|lines| - 1] == before
  {
    LinesSnoc(front, last);
  }

  lemma LinesFront(parts: seq<string>)
    requires parts != []
    ensures Lines(parts) != "" && Lines(parts) == Lines(parts)[..|Lines(parts)| - 1] + "/"
  {
  }

  lemma OnlyName(name: string)
    requires '/' !in name
    ensures Lines([]) + name == name && Split(name) == [name]
  {
    hide Split;
    SplitFirst(name, |name|);
    assert name[..|name|] == name;
  }

  lemma {:induction false} FoldSnoc(p: Reduced, parts: seq<string>, part: string)
    requires Fold(p, parts).Some?
    ensures Fold(p, parts + [part]) == Step(Fold(p, parts).value, part)
    decreases parts
  {
    if parts == [] {
      assert Step(p, part).Some? ==> Fold(Step(p, part).value, []) == Step(p, part);
    } else {
      assert (parts + [part])[1..] == parts[1..] + [part];
      FoldSnoc(Step(p, parts[0]).value, parts[1..], part);
    }
  }

  /** The components of a reduced path reduce to it. */
  lemma {:induction false} FoldParts(p: Reduced)
    requires AllPlain(p.names) && |p.names| <= MAX_COMPONENTS
    ensures Fold(Reduced(p.root, 0, []), Parts(p)) == Some(p)
    decreases p.ups + |p.names|
  {
    if p.names != [] {
      var q := p.(names := p.names[..|p.names| - 1]);
      FoldParts(q);
      assert Parts(p) == Parts(q) + [p.names[|p.names| - 1]];
      FoldSnoc(Reduced(p.root, 0, []), Parts(q), p.names[|p.names| - 1]);
      assert q.names + [p.names[|p.names| - 1]] == p.names;
    } else if p.ups > 0 {
      var q := p.(ups := p.ups - 1);
      FoldParts(q);
      assert Parts(p) == Parts(q) + [".."];
      FoldSnoc(Reduced(p.root, 0, []), Parts(q), "..");
    } else {
      assert Parts(p) == [];
    }
  }

  lemma PartsHaveNoSlash(p: Reduced)
    requires AllPlain(p.names)
    ensures forall i {:trigger Parts(p)[i]} :: 0 <= i < |Parts(p)| ==> '/' !in Parts(p)[i] && Parts(p)[i] != ""
  {
  }

  /** A written path, unless it is the root, is read back as the components it was written from. */
  lemma WrittenReads(p: Reduced)
    requires AllPlain(p.names) && Written(p) != ""
    ensures Absolute(Written(p)) == p.root
    ensures Split(Body(Written(p))) == if Parts(p) == [] then ["."] else Parts(p)
  {
    hide Split, Lines;
    PartsHaveNoSlash(p);
    SplitLines(Parts(p));
    var parts := Parts(p);
    if parts != [] {
      LinesStart(parts);
      WithoutSlash(p);
    } else {
      NoLines();
      assert !p.root && Written(p) == ".";
      SplitFirst(".", 1);
      assert "."[..1] == ".";
    }
  }

  lemma NoLines()
    ensures Lines([]) == ""
  {
  }

  lemma WithoutSlash(p: Reduced)
    requires |Lines(Parts(p))| >= 2 && Lines(Parts(p))[0] != '/'
    ensures var text := Lines(Parts(p));
      Absolute(Written(p)) == p.root && Body(Written(p)) == text[..|text| - 1]
  {
    hide Lines, Parts;
    var text := Lines(Parts(p));
    if p.root {
      assert Written(p) == "/" + text[..|text| - 1];
    } else {
      assert Text(p) == text;
    }
  }

  lemma {:induction false} LinesStart(parts: seq<string>)
    requires parts != [] && parts[0] != ""
    ensures |Lines(parts)| >= 2 && Lines(parts)[0] == parts[0][0]
  {
    if |parts| > 1 {
      LinesStart(parts[..|parts| - 1]);
    } else {
      assert Lines(parts[..0]) == "";
    }
  }

  lemma WrittenReduces(p: Reduced)
    requires AllPlain(p.names) && |p.names| <= MAX_COMPONENTS && Written(p) != ""
    ensures Reduce(Written(p)) == Some(p)
  {
    WrittenReads(p);
    FoldParts(p);
    if Parts(p) == [] {
      assert p == Reduced(p.root, 0, []) && ["."][1..] == [];
    }
  }

  // ---------------------------------------------------------------------------------------
  // The theorems
  // ---------------------------------------------------------------------------------------

  /** The result is the empty string exactly for an absolute path that comes back to the root
      without climbing above it. */
  lemma EmptyExactlyAtRoot(path: string)
    requires Canon(path).Some?
    ensures Canon(path).value == "" <==> Reduce(path) == Some(Reduced(true, 0, []))
  {
    ReducedIsPlain(path);
    var p := Reduce(path).value;
    PartsHaveNoSlash(p);
    if Parts(p) != [] {
      LinesStart(Parts(p));
      assert Written(p) != "";
    }
  }

  /** The shortest path that is lost. */
  lemma RootIsLost()
    ensures Canon("/") == Some("")
  {
    assert Body("/") == "" && Absolute("/");
    assert Split("") == [""];
    assert Fold(Reduced(true, 0, []), [""]) == Some(Reduced(true, 0, []));
    assert Reduce("/") == Some(Reduced(true, 0, []));
    EmptyExactlyAtRoot("/");
  }

  /** Canonicalising twice is canonicalising once, exactly when the result is not empty; an
      empty path is an error. */
  lemma Idempotent(path: string)
    requires Canon(path).Some?
    ensures Canon(path).value != "" ==> Canon(Canon(path).value) == Canon(path)
    ensures Canon(path).value == "" ==> Canon(Canon(path).value) != Canon(path)
  {
    ReducedIsPlain(path);
    if Canon(path).value != "" {
      WrittenReduces(Reduce(path).value);
    } else {
      assert Fold(Reduced(false, 0, []), [""]) == Some(Reduced(false, 0, [])) by {
        assert Fold(Reduced(false, 0, []), [""][1..]) == Some(Reduced(false, 0, []));
      }
    }
  }

  /** The canonical form leads where the path led, from every directory, exactly when it is
      not empty. */
  lemma KeepsMeaning(path: string)
    requires Canon(path).Some?
    ensures Canon(path).value != "" <==> SameMeaning(path, Canon(path).value)
  {
    ReducedIsPlain(path);
    var p := Reduce(path).value;
    var out := Canon(path).value;
    if out != "" {
      WrittenReduces(p);
      forall cwd | AllPlain(cwd) ensures Resolve(cwd, path) == Resolve(cwd, out) {
        WrittenReads(p);
        ReduceMeans(cwd, path);
        ReduceMeans(cwd, out);
      }
    } else {
      EmptyExactlyAtRoot(path);
      ReduceMeans(["a"], path);
      assert Parts(p) == [];
      assert Resolve(["a"], path) == [];
      assert Resolve(["a"], "") == ["a"] by {
        assert Walk(["a"], [""][1..]) == ["a"];
      }
      assert AllPlain(["a"]);
    }
  }

  ghost predicate SameMeaning(p: string, q: string) {
    forall cwd {:trigger Resolve(cwd, p)} {:trigger Resolve(cwd, q)} :: AllPlain(cwd) ==>
      Resolve(cwd, p) == Resolve(cwd, q)
  }

  /** Where a reduced relative path leads from a directory that is deep enough. */
  lemma {:induction false} WalkDeep(dir: seq<string>, p: Reduced)
    requires AllPlain(p.names) && p.ups <= |dir|
    ensures Walk(dir, Parts(p)) == dir[..|dir| - p.ups] + p.names
    decreases p.ups + |p.names|
  {
    WalkNone(dir);
    hide Walk;
    if p.names != [] {
      var q := p.(names := p.names[..|p.names| - 1]);
      WalkDeep(dir, q);
      assert Parts(p) == Parts(q) + [p.names[|p.names| - 1]];
      WalkSnoc(dir, Parts(q), p.names[|p.names| - 1]);
    } else if p.ups > 0 {
      var q := p.(ups := p.ups - 1);
      WalkDeep(dir, q);
      assert Parts(p) == Parts(q) + [".."];
      WalkSnoc(dir, Parts(q), "..");
    } else {
      assert Parts(p) == [];
    }
  }

  /** A reduced path is determined by where it leads from two directories without a common name. */
  lemma DeepDecides(p: Reduced, q: Reduced, a: seq<string>, b: seq<string>)
    requires p.ups <= |a| == |b| && q.ups <= |a| && p.root == q.root
    requires forall i {:trigger a[i]} :: 0 <= i < |a| ==> a[i] != b[i]
    requires a[..|a| - p.ups] + p.names == a[..|a| - q.ups] + q.names
    requires b[..|b| - p.ups] + p.names == b[..|b| - q.ups] + q.names
    ensures p == q
  {
    if p.ups < q.ups {
      Covered(p, q, a);
      Covered(p, q, b);
    } else if q.ups < p.ups {
      Covered(q, p, a);
      Covered(q, p, b);
    } else {
      var n := |a| - p.ups;
      assert p.names == (a[..n] + p.names)[n..];
      assert q.names == (a[..n] + q.names)[n..];
    }
  }

  /** What the path that climbs higher must name itself. */
  lemma Covered(p: Reduced, q: Reduced, a: seq<string>)
    requires p.ups < q.ups <= |a|
    requires a[..|a| - p.ups] + p.names == a[..|a| - q.ups] + q.names
    ensures q.names != [] && q.names[0] == a[|a| - q.ups]
  {
    var i := |a| - q.ups;
    assert |a[..|a| - p.ups] + p.names| == |a[..i] + q.names|;
    assert a[i] == (a[..|a| - p.ups] + p.names)[i] == (a[..i] + q.names)[i];
  }

  lemma WrittenOnce(p: Reduced, q: Reduced)
    requires AllPlain(p.names) && AllPlain(q.names) && |p.names| <= MAX_COMPONENTS && |q.names| <= MAX_COMPONENTS
    requires Written(p) == Written(q) && Written(p) != ""
    ensures p == q
  {
    WrittenReduces(p);
    WrittenReduces(q);
  }

  /** Two relative paths get the same canonical form exactly if they lead to the same place
      from every directory. */
  lemma RelativeIsUnique(path: string, other: string)
    requires !Absolute(path) && !Absolute(other) && Canon(path).Some? && Canon(other).Some?
    ensures Canon(path) == Canon(other) <==> SameMeaning(path, other)
  {
    ReducedIsPlain(path);
    ReducedIsPlain(other);
    var p, q := Reduce(path).value, Reduce(other).value;
    EmptyExactlyAtRoot(path);
    EmptyExactlyAtRoot(other);
    if Canon(path) == Canon(other) {
      WrittenOnce(p, q);
      forall cwd | AllPlain(cwd) ensures Resolve(cwd, path) == Resolve(cwd, other) {
        ReduceMeans(cwd, path);
        ReduceMeans(cwd, other);
      }
    }
    if SameMeaning(path, other) {
      SameMeaningSameForm(path, other);
    }
  }

  lemma SameMeaningSameForm(path: string, other: string)
    requires !Absolute(path) && !Absolute(other) && Reduce(path).Some? && Reduce(other).Some?
    requires SameMeaning(path, other)
    ensures Reduce(path) == Reduce(other)
  {
    hide Reduce, Resolve;
    ReducedIsPlain(path);
    ReducedIsPlain(other);
    var p, q := Reduce(path).value, Reduce(other).value;
    var n := p.ups + q.ups;
    var a, b := seq(n, _ => "a"), seq(n, _ => "b");
    assert AllPlain(a) && AllPlain(b);
    LeadsTo(path, a);
    LeadsTo(path, b);
    LeadsTo(other, a);
    LeadsTo(other, b);
    DeepDecides(p, q, a, b);
  }

  lemma LeadsTo(path: string, dir: seq<string>)
    requires !Absolute(path) && Reduce(path).Some? && Reduce(path).value.ups <= |dir|
    ensures Resolve(dir, path) == dir[..|dir| - Reduce(path).value.ups] + Reduce(path).value.names
  {
    ReducedIsPlain(path);
    ReduceMeans(dir, path);
    WalkDeep(dir, Reduce(path).value);
  }

  /** Two absolute paths get the same canonical form exactly if they lead to the same place and
      climb above the root the same number of times. */
  lemma AbsoluteIsUnique(path: string, other: string)
    requires Absolute(path) && Absolute(other) && Canon(path).Some? && Canon(other).Some?
    ensures Canon(path) == Canon(other) <==>
      Reduce(path).value.ups == Reduce(other).value.ups && Resolve([], path) == Resolve([], other)
  {
    ReducedIsPlain(path);
    ReducedIsPlain(other);
    var p, q := Reduce(path).value, Reduce(other).value;
    EmptyExactlyAtRoot(path);
    EmptyExactlyAtRoot(other);
    if Canon(path) == Canon(other) && Canon(path).value != "" {
      WrittenOnce(p, q);
    }
    ReduceMeans([], path);
    ReduceMeans([], other);
    WalkFromRoot(p);
    WalkFromRoot(q);
  }

  lemma {:induction false} WalkFromRoot(p: Reduced)
    requires AllPlain(p.names)
    ensures Walk([], Parts(p)) == p.names
    decreases p.ups + |p.names|
  {
    if p.names != [] {
      var q := p.(names := p.names[..|p.names| - 1]);
      WalkFromRoot(q);
      assert Parts(p) == Parts(q) + [p.names[|p.names| - 1]];
      WalkSnoc([], Parts(q), p.names[|p.names| - 1]);
    } else if p.ups > 0 {
      var q := p.(ups := p.ups - 1);
      WalkFromRoot(q);
      assert Parts(p) == Parts(q) + [".."];
      WalkSnoc([], Parts(q), "..");
    } else {
      assert Parts(p) == [];
    }
  }
}
