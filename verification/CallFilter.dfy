/** The filter that strips raw tool calls out of a token stream. The class is the
    streaming state machine; `Visible` is what it must show of a whole text. */
module CallFilter {
  import opened Text

  /** Bytes a call body may hold before it is released as text. */
  const CALL_CAP: nat := 4000

  // ------------------------------------------------------------------ whole text

  predicate IsBlank(c: char) {
    c == ' ' || c == '\t'
  }

  function Blanks(t: string): (n: nat)
    ensures n <= |t|
    ensures forall i :: 0 <= i < n ==> IsBlank(t[i])
    ensures n < |t| ==> !IsBlank(t[n])
  {
    if t != [] && IsBlank(t[0]) then 1 + Blanks(t[1..]) else 0
  }

  function WordLength(t: string): (n: nat)
    ensures n <= |t|
    ensures forall i :: 0 <= i < n ==> IsWordChar(t[i])
    ensures n < |t| ==> !IsWordChar(t[n])
  {
    if t != [] && IsWordChar(t[0]) then 1 + WordLength(t[1..]) else 0
  }

  /** The length of `blanks name (` when the line `t` opens with a call. */
  function CallHead(names: seq<string>, t: string): (head: Option<nat>)
    ensures head.Some? ==> 1 <= head.value <= |t| && t[head.value - 1] == '('
  {
    var b := Blanks(t);
    var e := b + WordLength(t[b..]);
    if e < |t| && t[e] == '(' && t[b..e] in names then Some(e + 1) else None
  }

  /** Where the reader stands inside a call body. */
  datatype Lexer = Lexer(depth: int, inString: bool, escape: bool)

  const OPENED := Lexer(1, false, false)

  function Lex(l: Lexer, c: char): Lexer {
    if l.inString then
      if l.escape then l.(escape := false)
      else if c == '\\' then l.(escape := true)
      else if c == '"' then l.(inString := false)
      else l
    else if c == '"' then l.(inString := true)
    else if c == '(' || c == '{' || c == '[' then l.(depth := l.depth + 1)
    else if c == ')' || c == '}' || c == ']' then l.(depth := l.depth - 1)
    else l
  }

  function LexAll(l: Lexer, s: string): Lexer
    decreases s
  {
    if s == [] then l else LexAll(Lex(l, s[0]), s[1..])
  }

  /** The first `k` characters of `body` balance the parenthesis that opened it. */
  predicate Closes(body: string, k: nat)
    requires k <= |body|
  {
    LexAll(OPENED, body[..k]).depth <= 0
  }

  predicate Overruns(body: string, k: nat)
    requires k <= |body|
  {
    Utf8Size(body[..k]) > CALL_CAP
  }

  /** How a call body ends: balanced, given up on past the cap, or not at all. */
  datatype End = Closed(at: nat) | Overflow(at: nat) | Open

  function EndFrom(body: string, k: nat): (e: End)
    requires k <= |body|
    ensures !e.Open? ==> k < e.at <= |body|
    ensures e.Closed? ==> Closes(body, e.at)
    ensures e.Overflow? ==> Overruns(body, e.at) && !Closes(body, e.at)
    ensures forall i :: k < i <= |body| && (e.Open? || i < e.at) ==> !Closes(body, i) && !Overruns(body, i)
    decreases |body| - k
  {
    if k == |body| then Open
    else if Closes(body, k + 1) then Closed(k + 1)
    else if Overruns(body, k + 1) then Overflow(k + 1)
    else EndFrom(body, k + 1)
  }

  /** What the user sees of `t`, read from the start of a line. */
  function AtLineStart(names: seq<string>, t: string): string
    decreases |t|, 2
  {
    match CallHead(names, t)
    case Some(head) => AfterOpening(names, t[head..])
    case None => MidLine(names, t)
  }

  /** What the user sees of the text after `name(`. */
  function AfterOpening(names: seq<string>, body: string): string
    decreases |body|, 3
  {
    BodyEndingAt(names, body, EndFrom(body, 0))
  }

  function BodyEndingAt(names: seq<string>, body: string, e: End): string
    requires e.Open? || 0 < e.at <= |body|
    decreases |body|, 1
  {
    match e
    case Closed(k) => AtLineStart(names, SkipWhitespace(body[k..]))
    case Overflow(k) => body[..k] + MidLine(names, body[k..])
    case Open => ""
  }

  function MidLine(names: seq<string>, t: string): string
    decreases |t|, 0
  {
    if t == [] then ""
    else if t[0] == '\n' then "\n" + AtLineStart(names, t[1..])
    else [t[0]] + MidLine(names, t[1..])
  }

  function SkipWhitespace(t: string): (r: string)
    ensures |r| <= |t| && r == t[|t| - |r|..]
  {
    if t != [] && IsWhitespace(t[0]) then SkipWhitespace(t[1..]) else t
  }

  /** The whole-text meaning of the filter. */
  function Visible(names: seq<string>, t: string): string {
    AtLineStart(names, t)
  }

  // ----------------------------------------------------------- the state machine

  datatype CallState = CallState(raw: string, lexer: Lexer)

  datatype State = State(
    candidate: Option<string>, lineStart: bool, call: Option<CallState>, eatWhitespace: bool)

  datatype Reply = Reply(state: State, shown: string)

  const INITIAL := State(None, true, None, false)

  /** One character of the stream. */
  function Step(names: seq<string>, s: State, c: char): Reply {
    if s.call.Some? then StepCall(s, c)
    else if s.eatWhitespace && IsWhitespace(c) then Reply(s, "")
    else if s.candidate.Some? || s.lineStart then StepCandidate(names, s.(eatWhitespace := false), c)
    else Reply(s.(eatWhitespace := false, lineStart := c == '\n'), [c])
  }

  function StepCall(s: State, c: char): Reply
    requires s.call.Some?
  {
    var raw := s.call.value.raw + [c];
    var lexer := Lex(s.call.value.lexer, c);
    if lexer.depth <= 0 then Reply(s.(call := None, lineStart := true, eatWhitespace := true), "")
    else if Utf8Size(raw) > CALL_CAP then Reply(s.(call := None, lineStart := false), raw)
    else Reply(s.(call := Some(CallState(raw, lexer))), "")
  }

  function StepCandidate(names: seq<string>, s: State, c: char): Reply
    requires s.call.None?
  {
    var candidate := s.candidate.GetOr("");
    var body := TrimStart(candidate);
    var taken := s.(candidate := None);
    if c == '\n' then
      Reply(taken.(lineStart := true), candidate + "\n")
    else if IsBlank(c) && body == "" then
      Reply(taken.(candidate := Some(candidate + [c])), "")
    else if c == '(' && body in names then
      Reply(taken.(call := Some(CallState("", OPENED))), "")
    else if IsWordChar(c) && SomePrefix(names, body + [c]) then
      Reply(taken.(candidate := Some(candidate + [c])), "")
    else
      Reply(taken.(lineStart := false), candidate + [c])
  }

  /** Some name starts with `s`. */
  predicate SomePrefix(names: seq<string>, s: string) {
    exists i :: 0 <= i < |names| && s <= names[i]
  }

  function Run(names: seq<string>, s: State, t: string): Reply
    decreases t
  {
    if t == [] then Reply(s, "")
    else
      var first := Step(names, s, t[0]);
      var rest := Run(names, first.state, t[1..]);
      Reply(rest.state, first.shown + rest.shown)
  }

  /** End of stream: a pending candidate is released, an open call is dropped. */
  function AtEnd(s: State): Reply {
    Reply(s.(candidate := None, call := None), s.candidate.GetOr(""))
  }

  /** A pending candidate is blanks followed by the beginning of some name. */
  predicate Pending(names: seq<string>, candidate: string) {
    var b := Blanks(candidate);
    (forall i :: b <= i < |candidate| ==> IsWordChar(candidate[i]))
    && (b == |candidate| || SomePrefix(names, candidate[b..]))
  }

  /** An open call is exactly the unfinished reading of the body so far. */
  predicate Unfinished(call: CallState) {
    call.lexer == LexAll(OPENED, call.raw) && EndFrom(call.raw, 0).Open?
  }

  predicate WellFormed(names: seq<string>, s: State) {
    && (s.call.Some? ==> s.candidate.None? && !s.eatWhitespace && Unfinished(s.call.value))
    && (s.eatWhitespace ==> s.lineStart && s.candidate.None?)
    && (s.candidate.Some? ==> s.lineStart && Pending(names, s.candidate.value))
  }

  /** What a well-formed state still owes the user when `t` is all that follows. */
  function Owed(names: seq<string>, s: State, t: string): string {
    if s.call.Some? then AfterOpening(names, s.call.value.raw + t)
    else if s.eatWhitespace then AtLineStart(names, SkipWhitespace(t))
    else if s.lineStart || s.candidate.Some? then AtLineStart(names, s.candidate.GetOr("") + t)
    else MidLine(names, t)
  }

  // ------------------------------------------------------------------- the class

  class CallFilter {
    const names: seq<string>
    var candidate: Option<string>
    var lineStart: bool
    var call: Option<CallState>
    var eatWhitespace: bool

    constructor (names: seq<string>)
      ensures this.names == names && Snapshot() == INITIAL
    {
      this.names := names;
      candidate, lineStart, call, eatWhitespace := None, true, None, false;
    }

    function Snapshot(): State
      reads this
    {
      State(candidate, lineStart, call, eatWhitespace)
    }

    method Feed(chunk: string) returns (output: string)
      modifies this
      ensures Reply(Snapshot(), output) == Run(names, old(Snapshot()), chunk)
    {
      output := "";
      for i := 0 to |chunk|
        invariant Reply(Snapshot(), output) == Run(names, old(Snapshot()), chunk[..i])
      {
        RunSnoc(names, old(Snapshot()), chunk[..i], chunk[i]);
        assert chunk[..i] + [chunk[i]] == chunk[..i + 1];
        var shown := Character(chunk[i]);
        output := output + shown;
      }
      assert chunk[..|chunk|] == chunk;
    }

    method Finish() returns (output: string)
      modifies this
      ensures Reply(Snapshot(), output) == AtEnd(old(Snapshot()))
    {
      output := "";
      if candidate.Some? {
        output := output + candidate.value;
        candidate := None;
      }
      call := None;
    }

    method Character(c: char) returns (shown: string)
      modifies this
      ensures Reply(Snapshot(), shown) == Step(names, old(Snapshot()), c)
    {
      shown := "";
      if call.Some? {
        var CallState(raw, lexer) := call.value;
        call := None;
        raw := raw + [c];
        if lexer.inString {
          if lexer.escape {
            lexer := lexer.(escape := false);
          } else if c == '\\' {
            lexer := lexer.(escape := true);
          } else if c == '"' {
            lexer := lexer.(inString := false);
          }
        } else {
          match c {
            case '"' => lexer := lexer.(inString := true);
            case '(' | '{' | '[' => lexer := lexer.(depth := lexer.depth + 1);
            case ')' | '}' | ']' => lexer := lexer.(depth := lexer.depth - 1);
            case _ =>
          }
        }
        if lexer.depth <= 0 {
          lineStart, eatWhitespace := true, true;
          return;
        }
        if Utf8Size(raw) > CALL_CAP {
          shown := raw;
          lineStart := false;
          return;
        }
        call := Some(CallState(raw, lexer));
        return;
      }
      if eatWhitespace {
        if IsWhitespace(c) {
          return;
        }
        eatWhitespace := false;
      }
      if candidate.Some? || lineStart {
        shown := CandidateCharacter(c);
        return;
      }
      shown := [c];
      lineStart := c == '\n';
    }

    method CandidateCharacter(c: char) returns (shown: string)
      requires call.None?
      modifies this
      ensures Reply(Snapshot(), shown) == StepCandidate(names, old(Snapshot()), c)
    {
      shown := "";
      var held := candidate.GetOr("");
      candidate := None;
      var body := TrimStart(held);
      if c == '\n' {
        shown := held + "\n";
        lineStart := true;
        return;
      }
      if (c == ' ' || c == '\t') && body == "" {
        candidate := Some(held + [c]);
        return;
      }
      if c == '(' && body in names {
        call := Some(CallState("", OPENED));
        return;
      }
      if IsWordChar(c) {
        var grown := body + [c];
        if exists i :: 0 <= i < |names| && grown <= names[i] {
          candidate := Some(held + [c]);
          return;
        }
      }
      shown := held + [c];
      lineStart := false;
    }
  }

  /** A whole stream through one filter, however it was cut into chunks. */
  method Stream(names: seq<string>, chunks: seq<string>) returns (shown: string)
    ensures shown == Visible(names, Flatten(chunks))
  {
    var filter := new CallFilter(names);
    shown := "";
    for i := 0 to |chunks|
      invariant filter.names == names
      invariant Reply(filter.Snapshot(), shown) == Run(names, INITIAL, Flatten(chunks[..i]))
    {
      RunConcat(names, INITIAL, Flatten(chunks[..i]), chunks[i]);
      FlattenSnoc(chunks[..i], chunks[i]);
      assert chunks[..i] + [chunks[i]] == chunks[..i + 1];
      var part := filter.Feed(chunks[i]);
      shown := shown + part;
    }
    assert chunks[..|chunks|] == chunks;
    RunRefinesVisible(names, Flatten(chunks));
    var last := filter.Finish();
    shown := shown + last;
  }

  // ------------------------------------------------------- composition of runs

  lemma {:induction false} RunConcat(names: seq<string>, s: State, a: string, b: string)
    ensures Run(names, s, a + b)
         == Reply(Run(names, Run(names, s, a).state, b).state,
                  Run(names, s, a).shown + Run(names, Run(names, s, a).state, b).shown)
    decreases a
  {
    if a == [] {
      assert a + b == b;
    } else {
      assert (a + b)[1..] == a[1..] + b;
      RunConcat(names, Step(names, s, a[0]).state, a[1..], b);
    }
  }

  lemma RunSnoc(names: seq<string>, s: State, a: string, c: char)
    ensures Run(names, s, a + [c])
         == Reply(Step(names, Run(names, s, a).state, c).state,
                  Run(names, s, a).shown + Step(names, Run(names, s, a).state, c).shown)
  {
    RunConcat(names, s, a, [c]);
    var r := Step(names, Run(names, s, a).state, c);
    assert [c][1..] == [];
    assert r.shown + "" == r.shown;
  }

  // ----------------------------------------------------------------- refinement

  lemma {:induction false} LexAllSnoc(l: Lexer, s: string, c: char)
    ensures LexAll(l, s + [c]) == Lex(LexAll(l, s), c)
    decreases s
  {
    if s == [] {
      assert s + [c] == [c];
    } else {
      assert (s + [c])[1..] == s[1..] + [c];
      LexAllSnoc(Lex(l, s[0]), s[1..], c);
    }
  }

  /** Characters after the end of a body do not move it. */
  lemma {:induction false} EndIsLocal(body: string, rest: string, k: nat)
    requires k <= |body|
    ensures !EndFrom(body, k).Open? ==> EndFrom(body + rest, k) == EndFrom(body, k)
    ensures EndFrom(body, k).Open? ==> EndFrom(body + rest, k) == EndFrom(body + rest, |body|)
    decreases |body| - k
  {
    if k < |body| {
      assert (body + rest)[..k + 1] == body[..k + 1];
      EndIsLocal(body, rest, k + 1);
    }
  }

  lemma {:induction false} MidLineKeeps(names: seq<string>, p: string, t: string)
    requires '\n' !in p
    ensures MidLine(names, p + t) == p + MidLine(names, t)
  {
    if p == [] {
      assert p + t == t;
    } else {
      assert (p + t)[1..] == p[1..] + t;
      MidLineKeeps(names, p[1..], t);
    }
  }

  lemma {:induction false} BlanksOf(p: string, t: string)
    requires forall i :: 0 <= i < |p| ==> IsBlank(p[i])
    requires t != [] ==> !IsBlank(t[0])
    ensures Blanks(p + t) == |p|
  {
    if p == [] {
      assert p + t == t;
    } else {
      assert (p + t)[1..] == p[1..] + t;
      BlanksOf(p[1..], t);
    }
  }

  lemma {:induction false} WordLengthOf(w: string, t: string)
    requires forall i :: 0 <= i < |w| ==> IsWordChar(w[i])
    requires t != [] ==> !IsWordChar(t[0])
    ensures WordLength(w + t) == |w|
  {
    if w == [] {
      assert w + t == t;
    } else {
      assert (w + t)[1..] == w[1..] + t;
      WordLengthOf(w[1..], t);
    }
  }

  lemma {:induction false} TrimBlanks(p: string, w: string)
    requires forall i :: 0 <= i < |p| ==> IsBlank(p[i])
    requires w != [] ==> IsWordChar(w[0])
    ensures TrimStart(p + w) == w
  {
    if p == [] {
      assert p + w == w;
    } else {
      assert (p + w)[1..] == p[1..] + w;
      TrimBlanks(p[1..], w);
    }
  }

  /** Where the blanks and the word of a line end. */
  lemma LineShape(p: string, w: string, rest: string)
    requires forall i :: 0 <= i < |p| ==> IsBlank(p[i])
    requires forall i :: 0 <= i < |w| ==> IsWordChar(w[i])
    requires rest != [] ==> !IsWordChar(rest[0]) && (w == "" ==> !IsBlank(rest[0]))
    ensures Blanks(p + (w + rest)) == |p|
    ensures (p + (w + rest))[|p|..] == w + rest
    ensures WordLength(w + rest) == |w|
    ensures (p + (w + rest))[|p|..|p| + |w|] == w
  {
    BlanksOf(p, w + rest);
    WordLengthOf(w, rest);
    assert (p + (w + rest))[|p|..] == w + rest;
    assert (w + rest)[..|w|] == w;
  }

  /** A line that begins with blanks, a word and then something else decides its head there. */
  lemma HeadOf(names: seq<string>, p: string, w: string, c: char, t: string)
    requires forall i :: 0 <= i < |p| ==> IsBlank(p[i])
    requires forall i :: 0 <= i < |w| ==> IsWordChar(w[i])
    requires !IsWordChar(c) && (w == "" ==> !IsBlank(c))
    ensures CallHead(names, p + (w + ([c] + t)))
         == if c == '(' && w in names then Some(|p| + |w| + 1) else None
  {
    LineShape(p, w, [c] + t);
    var line := p + (w + ([c] + t));
    assert line[|p| + |w|] == c;
  }

  /** A word no name starts with cannot open a call, whatever follows it. */
  lemma HeadOfUnknown(names: seq<string>, p: string, w: string, t: string)
    requires forall i :: 0 <= i < |p| ==> IsBlank(p[i])
    requires w != [] && forall i :: 0 <= i < |w| ==> IsWordChar(w[i])
    requires !SomePrefix(names, w)
    ensures CallHead(names, p + (w + t)).None?
  {
    var line := p + (w + t);
    BlanksOf(p, w + t);
    assert line[|p|..] == w + t;
    var length := WordLength(w + t);
    assert length >= |w|;
    var word := line[|p|..|p| + length];
    assert w <= word;
  }

  /** One character pays exactly what it shows, and keeps the state well formed. */
  lemma StepPays(names: seq<string>, s: State, c: char, t: string)
    requires WellFormed(names, s)
    ensures WellFormed(names, Step(names, s, c).state)
    ensures Owed(names, s, [c] + t) == Step(names, s, c).shown + Owed(names, Step(names, s, c).state, t)
  {
    if s.call.Some? {
      CallPays(names, s, c, t);
    } else if s.eatWhitespace && IsWhitespace(c) {
      assert ([c] + t)[1..] == t;
    } else if s.candidate.Some? || s.lineStart {
      if s.eatWhitespace {
        assert SkipWhitespace([c] + t) == "" + ([c] + t);
      }
      CandidatePays(names, s.(eatWhitespace := false), c, t);
    } else {
      assert ([c] + t)[1..] == t;
      assert "" + t == t;
    }
  }

  lemma CallPays(names: seq<string>, s: State, c: char, t: string)
    requires WellFormed(names, s) && s.call.Some?
    ensures WellFormed(names, StepCall(s, c).state)
    ensures Owed(names, s, [c] + t) == StepCall(s, c).shown + Owed(names, StepCall(s, c).state, t)
  {
    var raw := s.call.value.raw;
    var grown := raw + [c];
    LexAllSnoc(OPENED, raw, c);
    assert grown[..|grown|] == grown;
    EndIsLocal(raw, [c], 0);
    EndIsLocal(grown, t, 0);
    assert raw + ([c] + t) == grown + t;
    assert (grown + t)[..|grown|] == grown && (grown + t)[|grown|..] == t;
    assert Closes(grown, |grown|) <==> StepCall(s, c).state.call.None? && StepCall(s, c).shown == "";
    if Closes(grown, |grown|) {
      assert EndFrom(grown, |raw|) == Closed(|grown|);
      assert AfterOpening(names, grown + t) == AtLineStart(names, SkipWhitespace(t));
    } else if Overruns(grown, |grown|) {
      assert EndFrom(grown, |raw|) == Overflow(|grown|);
      assert AfterOpening(names, grown + t) == grown + MidLine(names, t);
      assert "" + t == t;
    } else {
      assert EndFrom(grown, |raw|) == Open;
    }
  }

  lemma CandidatePays(names: seq<string>, s: State, c: char, t: string)
    requires WellFormed(names, s) && s.call.None? && !s.eatWhitespace && s.lineStart
    ensures WellFormed(names, StepCandidate(names, s, c).state)
    ensures Owed(names, s, [c] + t)
         == StepCandidate(names, s, c).shown + Owed(names, StepCandidate(names, s, c).state, t)
  {
    var held := s.candidate.GetOr("");
    var b := Blanks(held);
    assert held == held[..b] + held[b..];
    CandidateStaysWellFormed(names, s, held[..b], held[b..], c);
    SplitCandidatePays(names, s, held[..b], held[b..], c, t);
  }

  lemma SplitCandidatePays(names: seq<string>, s: State, p: string, w: string, c: char, t: string)
    requires s.call.None? && !s.eatWhitespace && s.lineStart && s.candidate.GetOr("") == p + w
    requires forall i :: 0 <= i < |p| ==> IsBlank(p[i])
    requires forall i :: 0 <= i < |w| ==> IsWordChar(w[i])
    ensures AtLineStart(names, (p + w) + ([c] + t))
         == StepCandidate(names, s, c).shown + Owed(names, StepCandidate(names, s, c).state, t)
  {
    TrimBlanks(p, w);
    var held := p + w;
    ConcatAssociative(p, w, [c] + t);
    if c == '\n' {
      HeadOf(names, p, w, c, t);
      NewlinePays(names, held, t);
    } else if IsBlank(c) && w == "" {
      ConcatAssociative(held, [c], t);
      HeldPays(names, s, held + [c], t);
    } else if c == '(' && w in names {
      HeadOf(names, p, w, c, t);
      OpeningPays(names, held, t);
    } else if IsWordChar(c) && SomePrefix(names, w + [c]) {
      ConcatAssociative(held, [c], t);
      HeldPays(names, s, held + [c], t);
    } else {
      ReleasedHead(names, p, w, c, t);
      NoHead(names, held, c, t);
    }
  }

  lemma CandidateStaysWellFormed(names: seq<string>, s: State, p: string, w: string, c: char)
    requires s.call.None? && !s.eatWhitespace && s.lineStart && s.candidate.GetOr("") == p + w
    requires forall i :: 0 <= i < |p| ==> IsBlank(p[i])
    requires forall i :: 0 <= i < |w| ==> IsWordChar(w[i])
    ensures WellFormed(names, StepCandidate(names, s, c).state)
  {
    TrimBlanks(p, w);
    if IsBlank(c) && w == "" {
      BlanksOf((p + w) + [c], "");
      assert ((p + w) + [c]) + "" == (p + w) + [c];
    } else if IsWordChar(c) && SomePrefix(names, w + [c]) {
      BlanksOf(p, w + [c]);
      ConcatAssociative(p, w, [c]);
      assert (p + (w + [c]))[|p|..] == w + [c];
    }
  }

  lemma HeldPays(names: seq<string>, s: State, held: string, t: string)
    requires s.call.None? && !s.eatWhitespace && s.lineStart
    ensures "" + Owed(names, s.(candidate := Some(held)), t) == AtLineStart(names, held + t)
  {}

  lemma OpeningPays(names: seq<string>, held: string, t: string)
    requires CallHead(names, held + (['('] + t)) == Some(|held| + 1)
    ensures AtLineStart(names, held + (['('] + t)) == "" + AfterOpening(names, "" + t)
    ensures Unfinished(CallState("", OPENED))
  {
    assert (held + (['('] + t))[|held| + 1..] == t == "" + t;
  }

  /** A line with no head is shown as it is. */
  lemma NoHead(names: seq<string>, held: string, c: char, t: string)
    requires CallHead(names, held + ([c] + t)).None?
    requires '\n' !in held && c != '\n'
    ensures AtLineStart(names, held + ([c] + t)) == (held + [c]) + MidLine(names, t)
  {
    var line := held + ([c] + t);
    assert AtLineStart(names, line) == MidLine(names, line);
    ConcatAssociative(held, [c], t);
    MidLineKeeps(names, held + [c], t);
  }

  lemma ReleasedHead(names: seq<string>, p: string, w: string, c: char, t: string)
    requires forall i :: 0 <= i < |p| ==> IsBlank(p[i])
    requires forall i :: 0 <= i < |w| ==> IsWordChar(w[i])
    requires c != '\n' && !(IsBlank(c) && w == "") && !(c == '(' && w in names)
    requires !(IsWordChar(c) && SomePrefix(names, w + [c]))
    ensures CallHead(names, p + (w + ([c] + t))).None?
  {
    if IsWordChar(c) {
      HeadOfUnknown(names, p, w + [c], t);
      assert p + (w + ([c] + t)) == p + ((w + [c]) + t);
    } else {
      HeadOf(names, p, w, c, t);
    }
  }

  lemma NewlinePays(names: seq<string>, held: string, t: string)
    requires '\n' !in held
    ensures MidLine(names, held + (['\n'] + t)) == (held + "\n") + AtLineStart(names, t)
    ensures "" + t == t
  {
    MidLineKeeps(names, held, ['\n'] + t);
    assert (['\n'] + t)[1..] == t;
  }

  lemma {:induction false} RunPays(names: seq<string>, s: State, t: string)
    requires WellFormed(names, s)
    ensures WellFormed(names, Run(names, s, t).state)
    ensures Owed(names, s, t) == Run(names, s, t).shown + Owed(names, Run(names, s, t).state, "")
    decreases t
  {
    if t != [] {
      assert t == [t[0]] + t[1..];
      StepPays(names, s, t[0], t[1..]);
      RunPays(names, Step(names, s, t[0]).state, t[1..]);
    }
  }

  /** At the end of the stream only a pending candidate is still owed. */
  lemma FinishPays(names: seq<string>, s: State)
    requires WellFormed(names, s)
    ensures Owed(names, s, "") == AtEnd(s).shown
  {
    if s.call.Some? {
      assert s.call.value.raw + "" == s.call.value.raw;
      assert AfterOpening(names, s.call.value.raw) == "";
    } else {
      var held := s.candidate.GetOr("");
      assert held + "" == held;
      var b := Blanks(held);
      assert b + WordLength(held[b..]) == |held| by {
        WordLengthOf(held[b..], "");
        assert held[b..] + "" == held[b..];
      }
      MidLineKeeps(names, held, "");
    }
  }

  /** The state machine, started fresh and finished, shows the whole-text meaning. */
  lemma RunRefinesVisible(names: seq<string>, t: string)
    ensures Run(names, INITIAL, t).shown + AtEnd(Run(names, INITIAL, t).state).shown == Visible(names, t)
  {
    RunPays(names, INITIAL, t);
    FinishPays(names, Run(names, INITIAL, t).state);
    assert "" + t == t;
  }

  /** The held body never outgrows the cap and the depth never leaves an `i32`. */
  lemma CallStaysBounded(names: seq<string>, s: State)
    requires WellFormed(names, s) && s.call.Some?
    ensures |s.call.value.raw| <= Utf8Size(s.call.value.raw) <= CALL_CAP
    ensures 1 <= s.call.value.lexer.depth <= 1 + CALL_CAP
  {
    var raw := s.call.value.raw;
    assert raw[..|raw|] == raw;
    Utf8SizeBounds(raw);
    DepthGrowsSlowly(OPENED, raw);
    assert |raw| > 0 ==> !Closes(raw, |raw|) && !Overruns(raw, |raw|);
  }

  lemma {:induction false} DepthGrowsSlowly(l: Lexer, s: string)
    ensures LexAll(l, s).depth <= l.depth + |s|
    decreases s
  {
    if s != [] {
      DepthGrowsSlowly(Lex(l, s[0]), s[1..]);
    }
  }

  // ------------------------------------------------ properties of what is shown

  /** The filter only ever deletes. */
  lemma {:induction false} VisibleIsSubsequence(names: seq<string>, t: string)
    ensures Subsequence(AtLineStart(names, t), t)
    decreases |t|, 2
  {
    match CallHead(names, t) {
      case Some(head) =>
        var body := t[head..];
        BodyIsSubsequence(names, body);
        assert t == t[..head] + body;
        SubsequenceOfSuffix(AfterOpening(names, body), t[..head], body);
      case None =>
        MidLineIsSubsequence(names, t);
    }
  }

  lemma {:induction false} BodyIsSubsequence(names: seq<string>, body: string)
    ensures Subsequence(AfterOpening(names, body), body)
    decreases |body|, 3
  {
    match EndFrom(body, 0) {
      case Closed(k) =>
        var next := SkipWhitespace(body[k..]);
        VisibleIsSubsequence(names, next);
        var dropped := body[..|body| - |next|];
        assert body == dropped + next;
        SubsequenceOfSuffix(AtLineStart(names, next), dropped, next);
      case Overflow(k) =>
        MidLineIsSubsequence(names, body[k..]);
        SubsequencePrepend(body[..k], MidLine(names, body[k..]), body[k..]);
        assert body == body[..k] + body[k..];
      case Open =>
    }
  }

  lemma {:induction false} MidLineIsSubsequence(names: seq<string>, t: string)
    ensures Subsequence(MidLine(names, t), t)
    decreases |t|, 0
  {
    if t != [] {
      if t[0] == '\n' {
        VisibleIsSubsequence(names, t[1..]);
      } else {
        MidLineIsSubsequence(names, t[1..]);
      }
      assert MidLine(names, t)[1..] == if t[0] == '\n' then AtLineStart(names, t[1..]) else MidLine(names, t[1..]);
    }
  }

  /** The line that begins at `i` opens a call. */
  predicate LineStartsCall(names: seq<string>, t: string, i: nat)
    requires i < |t|
  {
    (i == 0 || t[i - 1] == '\n') && CallHead(names, t[i..]).Some?
  }

  lemma {:induction false} SubsequenceIsNoLonger<T>(a: seq<T>, b: seq<T>)
    requires Subsequence(a, b)
    ensures |a| <= |b|
  {
    if a != [] && b != [] {
      if a[0] == b[0] && Subsequence(a[1..], b[1..]) {
        SubsequenceIsNoLonger(a[1..], b[1..]);
      } else {
        SubsequenceIsNoLonger(a, b[1..]);
      }
    }
  }

  /** A call at the start of the text is lost, at least in part. */
  lemma CallShortens(names: seq<string>, t: string)
    requires CallHead(names, t).Some?
    ensures |AtLineStart(names, t)| < |t|
  {
    var body := t[CallHead(names, t).value..];
    BodyIsSubsequence(names, body);
    SubsequenceIsNoLonger(AfterOpening(names, body), body);
  }

  /** A text passes through untouched exactly when no line of it opens a call. */
  lemma UntouchedIffNoCall(names: seq<string>, t: string)
    ensures Visible(names, t) == t <==> forall i :: 0 <= i < |t| ==> !LineStartsCall(names, t, i)
  {
    if CallHead(names, t).Some? {
      CallShortens(names, t);
      assert t[0..] == t;
      assert LineStartsCall(names, t, 0);
    } else {
      MidLineUntouched(names, t);
      assert t[0..] == t;
    }
  }

  lemma {:induction false} MidLineUntouched(names: seq<string>, t: string)
    ensures MidLine(names, t) == t <==> forall i :: 0 < i < |t| ==> !LineStartsCall(names, t, i)
  {
    if t != [] {
      var u := t[1..];
      assert t == [t[0]] + u;
      MidLineUntouched(names, u);
      assert forall i :: 0 < i < |u| ==>
        t[i + 1..] == u[i..] && LineStartsCall(names, t, i + 1) == LineStartsCall(names, u, i);
      assert forall i :: 1 < i < |t| ==> LineStartsCall(names, t, i) == LineStartsCall(names, u, i - 1);
      if t[0] == '\n' {
        if CallHead(names, u).Some? {
          CallShortens(names, u);
          assert LineStartsCall(names, t, 1);
        } else if u != [] {
          assert !LineStartsCall(names, t, 1);
        }
      }
    }
  }
}
