/** Markdown formatting of a streaming answer: the state machine of `format.rs` on whole texts, its
    output modelled as terminal tokens. */
module Formatter {
  import opened Text
  import opened Terminal
  import Table

  const PREFIX_CAP: nat := 16
  const MARKER_CAP: nat := 200

  const REPLACEMENT: char := '\U{FFFD}'

  /** Neutralises one character of model text. */
  function Defang(c: char): (d: char)
    ensures IsSafe(d)
    ensures d == c <==> IsSafe(c)
    ensures d == '\n' <==> c == '\n'
  {
    if c == '\n' || c == '\t' then c else if IsControl(c) then REPLACEMENT else c
  }

  datatype Mode = LineStart | Body | TableRow | RawLine | Skip(nl: bool)

  datatype Marker = CodeMark | BoldMark {
    function Raw(): string {
      match this
      case CodeMark => "`"
      case BoldMark => "**"
    }

    function Style(): Code {
      match this
      case CodeMark => Reverse
      case BoldMark => Bold
    }
  }

  /** An opened marker and the body collected so far. */
  datatype Held = Held(marker: Marker, body: string)

  datatype Decision =
    | Plain
    | Heading
    | Bullet(space: string)
    | Ordered(space: string, tag: string)
    | Quote
    | TableStart
    | Fence
    | Separator

  // ------------------------------------------------------- the start-of-line decision

  function DropBlanks(s: string): (r: string)
    ensures |r| <= |s|
  {
    if s != "" && (s[0] == ' ' || s[0] == '\t') then DropBlanks(s[1..]) else s
  }

  predicate AllBackticks(s: string) {
    forall i :: 0 <= i < |s| ==> s[i] == '`'
  }

  function CountHashes(s: string): (n: nat)
    ensures n <= |s|
    ensures forall i :: 0 <= i < n ==> s[i] == '#'
    ensures n < |s| ==> s[n] != '#'
  {
    if s != "" && s[0] == '#' then 1 + CountHashes(s[1..]) else 0
  }

  function CountDigits(s: string): (n: nat)
    ensures n <= |s|
    ensures forall i :: 0 <= i < n ==> IsDigit(s[i])
    ensures n < |s| ==> !IsDigit(s[n])
  {
    if s != "" && IsDigit(s[0]) then 1 + CountDigits(s[1..]) else 0
  }

  /** `None`: not clear yet, wait for a character. */
  function PrefixDecision(prefix: string): Option<Decision> {
    var body := DropBlanks(prefix);
    var space := prefix[..|prefix| - |body|];
    if body == "" then None
    else if body[0] == '`' then
      if AllBackticks(body) && |body| < 3 then None
      else if "```" <= body then Some(Fence)
      else Some(Plain)
    else if body[0] == '#' then
      var n := CountHashes(body);
      if n == |body| then if n <= 6 then None else Some(Plain)
      else if body[n] == ' ' && n <= 6 then Some(Heading)
      else Some(Plain)
    else if body[0] == '-' || body[0] == '*' || body[0] == '+' then
      if |body| == 1 then None
      else if body[1] == ' ' then Some(Bullet(space))
      else if body[1] == body[0] && body[0] != '*' then
        if |body| == 2 then None
        else if body[2] == body[0] then Some(Separator)
        else Some(Plain)
      else Some(Plain)
    else if body[0] == '|' then Some(TableStart)
    else if body[0] == '>' then
      if |body| == 1 then None
      else if body[1] == ' ' then Some(Quote)
      else Some(Plain)
    else if IsDigit(body[0]) then
      var digits := CountDigits(body);
      if digits == |body| then if digits <= 3 then None else Some(Plain)
      else if body[digits] == '.' || body[digits] == ')' then
        if digits + 1 == |body| then None
        else if body[digits + 1] == ' ' then Some(Ordered(space, body[..digits + 2]))
        else Some(Plain)
      else Some(Plain)
    else Some(Plain)
  }

  // ------------------------------------------------------------------ the machine

  datatype State = State(
    colored: bool, mode: Mode, prefix: string, marker: Option<Held>, star: bool,
    lineStyle: Option<Code>, codeBlock: bool, table: seq<string>, tableRow: string)

  datatype Reply = Reply(state: State, output: seq<Token>) {
    /** The same reply with `before` written first. */
    function After(before: seq<Token>): Reply {
      Reply(state, before + output)
    }
  }

  function Initial(colored: bool): State {
    State(colored, LineStart, "", None, false, None, false, [], "")
  }

  function ResetIf(s: State): seq<Token> {
    if s.lineStyle.Some? && s.colored then [Sgr(Reset)] else []
  }

  /** The undecided fragment of a body, as raw text. */
  function PendingText(s: State): string {
    (if s.star then "*" else "") + (if s.marker.Some? then s.marker.value.marker.Raw() + s.marker.value.body else "")
  }

  function Span(s: State, marker: Marker, body: string): seq<Token> {
    if s.colored then
      [Sgr(marker.Style())] + Chars(body) + [Sgr(Reset)]
      + if s.lineStyle.Some? then [Sgr(s.lineStyle.value)] else []
    else Chars(body)
  }

  function EndLine(s: State): Reply {
    Reply(s.(star := false, marker := None, lineStyle := None, mode := LineStart),
          Chars(PendingText(s)) + ResetIf(s) + [Ch('\n')])
  }

  predicate EndsWithStars(body: string) {
    |body| >= 2 && body[|body| - 1] == '*' && body[|body| - 2] == '*'
  }

  function BodyStep(s: State, c: char): Reply {
    if c == '\n' then EndLine(s)
    else if s.marker.Some? then HeldStep(s, s.marker.value, c)
    else if s.star then
      if c == '*' then Reply(s.(star := false, marker := Some(Held(BoldMark, ""))), [])
      else PlainStep(s.(star := false), c).After([Ch('*')])
    else PlainStep(s, c)
  }

  function HeldStep(s: State, held: Held, c: char): Reply {
    var closed := s.(marker := None);
    if held.marker == CodeMark && c == '`' then Reply(closed, Span(s, CodeMark, held.body))
    else
      var body := held.body + [c];
      if held.marker == BoldMark && EndsWithStars(body) then
        Reply(closed, Span(s, BoldMark, body[..|body| - 2]))
      else if |body| > MARKER_CAP then Reply(closed, Chars(held.marker.Raw() + body))
      else Reply(s.(marker := Some(Held(held.marker, body))), [])
  }

  function PlainStep(s: State, c: char): Reply {
    if c == '`' then Reply(s.(marker := Some(Held(CodeMark, ""))), [])
    else if c == '*' then Reply(s.(star := true), [])
    else Reply(s, [Ch(c)])
  }

  function BodyRun(s: State, t: string): Reply
    decreases t
  {
    if t == "" then Reply(s, [])
    else
      var first := BodyStep(s, t[0]);
      BodyRun(first.state, t[1..]).After(first.output)
  }

  function DrainTable(s: State): Reply {
    if s.table == [] then Reply(s, [])
    else Reply(s.(table := []), Table.Drawing(s.table, s.colored))
  }

  function Decide(s: State, d: Decision): Reply {
    var drained := if d == TableStart then Reply(s, []) else DrainTable(s);
    Structure(drained.state.(prefix := ""), s.prefix, d).After(drained.output)
  }

  /** The structure a line opens with. */
  function Structure(s: State, prefix: string, d: Decision): Reply {
    var open := if s.colored then [Sgr(Dim)] else [];
    match d
    case Plain => BodyRun(s.(mode := Body), prefix)
    case Heading =>
      Reply(s.(lineStyle := Some(Bold), mode := Body), if s.colored then [Sgr(Bold)] else [])
    case Bullet(space) => Reply(s.(mode := Body), Chars(space + "  \U{2022} "))
    case Ordered(space, tag) => Reply(s.(mode := Body), Chars(space + "  " + tag))
    case Quote => Reply(s.(lineStyle := Some(Dim), mode := Body), open + Chars("  \U{2502} "))
    case TableStart => Reply(s.(tableRow := prefix, mode := TableRow), [])
    case Fence => Reply(s.(codeBlock := true, mode := Skip(false)), [])
    case Separator => Reply(s.(mode := Skip(true)), Paint(s.colored, Dim, "  " + Table.Dashes(8)))
  }

  /** A line inside a code block could still turn out to be the closing fence. */
  predicate AwaitsFence(prefix: string) {
    var t := TrimStart(prefix);
    AllBackticks(t) && |t| < 3
  }

  function LineStartStep(s: State, c: char): Reply {
    if c == '\n' then
      var drained := DrainTable(s);
      Reply(drained.state.(prefix := ""), drained.output + Chars(s.prefix) + [Ch('\n')])
    else
      var prefix := s.prefix + [c];
      var grown := s.(prefix := prefix);
      if s.codeBlock then
        if AwaitsFence(prefix) then Reply(grown, [])
        else if "```" <= TrimStart(prefix) then
          Reply(s.(codeBlock := false, prefix := "", mode := Skip(false)), [])
        else
          Reply(s.(prefix := "", mode := RawLine, lineStyle := if s.colored then Some(Dim) else s.lineStyle),
                (if s.colored then [Sgr(Dim)] else []) + Chars("  ") + Chars(prefix))
      else
        match PrefixDecision(prefix)
        case Some(d) => Decide(grown, d)
        case None => if |prefix| >= PREFIX_CAP then Decide(grown, Plain) else Reply(grown, [])
  }

  function Step(s: State, c: char): Reply {
    match s.mode
    case Skip(nl) =>
      if c == '\n' then Reply(s.(mode := LineStart), if nl then [Ch('\n')] else []) else Reply(s, [])
    case RawLine =>
      if c == '\n' then Reply(s.(lineStyle := None, mode := LineStart), ResetIf(s) + [Ch('\n')])
      else Reply(s, [Ch(c)])
    case TableRow =>
      if c == '\n' then Reply(s.(table := s.table + [s.tableRow], tableRow := "", mode := LineStart), [])
      else Reply(s.(tableRow := s.tableRow + [c]), [])
    case LineStart => LineStartStep(s, c)
    case Body => BodyStep(s, c)
  }

  /** The machine on a text. */
  function Run(s: State, t: string): Reply
    decreases t
  {
    if t == "" then Reply(s, [])
    else
      var first := Step(s, Defang(t[0]));
      Run(first.state, t[1..]).After(first.output)
  }

  /** End of stream: whatever is pending is printed raw. */
  function AtEnd(s: State): Reply {
    if !s.colored then Reply(s, [])
    else
      var rows := if s.mode == TableRow then s.(table := s.table + [s.tableRow], tableRow := "") else s;
      var drained := DrainTable(rows);
      Reply(drained.state.(star := false, marker := None, prefix := "", lineStyle := None, mode := LineStart),
            drained.output + Chars(PendingText(s)) + Chars(s.prefix)
            + if s.lineStyle.Some? then [Sgr(Reset)] else [])
  }

  function DefangAll(t: string): (r: string)
    ensures |r| == |t| && AllSafe(r)
    ensures forall i :: 0 <= i < |t| ==> r[i] == Defang(t[i])
  {
    seq(|t|, i requires 0 <= i < |t| => Defang(t[i]))
  }

  /** Everything one formatter writes for a whole text. */
  function Rendered(colored: bool, t: string): seq<Token> {
    if colored then
      var r := Run(Initial(true), t);
      r.output + AtEnd(r.state).output
    else Chars(DefangAll(t))
  }

  lemma {:induction false} RunConcat(s: State, a: string, b: string)
    ensures Run(s, a + b) == Run(Run(s, a).state, b).After(Run(s, a).output)
    decreases a
  {
    if a == "" {
      assert a + b == b;
    } else {
      var first := Step(s, Defang(a[0]));
      assert (a + b)[1..] == a[1..] + b;
      RunConcat(first.state, a[1..], b);
      ConcatAssociative(first.output, Run(first.state, a[1..]).output, Run(Run(s, a).state, b).output);
    }
  }

  lemma RunSnoc(s: State, a: string, c: char)
    ensures Run(s, a + [c]) == Step(Run(s, a).state, Defang(c)).After(Run(s, a).output)
  {
    RunConcat(s, a, [c]);
    var r := Step(Run(s, a).state, Defang(c));
    assert [c][1..] == "";
    assert r.output + [] == r.output;
  }

  lemma {:induction false} BodyRunConcat(s: State, a: string, b: string)
    ensures BodyRun(s, a + b) == BodyRun(BodyRun(s, a).state, b).After(BodyRun(s, a).output)
    decreases a
  {
    if a == "" {
      assert a + b == b;
    } else {
      var first := BodyStep(s, a[0]);
      assert (a + b)[1..] == a[1..] + b;
      BodyRunConcat(first.state, a[1..], b);
      ConcatAssociative(first.output, BodyRun(first.state, a[1..]).output, BodyRun(BodyRun(s, a).state, b).output);
    }
  }

  lemma BodyRunSnoc(s: State, a: string, c: char)
    ensures BodyRun(s, a + [c]) == BodyStep(BodyRun(s, a).state, c).After(BodyRun(s, a).output)
  {
    BodyRunConcat(s, a, [c]);
    var r := BodyStep(BodyRun(s, a).state, c);
    assert [c][1..] == "";
    assert r.output + [] == r.output;
  }
}
