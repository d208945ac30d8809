/** Replayed, the output is always in the style the object believes is open, and harmless. */
module FormatterSafety {
  import opened Text
  import opened Terminal
  import opened Formatter
  import Table

  /** The rendition the object believes the terminal is in. */
  function StyleOf(s: State): Rendition {
    if s.lineStyle.Some? then {s.lineStyle.value} else BASE
  }

  predicate Valid(s: State) {
    && s.colored
    && Table.LineSafe(s.prefix) && Table.LineSafe(s.tableRow) && Table.RawSafe(s.table)
    && (s.marker.Some? ==> Table.LineSafe(s.marker.value.body) && |s.marker.value.body| <= MARKER_CAP && !s.star)
    && (s.marker.Some? || s.star ==> s.mode == Body)
    && (s.prefix != "" ==> s.mode == LineStart)
    && (if s.codeBlock then AwaitsFence(s.prefix) else |s.prefix| < PREFIX_CAP)
    && (s.lineStyle.Some? ==> s.lineStyle.value != Reset && (s.mode == Body || s.mode == RawLine))
    && (s.table != [] ==> (s.mode == LineStart || s.mode == TableRow) && !s.codeBlock)
    && (s.mode == TableRow ==> !s.codeBlock)
  }

  /** A reply that keeps the object valid and moves the terminal to the style it believes in. */
  predicate Sound(s: State, r: Reply) {
    Valid(r.state) && Draws(StyleOf(s), r.output, StyleOf(r.state))
  }

  lemma SoundAfter(s: State, first: Reply, second: Reply)
    requires Sound(s, first) && Sound(first.state, second)
    ensures Sound(s, second.After(first.output))
  {
    DrawsConcat(StyleOf(s), first.output, StyleOf(first.state), second.output, StyleOf(second.state));
  }

  lemma DrawsNothing(r: Rendition)
    ensures Draws(r, [], r)
  {}

  lemma DrawsChar(r: Rendition, c: char)
    requires IsSafe(c) && (c == '\n' ==> r == BASE)
    ensures Draws(r, [Ch(c)], r)
  {
    assert Chars([c]) == [Ch(c)];
    DrawsChars(r, [c]);
  }

  // ------------------------------------------------------------------- line bodies

  lemma SpanDraws(s: State, marker: Marker, body: string)
    requires s.colored && (s.lineStyle.Some? ==> s.lineStyle.value != Reset) && Table.LineSafe(body)
    ensures Draws(StyleOf(s), Span(s, marker, body), StyleOf(s))
  {
    var r := StyleOf(s);
    var inked := Apply(r, Sgr(marker.Style()));
    DrawsCode(r, marker.Style());
    DrawsChars(inked, body);
    DrawsConcat(r, [Sgr(marker.Style())], inked, Chars(body), inked);
    DrawsCode(inked, Reset);
    DrawsConcat(r, [Sgr(marker.Style())] + Chars(body), inked, [Sgr(Reset)], BASE);
    var closed := [Sgr(marker.Style())] + Chars(body) + [Sgr(Reset)];
    if s.lineStyle.Some? {
      DrawsCode(BASE, s.lineStyle.value);
      DrawsConcat(r, closed, BASE, [Sgr(s.lineStyle.value)], r);
    } else {
      assert closed + [] == closed;
    }
  }

  lemma EndLineSound(s: State)
    requires Valid(s) && s.mode == Body
    ensures Sound(s, EndLine(s))
  {
    var r, text := StyleOf(s), Chars(PendingText(s));
    DrawsChars(r, PendingText(s));
    DrawsConcat(r, text, r, ResetIf(s), BASE);
    DrawsChar(BASE, '\n');
    DrawsConcat(r, text + ResetIf(s), BASE, [Ch('\n')], BASE);
  }

  lemma HeldStepSound(s: State, c: char)
    requires Valid(s) && s.mode == Body && s.marker.Some? && IsSafe(c) && c != '\n'
    ensures Sound(s, HeldStep(s, s.marker.value, c))
  {
    var held := s.marker.value;
    var body := held.body + [c];
    if held.marker == CodeMark && c == '`' {
      SpanDraws(s, CodeMark, held.body);
    } else if held.marker == BoldMark && EndsWithStars(body) {
      SpanDraws(s, BoldMark, body[..|body| - 2]);
    } else if |body| > MARKER_CAP {
      DrawsChars(StyleOf(s), held.marker.Raw() + body);
    } else {
      DrawsNothing(StyleOf(s));
    }
  }

  lemma PlainStepSound(s: State, c: char)
    requires Valid(s) && s.mode == Body && s.marker.None? && !s.star && IsSafe(c) && c != '\n'
    ensures Sound(s, PlainStep(s, c))
  {
    DrawsNothing(StyleOf(s));
    DrawsChar(StyleOf(s), c);
  }

  lemma BodyStepSound(s: State, c: char)
    requires Valid(s) && s.mode == Body && IsSafe(c)
    ensures Sound(s, BodyStep(s, c))
    ensures c != '\n' ==> BodyStep(s, c).state.mode == Body
  {
    if c == '\n' {
      EndLineSound(s);
    } else if s.marker.Some? {
      HeldStepSound(s, c);
    } else if s.star {
      DrawsNothing(StyleOf(s));
      if c != '*' {
        var plain := s.(star := false);
        DrawsChar(StyleOf(s), '*');
        PlainStepSound(plain, c);
        SoundAfter(s, Reply(plain, [Ch('*')]), PlainStep(plain, c));
      }
    } else {
      PlainStepSound(s, c);
    }
  }

  lemma {:induction false} BodyRunSound(s: State, t: string)
    requires Valid(s) && s.mode == Body && Table.LineSafe(t)
    ensures Sound(s, BodyRun(s, t))
    decreases t
  {
    if t == "" {
      DrawsNothing(StyleOf(s));
    } else {
      BodyStepSound(s, t[0]);
      BodyRunSound(BodyStep(s, t[0]).state, t[1..]);
      SoundAfter(s, BodyStep(s, t[0]), BodyRun(BodyStep(s, t[0]).state, t[1..]));
    }
  }

  // ------------------------------------------------------------------- line starts

  lemma {:induction false} DropBlanksIsSuffix(s: string)
    ensures DropBlanks(s) == s[|s| - |DropBlanks(s)|..]
  {
    if s != "" && (s[0] == ' ' || s[0] == '\t') {
      DropBlanksIsSuffix(s[1..]);
    }
  }

  predicate DecisionSafe(d: Decision) {
    match d
    case Bullet(space) => Table.LineSafe(space)
    case Ordered(space, tag) => Table.LineSafe(space) && Table.LineSafe(tag)
    case _ => true
  }

  lemma DecisionIsSafe(prefix: string)
    requires Table.LineSafe(prefix) && PrefixDecision(prefix).Some?
    ensures DecisionSafe(PrefixDecision(prefix).value)
  {
    DropBlanksIsSuffix(prefix);
    var body := DropBlanks(prefix);
    assert Table.LineSafe(prefix[..|prefix| - |body|]) && Table.LineSafe(body);
    var d := PrefixDecision(prefix).value;
    if d.Ordered? {
      assert d.tag == body[..CountDigits(body) + 2];
    }
  }

  lemma DrainSound(s: State)
    requires Valid(s) && s.mode == LineStart
    ensures Sound(s, Formatter.DrainTable(s))
    ensures Formatter.DrainTable(s).state == s.(table := [])
  {
    if s.table == [] {
      DrawsNothing(StyleOf(s));
    } else {
      Table.DrawingDraws(s.table, true);
    }
  }

  lemma OpenStyleDraws(code: Code, text: string)
    requires Table.LineSafe(text)
    ensures Draws(BASE, [Sgr(code)] + Chars(text), Apply(BASE, Sgr(code)))
  {
    DrawsCode(BASE, code);
    DrawsChars(Apply(BASE, Sgr(code)), text);
    DrawsConcat(BASE, [Sgr(code)], Apply(BASE, Sgr(code)), Chars(text), Apply(BASE, Sgr(code)));
  }

  lemma StructureSound(s: State, prefix: string, d: Decision)
    requires Valid(s) && s.mode == LineStart && s.prefix == "" && !s.codeBlock
    requires d != TableStart ==> s.table == []
    requires Table.LineSafe(prefix) && DecisionSafe(d)
    ensures Sound(s, Structure(s, prefix, d))
  {
    match d {
      case Plain => BodyRunSound(s.(mode := Body), prefix);
      case Heading => DrawsCode(BASE, Bold);
      case Bullet(space) => DrawsChars(BASE, space + "  \U{2022} ");
      case Ordered(space, tag) => DrawsChars(BASE, space + "  " + tag);
      case Quote => OpenStyleDraws(Dim, "  \U{2502} ");
      case TableStart => DrawsNothing(BASE);
      case Fence => DrawsNothing(BASE);
      case Separator => DrawsPaint(Dim, "  " + Table.Dashes(8));
    }
  }

  /** The state while a decision is being applied: valid but for the length of its prefix. */
  predicate Undecided(s: State) {
    Valid(s.(prefix := "")) && Table.LineSafe(s.prefix) && s.mode == LineStart && !s.codeBlock
  }

  lemma DecideSound(s: State, d: Decision)
    requires Undecided(s) && DecisionSafe(d)
    ensures Sound(s, Decide(s, d))
  {
    var bare := s.(prefix := "");
    if d == TableStart {
      StructureSound(bare, s.prefix, d);
      DrawsNothing(BASE);
      SoundAfter(bare, Reply(bare, []), Structure(bare, s.prefix, d));
    } else {
      DrainSound(bare);
      StructureSound(bare.(table := []), s.prefix, d);
      SoundAfter(bare, Formatter.DrainTable(bare), Structure(bare.(table := []), s.prefix, d));
    }
  }

  lemma CodeLineSound(s: State, c: char)
    requires Valid(s) && s.mode == LineStart && s.codeBlock && IsSafe(c) && c != '\n'
    ensures Sound(s, LineStartStep(s, c))
  {
    var prefix := s.prefix + [c];
    DrawsNothing(BASE);
    if !AwaitsFence(prefix) && !("```" <= TrimStart(prefix)) {
      OpenStyleDraws(Dim, "  ");
      DrawsChars(Apply(BASE, Sgr(Dim)), prefix);
      DrawsConcat(BASE, [Sgr(Dim)] + Chars("  "), Apply(BASE, Sgr(Dim)), Chars(prefix), Apply(BASE, Sgr(Dim)));
    }
  }

  lemma EmptyLineSound(s: State)
    requires Valid(s) && s.mode == LineStart
    ensures Sound(s, LineStartStep(s, '\n'))
  {
    var drained := Formatter.DrainTable(s).output;
    DrainSound(s);
    DrawsChars(BASE, s.prefix);
    DrawsConcat(BASE, drained, BASE, Chars(s.prefix), BASE);
    DrawsChar(BASE, '\n');
    DrawsConcat(BASE, drained + Chars(s.prefix), BASE, [Ch('\n')], BASE);
  }

  lemma LineStartSound(s: State, c: char)
    requires Valid(s) && s.mode == LineStart && IsSafe(c)
    ensures Sound(s, LineStartStep(s, c))
  {
    if c == '\n' {
      EmptyLineSound(s);
    } else if s.codeBlock {
      CodeLineSound(s, c);
    } else {
      var grown := s.(prefix := s.prefix + [c]);
      match PrefixDecision(grown.prefix) {
        case Some(d) =>
          DecisionIsSafe(grown.prefix);
          DecideSound(grown, d);
        case None =>
          if |grown.prefix| >= PREFIX_CAP {
            DecideSound(grown, Plain);
          } else {
            DrawsNothing(BASE);
          }
      }
    }
  }

  // ------------------------------------------------------------------ whole streams

  /** Each character leaves the terminal in exactly the style the object believes is open. */
  lemma StepSound(s: State, c: char)
    requires Valid(s) && IsSafe(c)
    ensures Sound(s, Step(s, c))
  {
    match s.mode {
      case Skip(nl) =>
        DrawsNothing(BASE);
        DrawsChar(BASE, '\n');
      case RawLine =>
        if c == '\n' {
          DrawsChar(BASE, '\n');
          DrawsConcat(StyleOf(s), ResetIf(s), BASE, [Ch('\n')], BASE);
        } else {
          DrawsChar(StyleOf(s), c);
        }
      case TableRow => DrawsNothing(BASE);
      case LineStart => LineStartSound(s, c);
      case Body => BodyStepSound(s, c);
    }
  }

  lemma {:induction false} RunSound(s: State, t: string)
    requires Valid(s)
    ensures Sound(s, Run(s, t))
    decreases t
  {
    if t == "" {
      DrawsNothing(StyleOf(s));
    } else {
      var first := Step(s, Defang(t[0]));
      StepSound(s, Defang(t[0]));
      RunSound(first.state, t[1..]);
      SoundAfter(s, first, Run(first.state, t[1..]));
    }
  }

  lemma AtEndSound(s: State)
    requires Valid(s)
    ensures Sound(s, AtEnd(s)) && AtEnd(s).state.lineStyle.None?
  {
    AtEndIsValid(s);
    AtEndDraws(s);
  }

  lemma AtEndIsValid(s: State)
    requires Valid(s)
    ensures Valid(AtEnd(s).state) && AtEnd(s).state.lineStyle.None?
  {}

  lemma AtEndDraws(s: State)
    requires Valid(s)
    ensures Draws(StyleOf(s), AtEnd(s).output, BASE)
  {
    var rows := if s.mode == TableRow then s.(table := s.table + [s.tableRow], tableRow := "") else s;
    LastRowsDraw(s, rows);
    EndingDraws(s, Formatter.DrainTable(rows).output, StyleOf(s));
  }

  lemma LastRowsDraw(s: State, rows: State)
    requires Valid(s)
    requires rows == if s.mode == TableRow then s.(table := s.table + [s.tableRow], tableRow := "") else s
    ensures Draws(StyleOf(s), Formatter.DrainTable(rows).output, StyleOf(s))
  {
    if rows.table == [] {
      DrawsNothing(StyleOf(s));
    } else {
      Table.DrawingDraws(rows.table, true);
    }
  }

  lemma EndingDraws(s: State, drained: seq<Token>, r: Rendition)
    requires s.colored && r == StyleOf(s) && Draws(r, drained, r)
    requires Table.LineSafe(PendingText(s)) && Table.LineSafe(s.prefix)
    ensures Draws(r, drained + Chars(PendingText(s)) + Chars(s.prefix)
                     + if s.lineStyle.Some? then [Sgr(Reset)] else [], BASE)
  {
    DrawsChars(r, PendingText(s));
    DrawsConcat(r, drained, r, Chars(PendingText(s)), r);
    DrawsChars(r, s.prefix);
    var text := drained + Chars(PendingText(s)) + Chars(s.prefix);
    DrawsConcat(r, drained + Chars(PendingText(s)), r, Chars(s.prefix), r);
    DrawsConcat(r, text, r, ResetIf(s), BASE);
  }

  /** At every point of every stream, however long, the terminal is in the object's style. */
  lemma StreamStyle(t: string)
    ensures Valid(Run(Initial(true), t).state)
    ensures Draws(BASE, Run(Initial(true), t).output, StyleOf(Run(Initial(true), t).state))
  {
    RunSound(Initial(true), t);
  }

  /** A finished stream, coloured or piped, leaves the base style, ends every line in it and
      has written nothing a terminal would execute. */
  lemma RenderedIsSafe(colored: bool, t: string)
    ensures Draws(BASE, Rendered(colored, t), BASE)
  {
    if colored {
      var r := Run(Initial(true), t);
      StreamStyle(t);
      AtEndSound(r.state);
      SoundAfter(Initial(true), r, AtEnd(r.state));
    } else {
      DrawsChars(BASE, DefangAll(t));
    }
  }

  // --------------------------------------------------------------- held fragments

  /** Outside a code block fewer than `PREFIX_CAP` characters are held at a line start, and a
      marker never holds more than `MARKER_CAP`. */
  lemma HeldFragmentsAreShort(t: string)
    ensures var s := Run(Initial(true), t).state;
            && (!s.codeBlock ==> |s.prefix| < PREFIX_CAP)
            && (s.marker.Some? ==> |s.marker.value.body| <= MARKER_CAP)
  {
    StreamStyle(t);
  }

  lemma {:induction false} BlanksAreHeld(s: State, n: nat)
    requires s.mode == LineStart && s.codeBlock
    requires forall i :: 0 <= i < |s.prefix| ==> s.prefix[i] == ' '
    ensures Run(s, Table.Spaces(n)).state == s.(prefix := s.prefix + Table.Spaces(n))
    decreases n
  {
    if n > 0 {
      assert Table.Spaces(n)[1..] == Table.Spaces(n - 1);
      var grown := s.prefix + [' '];
      SpacesTrimAway(grown);
      BlanksAreHeld(s.(prefix := grown), n - 1);
      assert grown + Table.Spaces(n - 1) == s.prefix + Table.Spaces(n);
    } else {
      assert s.prefix + Table.Spaces(0) == s.prefix;
    }
  }

  lemma {:induction false} SpacesTrimAway(s: string)
    requires forall i :: 0 <= i < |s| ==> s[i] == ' '
    ensures TrimStart(s) == ""
  {
    if s != "" {
      SpacesTrimAway(s[1..]);
    }
  }

  /** Three backticks and a newline begin a code block. */
  lemma FenceOpens(s: State)
    requires s.mode == LineStart && s.prefix == "" && !s.codeBlock && s.table == []
    ensures Run(s, "```\n").state == s.(codeBlock := true)
  {
    var held1, held2 := s.(prefix := "`"), s.(prefix := "``");
    var fenced := s.(codeBlock := true, mode := Skip(false));
    FirstBacktick(s);
    SecondBacktick(s);
    ThirdBacktick(s);
    FenceText();
    RunCons(s, '`', "``\n", held1);
    RunCons(held1, '`', "`\n", held2);
    RunCons(held2, '`', "\n", fenced);
    RunCons(fenced, '\n', "", s.(codeBlock := true));
  }

  lemma FenceText()
    ensures "```\n" == ['`'] + "``\n" && "``\n" == ['`'] + "`\n" && "`\n" == ['`'] + "\n" && "\n" == ['\n'] + ""
  {}

  lemma RunCons(s: State, c: char, rest: string, next: State)
    requires Step(s, Defang(c)).state == next
    ensures Run(s, [c] + rest).state == Run(next, rest).state
  {
    assert ([c] + rest)[1..] == rest;
  }

  lemma FirstBacktick(s: State)
    requires s.mode == LineStart && s.prefix == "" && !s.codeBlock
    ensures Step(s, '`').state == s.(prefix := "`")
  {
    assert "" + ['`'] == "`";
  }

  lemma SecondBacktick(s: State)
    requires s.mode == LineStart && s.prefix == "" && !s.codeBlock
    ensures Step(s.(prefix := "`"), '`').state == s.(prefix := "``")
  {
    assert "`" + ['`'] == "``";
  }

  lemma ThirdBacktick(s: State)
    requires s.mode == LineStart && s.prefix == "" && !s.codeBlock && s.table == []
    ensures Step(s.(prefix := "``"), '`').state == s.(codeBlock := true, mode := Skip(false))
  {
    var line := "``" + ['`'];
    assert "```" <= line && DropBlanks(line) == line;
    assert !AllBackticks(line) || |line| == 3;
    assert PrefixDecision(line) == Some(Fence);
  }

  /** Inside a code block there is no bound: an indentation of any length is held. */
  lemma CodeBlockPrefixIsUnbounded(n: nat)
    ensures var s := Run(Initial(true), "```\n" + Table.Spaces(n)).state;
            s.codeBlock && |s.prefix| == n
  {
    FenceOpens(Initial(true));
    RunConcat(Initial(true), "```\n", Table.Spaces(n));
    BlanksAreHeld(Initial(true).(codeBlock := true), n);
    assert "" + Table.Spaces(n) == Table.Spaces(n);
  }
}
