/** Lines can be read back from the screen: spans expanded, the pending fragment added, a marker
    that never closes or closes too late loses nothing. */
module FormatterReadBack {
  import opened Text
  import opened Terminal
  import opened Formatter

  /** The markdown source of tokens written in a line whose own style is `ls`; `open` is the
      span being read. */
  function ReadBack(ls: Option<Code>, open: Option<Marker>, ts: seq<Token>): string
    decreases |ts|
  {
    if ts == [] then ""
    else if ts[0].Ch? then [ts[0].c] + ReadBack(ls, open, ts[1..])
    else if open.Some? then
      // the span's reset, followed by the line style it put back
      var restored := if ls.Some? && |ts| > 1 then 2 else 1;
      open.value.Raw() + ReadBack(ls, None, ts[restored..])
    else match ts[0].code
      case Bold => BoldMark.Raw() + ReadBack(ls, Some(BoldMark), ts[1..])
      case Reverse => CodeMark.Raw() + ReadBack(ls, Some(CodeMark), ts[1..])
      case Dim => ReadBack(ls, None, ts[1..])
      case Reset => ReadBack(ls, None, ts[1..])
  }

  lemma {:induction false} ReadBackChars(ls: Option<Code>, open: Option<Marker>, x: string, ts: seq<Token>)
    ensures ReadBack(ls, open, Chars(x) + ts) == x + ReadBack(ls, open, ts)
    decreases x
  {
    if x == "" {
      assert Chars(x) + ts == ts;
    } else {
      assert (Chars(x) + ts)[1..] == Chars(x[1..]) + ts;
      ReadBackChars(ls, open, x[1..], ts);
    }
  }

  lemma ReadBackSpan(s: State, marker: Marker, body: string, ts: seq<Token>)
    requires s.colored
    ensures ReadBack(s.lineStyle, None, Span(s, marker, body) + ts)
         == (marker.Raw() + body + marker.Raw()) + ReadBack(s.lineStyle, None, ts)
  {
    var ls := s.lineStyle;
    var close := [Sgr(Reset)] + if ls.Some? then [Sgr(ls.value)] else [];
    var tail := close + ts;
    var all := Span(s, marker, body) + ts;
    assert all[0] == Sgr(marker.Style());
    assert all[1..] == Chars(body) + tail;
    ReadBackChars(ls, Some(marker), body, tail);
    assert tail[0] == Sgr(Reset);
    assert tail[if ls.Some? then 2 else 1..] == ts;
    assert ReadBack(ls, Some(marker), tail) == marker.Raw() + ReadBack(ls, None, ts);
  }

  /** A state in the middle of a coloured line's body. */
  predicate InBody(s: State) {
    s.colored && s.mode == Body && (s.marker.Some? ==> !s.star)
  }

  /** What one body character adds to the screen is what left the pending fragment. */
  lemma BodyStepReadsBack(s: State, c: char, ts: seq<Token>, rest: string) returns (x: string)
    requires InBody(s) && c != '\n'
    requires ReadBack(s.lineStyle, None, ts) == rest
    ensures var r := BodyStep(s, c);
            && InBody(r.state) && r.state.lineStyle == s.lineStyle
            && ReadBack(s.lineStyle, None, r.output + ts) == x + rest
            && x + PendingText(r.state) == PendingText(s) + [c]
  {
    var r := BodyStep(s, c);
    if s.marker.Some? {
      x := HeldStepReadsBack(s, c, ts, rest);
    } else if s.star {
      x := StarStepReadsBack(s, c, ts, rest);
    } else {
      x := if c == '`' || c == '*' then "" else [c];
      assert r.output == Chars(x);
      Reads(s.lineStyle, x, r.output, ts, rest);
      assert x + PendingText(r.state) == PendingText(s) + [c];
    }
  }

  lemma StarStepReadsBack(s: State, c: char, ts: seq<Token>, rest: string) returns (x: string)
    requires InBody(s) && c != '\n' && s.star
    requires ReadBack(s.lineStyle, None, ts) == rest
    ensures var r := BodyStep(s, c);
            && InBody(r.state) && r.state.lineStyle == s.lineStyle
            && ReadBack(s.lineStyle, None, r.output + ts) == x + rest
            && x + PendingText(r.state) == PendingText(s) + [c]
  {
    var r := BodyStep(s, c);
    if c == '*' {
      x := "";
      assert x + PendingText(r.state) == PendingText(s) + [c];
    } else {
      var plain := if c == '`' then "" else [c];
      assert PlainStep(s.(star := false), c).output == Chars(plain);
      x := "*" + plain;
      assert r.output == Chars(x);
      assert x + PendingText(r.state) == PendingText(s) + [c];
    }
    Reads(s.lineStyle, x, r.output, ts, rest);
  }

  lemma Reads(ls: Option<Code>, x: string, output: seq<Token>, ts: seq<Token>, rest: string)
    requires output == Chars(x) && ReadBack(ls, None, ts) == rest
    ensures ReadBack(ls, None, output + ts) == x + rest
  {
    ReadBackChars(ls, None, x, ts);
  }

  lemma HeldStepReadsBack(s: State, c: char, ts: seq<Token>, rest: string) returns (x: string)
    requires InBody(s) && s.marker.Some? && c != '\n'
    requires ReadBack(s.lineStyle, None, ts) == rest
    ensures var r := HeldStep(s, s.marker.value, c);
            && ReadBack(s.lineStyle, None, r.output + ts) == x + rest
            && x + PendingText(r.state) == PendingText(s) + [c]
  {
    var held := s.marker.value;
    var body := held.body + [c];
    var r := HeldStep(s, held, c);
    if held.marker == CodeMark && c == '`' {
      x := ClosedReadsBack(s, held.body, "`", ts, rest);
    } else if held.marker == BoldMark && EndsWithStars(body) {
      assert body == body[..|body| - 2] + "**";
      x := ClosedReadsBack(s, body[..|body| - 2], "**", ts, rest);
    } else {
      x := UnclosedReadsBack(s, c, ts, rest);
    }
  }

  lemma ClosedReadsBack(s: State, inner: string, close: string, ts: seq<Token>, rest: string) returns (x: string)
    requires InBody(s) && s.marker.Some? && close == s.marker.value.marker.Raw()
    requires ReadBack(s.lineStyle, None, ts) == rest
    ensures x == close + inner + close && x + "" == x
    ensures ReadBack(s.lineStyle, None, Span(s, s.marker.value.marker, inner) + ts) == x + rest
  {
    x := close + inner + close;
    ReadBackSpan(s, s.marker.value.marker, inner, ts);
  }

  /** The marker runs over its cap or is held on to. */
  lemma UnclosedReadsBack(s: State, c: char, ts: seq<Token>, rest: string) returns (x: string)
    requires InBody(s) && s.marker.Some? && ReadBack(s.lineStyle, None, ts) == rest
    requires !(s.marker.value.marker == CodeMark && c == '`')
    requires !(s.marker.value.marker == BoldMark && EndsWithStars(s.marker.value.body + [c]))
    ensures var r := HeldStep(s, s.marker.value, c);
            && ReadBack(s.lineStyle, None, r.output + ts) == x + rest
            && x + PendingText(r.state) == PendingText(s) + [c]
  {
    var held := s.marker.value;
    var body := held.body + [c];
    var r := HeldStep(s, held, c);
    assert PendingText(s) + [c] == held.marker.Raw() + body;
    if |body| > MARKER_CAP {
      x := held.marker.Raw() + body;
      assert r == Reply(s.(marker := None), Chars(x));
      Reads(s.lineStyle, x, r.output, ts, rest);
      assert PendingText(r.state) == "" && x + "" == x;
    } else {
      assert r == Reply(s.(marker := Some(Held(held.marker, body))), []);
      x := "";
      Reads(s.lineStyle, x, r.output, ts, rest);
      assert x + PendingText(r.state) == PendingText(r.state) == held.marker.Raw() + body;
    }
  }

  /** The body of a line, however marked up, is on the screen or pending: nothing is lost. */
  lemma {:induction false} BodyReadsBack(s: State, t: string)
    requires InBody(s) && '\n' !in t
    ensures var r := BodyRun(s, t);
            && InBody(r.state) && r.state.lineStyle == s.lineStyle
            && ReadBack(s.lineStyle, None, r.output) + PendingText(r.state) == PendingText(s) + t
    decreases t
  {
    var r := BodyRun(s, t);
    if t == "" {
      assert PendingText(s) + t == PendingText(s) == "" + PendingText(s);
    } else {
      var first := BodyStep(s, t[0]);
      var none := BodyStepReadsBack(s, t[0], [], "");
      var later := BodyRun(first.state, t[1..]);
      BodyReadsBack(first.state, t[1..]);
      var rest := ReadBack(s.lineStyle, None, later.output);
      var x := BodyStepReadsBack(s, t[0], later.output, rest);
      calc {
        (x + rest) + PendingText(r.state);
        { ConcatAssociative(x, rest, PendingText(r.state)); }
        x + (rest + PendingText(r.state));
        x + (PendingText(first.state) + t[1..]);
        { ConcatAssociative(x, PendingText(first.state), t[1..]); }
        (PendingText(s) + [t[0]]) + t[1..];
        { ConcatAssociative(PendingText(s), [t[0]], t[1..]); assert [t[0]] + t[1..] == t; }
        PendingText(s) + t;
      }
    }
  }

  /** The end of the line releases the pending fragment as it stands. */
  lemma EndLineReadsBack(s: State)
    requires InBody(s)
    ensures ReadBack(s.lineStyle, None, EndLine(s).output) == PendingText(s) + "\n"
  {
    var tail := ResetIf(s) + [Ch('\n')];
    ConcatAssociative(Chars(PendingText(s)), ResetIf(s), [Ch('\n')]);
    ReadBackChars(s.lineStyle, None, PendingText(s), tail);
    assert [Ch('\n')] == Chars("\n") && Chars("\n") + [] == Chars("\n");
    ReadBackChars(s.lineStyle, None, "\n", []);
    assert ReadBack(s.lineStyle, None, [Ch('\n')]) == "\n";
    if s.lineStyle.Some? {
      assert tail[1..] == [Ch('\n')];
    } else {
      assert tail == [Ch('\n')];
    }
  }

  /** The output of whole body characters is read independently of what follows it. */
  lemma {:induction false} ReadBackConcat(s: State, t: string, ts: seq<Token>)
    requires InBody(s) && '\n' !in t
    ensures ReadBack(s.lineStyle, None, BodyRun(s, t).output + ts)
         == ReadBack(s.lineStyle, None, BodyRun(s, t).output) + ReadBack(s.lineStyle, None, ts)
    decreases t
  {
    if t == "" {
      assert [] + ts == ts && "" + ReadBack(s.lineStyle, None, ts) == ReadBack(s.lineStyle, None, ts);
    } else {
      var first := BodyStep(s, t[0]);
      var none := BodyStepReadsBack(s, t[0], [], "");
      ReadBackConcat(first.state, t[1..], ts);
      FirstReads(s, t[0], BodyRun(first.state, t[1..]).output, ts);
    }
  }

  lemma FirstReads(s: State, c: char, later: seq<Token>, ts: seq<Token>)
    requires InBody(s) && c != '\n'
    requires ReadBack(s.lineStyle, None, later + ts)
          == ReadBack(s.lineStyle, None, later) + ReadBack(s.lineStyle, None, ts)
    ensures ReadBack(s.lineStyle, None, (BodyStep(s, c).output + later) + ts)
         == ReadBack(s.lineStyle, None, BodyStep(s, c).output + later) + ReadBack(s.lineStyle, None, ts)
  {
    var out := BodyStep(s, c).output;
    var ls := s.lineStyle;
    ConcatAssociative(out, later, ts);
    var x := BodyStepReadsBack(s, c, later, ReadBack(ls, None, later));
    var y := BodyStepReadsBack(s, c, later + ts, ReadBack(ls, None, later + ts));
    SamePrefix(x, y, PendingText(BodyStep(s, c).state));
    ConcatAssociative(x, ReadBack(ls, None, later), ReadBack(ls, None, ts));
  }

  lemma SamePrefix(x: string, y: string, z: string)
    requires x + z == y + z
    ensures x == y
  {
    assert |x| == |y|;
    assert x == (x + z)[..|x|] == (y + z)[..|y|] == y;
  }

  /** A finished line reads back to its whole source, newline included. */
  lemma LineReadsBack(s: State, t: string)
    requires InBody(s) && '\n' !in t
    ensures ReadBack(s.lineStyle, None, BodyRun(s, t + "\n").output) == PendingText(s) + t + "\n"
  {
    var body := BodyRun(s, t);
    var ending := EndLine(body.state);
    BodyRunSnoc(s, t, '\n');
    BodyReadsBack(s, t);
    ReadBackConcat(s, t, ending.output);
    EndLineReadsBack(body.state);
    ConcatAssociative(ReadBack(s.lineStyle, None, body.output), PendingText(body.state), "\n");
  }

  // ------------------------------------------------------------------ plain lines

  /** The start of a line outside a code block; table rows may be waiting to be drawn. */
  predicate FreshLine(s: State) {
    s.colored && s.mode == LineStart && s.prefix == "" && s.marker.None? && !s.star
    && s.lineStyle.None? && !s.codeBlock
  }

  /** And none are. */
  predicate BareLine(s: State) {
    FreshLine(s) && s.table == []
  }

  /** Holding `p` undecided, the line that goes on with `t` is never given a structure. */
  predicate StaysPlain(p: string, t: string)
    decreases t
  {
    t != "" ==>
      var grown := p + [t[0]];
      match PrefixDecision(grown)
      case Some(d) => d == Plain
      case None => |grown| >= PREFIX_CAP || StaysPlain(grown, t[1..])
  }

  lemma {:induction false} RunIsBodyRun(s: State, t: string)
    requires s.mode == Body && AllSafe(t) && '\n' !in t[..if |t| == 0 then 0 else |t| - 1]
    ensures Run(s, t) == BodyRun(s, t)
    decreases t
  {
    if t != "" {
      var u := t[1..];
      if u != "" {
        assert t[0] == t[..|t| - 1][0];
        assert u[..|u| - 1] == t[..|t| - 1][1..];
        RunIsBodyRun(BodyStep(s, t[0]).state, u);
      }
    }
  }

  /** A line that is given no structure is shown so that its source can be read back whole:
      what was held at its start goes through the body machine like the rest. */
  lemma {:induction false} BarePlainLine(s: State, p: string, t: string)
    requires BareLine(s) && '\n' !in t && '\n' !in p && AllSafe(p) && AllSafe(t)
    requires StaysPlain(p, t)
    ensures ReadBack(None, None, Run(s.(prefix := p), t + "\n").output) == (p + t) + "\n"
    decreases t
  {
    var held := s.(prefix := p);
    if t == "" {
      EmptyLineReadsBack(s, p);
      assert t + "\n" == "\n" && p + t == p;
    } else {
      var grown := p + [t[0]];
      var rest := t[1..] + "\n";
      assert (t + "\n")[1..] == rest;
      assert grown + t[1..] == p + t;
      var first := LineStartStep(held, t[0]);
      if PrefixDecision(grown).None? && |grown| < PREFIX_CAP {
        BarePlainLine(s, grown, t[1..]);
        assert [] + Run(first.state, rest).output == Run(first.state, rest).output;
      } else {
        DecidedPlain(s, held, grown, t[1..]);
      }
    }
  }

  lemma EmptyLineReadsBack(s: State, p: string)
    requires BareLine(s)
    ensures ReadBack(None, None, Run(s.(prefix := p), "\n").output) == p + "\n"
  {
    var out := [] + Chars(p) + [Ch('\n')];
    assert "\n"[1..] == "";
    assert out + [] == Chars(p + "\n") + [];
    ReadBackChars(None, None, p + "\n", []);
    assert (p + "\n") + "" == p + "\n";
  }

  lemma DecidedPlain(s: State, held: State, grown: string, t: string)
    requires BareLine(s) && AllSafe(grown) && AllSafe(t) && '\n' !in grown && '\n' !in t
    requires held == s.(prefix := held.prefix) && grown != "" && grown == held.prefix + [grown[|grown| - 1]]
    requires LineStartStep(held, grown[|grown| - 1]) == Decide(held.(prefix := grown), Plain)
    ensures ReadBack(None, None, Run(held, [grown[|grown| - 1]] + (t + "\n")).output) == (grown + t) + "\n"
  {
    var c := grown[|grown| - 1];
    var rest := t + "\n";
    var body := s.(mode := Body);
    var first := BodyRun(body, grown);
    PlainDecision(s, grown, first);
    assert ([c] + rest)[1..] == rest && rest[..|rest| - 1] == t;
    BodyReadsBack(body, grown);
    RunIsBodyRun(first.state, rest);
    BodyRunConcat(body, grown, rest);
    ConcatAssociative(grown, t, "\n");
    LineReadsBack(body, grown + t);
    AppendNothing(grown + t);
  }

  lemma PlainDecision(s: State, grown: string, first: Reply)
    requires BareLine(s) && first == BodyRun(s.(mode := Body), grown)
    ensures Decide(s.(prefix := grown), Plain) == first
  {
    assert s.(prefix := grown).(prefix := "") == s;
    AppendNothing(first.output);
    assert first.After([]) == first;
  }

  // ------------------------------------------------------------- structured lines

  /** A heading, a list item or a quotation is decided at the end of `p`, and not before. */
  predicate OpensWith(p: string, d: Decision) {
    && 0 < |p| <= PREFIX_CAP && AllSafe(p) && '\n' !in p
    && (d.Heading? || d.Bullet? || d.Ordered? || d.Quote?)
    && PrefixDecision(p) == Some(d)
    && forall k :: 0 < k < |p| ==> PrefixDecision(p[..k]).None?
  }

  /** What stands on the screen for the structure. */
  function Opening(d: Decision): seq<Token> {
    match d
    case Heading => [Sgr(Bold)]
    case Bullet(space) => Chars(space + "  \U{2022} ")
    case Ordered(space, tag) => Chars(space + "  " + tag)
    case Quote => [Sgr(Dim)] + Chars("  \U{2502} ")
    case _ => []
  }

  function OpenedStyle(d: Decision): Option<Code> {
    if d.Heading? then Some(Bold) else if d.Quote? then Some(Dim) else None
  }

  /** One more character at the start of a line, given what is decided. */
  lemma StartStep(s: State, p: string, c: char)
    requires BareLine(s) && c != '\n' && IsSafe(c)
    ensures PrefixDecision(p + [c]).Some? ==>
              Step(s.(prefix := p), Defang(c)) == Decide(s.(prefix := p + [c]), PrefixDecision(p + [c]).value)
    ensures PrefixDecision(p + [c]).None? && |p| + 1 < PREFIX_CAP ==>
              Step(s.(prefix := p), Defang(c)) == Reply(s.(prefix := p + [c]), [])
  {}

  lemma RunThen(s: State, q: string, c: char, held: State, r: Reply)
    requires Run(s, q) == Reply(held, []) && Step(held, Defang(c)) == r
    ensures Run(s, q + [c]) == r
  {
    RunSnoc(s, q, c);
    AppendNothing(r.output);
    assert r.After([]) == r;
  }

  lemma {:induction false} UndecidedIsHeld(s: State, p: string, d: Decision, k: nat)
    requires BareLine(s) && OpensWith(p, d) && k < |p|
    ensures Run(s, p[..k]) == Reply(s.(prefix := p[..k]), [])
  {
    if k > 0 {
      var q, c := p[..k - 1], p[k - 1];
      UndecidedIsHeld(s, p, d, k - 1);
      assert q + [c] == p[..k];
      StartStep(s, q, c);
      RunThen(s, q, c, s.(prefix := q), Reply(s.(prefix := p[..k]), []));
    }
  }

  lemma DecideOpens(s: State, p: string, d: Decision)
    requires BareLine(s) && (d.Heading? || d.Bullet? || d.Ordered? || d.Quote?)
    ensures Decide(s.(prefix := p), d) == Reply(s.(mode := Body, lineStyle := OpenedStyle(d)), Opening(d))
  {
    assert s.(prefix := p).(prefix := "") == s;
    assert [] + Opening(d) == Opening(d);
  }

  lemma OpeningStep(s: State, q: string, c: char, d: Decision)
    requires BareLine(s) && c != '\n' && IsSafe(c) && PrefixDecision(q + [c]) == Some(d)
    requires d.Heading? || d.Bullet? || d.Ordered? || d.Quote?
    ensures Step(s.(prefix := q), Defang(c)) == Reply(s.(mode := Body, lineStyle := OpenedStyle(d)), Opening(d))
  {
    StartStep(s, q, c);
    DecideOpens(s, q + [c], d);
  }

  lemma OpeningRuns(s: State, p: string, d: Decision)
    requires BareLine(s) && OpensWith(p, d)
    ensures Run(s, p) == Reply(s.(mode := Body, lineStyle := OpenedStyle(d)), Opening(d))
  {
    var q, c := p[..|p| - 1], p[|p| - 1];
    assert q + [c] == p;
    UndecidedIsHeld(s, p, d, |p| - 1);
    OpeningStep(s, q, c, d);
    RunThen(s, q, c, s.(prefix := q), Reply(s.(mode := Body, lineStyle := OpenedStyle(d)), Opening(d)));
  }

  /** Of a structured line the opening is replaced, and all that follows it can be read back. */
  lemma BareStructuredLine(s: State, p: string, d: Decision, t: string) returns (body: seq<Token>)
    requires BareLine(s) && OpensWith(p, d) && AllSafe(t) && '\n' !in t
    ensures Run(s, p + (t + "\n")).output == Opening(d) + body
    ensures ReadBack(OpenedStyle(d), None, body) == t + "\n"
  {
    var inBody := s.(mode := Body, lineStyle := OpenedStyle(d));
    OpeningRuns(s, p, d);
    RunConcat(s, p, t + "\n");
    body := Run(inBody, t + "\n").output;
    assert (t + "\n")[..|t|] == t;
    RunIsBodyRun(inBody, t + "\n");
    LineReadsBack(inBody, t);
    assert "" + t + "\n" == t + "\n";
  }

  // ------------------------------------------------------- the line after a table

  /** Holding `p` undecided, the line that goes on with `t` is no table row. */
  predicate NoTableRow(p: string, t: string)
    decreases t
  {
    t != "" ==>
      var grown := p + [t[0]];
      match PrefixDecision(grown)
      case Some(d) => d != TableStart
      case None => |grown| >= PREFIX_CAP || NoTableRow(grown, t[1..])
  }

  lemma DecideDrains(s: State, grown: string, d: Decision)
    requires FreshLine(s) && d != TableStart
    ensures Decide(s.(prefix := grown), d)
         == Decide(s.(table := [], prefix := grown), d).After(Formatter.DrainTable(s).output)
  {
    var first := Structure(s.(table := []), grown, d);
    assert s.(table := [], prefix := grown).(prefix := "") == s.(table := []);
    AppendNothing(first.output);
  }

  /** Any other line first draws the table that waits, and is then as if there had been none. */
  lemma {:induction false} TableIsDrawnFirst(s: State, p: string, t: string)
    requires FreshLine(s) && NoTableRow(p, t) && AllSafe(t) && '\n' !in t
    ensures Run(s.(prefix := p), t + "\n")
         == Run(s.(table := [], prefix := p), t + "\n").After(Formatter.DrainTable(s).output)
    decreases t
  {
    if t == "" {
      EmptyLineDrains(s, p);
      assert t + "\n" == "\n";
    } else {
      var grown := p + [t[0]];
      assert (t + "\n")[1..] == t[1..] + "\n";
      if PrefixDecision(grown).None? && |grown| < PREFIX_CAP {
        TableIsDrawnFirst(s, grown, t[1..]);
        HeldOneMore(s, p, t);
        HeldOneMore(s.(table := []), p, t);
      } else {
        var d := if PrefixDecision(grown).Some? then PrefixDecision(grown).value else Plain;
        DecideDrains(s, grown, d);
        DecidedOneMore(s, p, t, Decide(s.(prefix := grown), d));
        DecidedOneMore(s.(table := []), p, t, Decide(s.(table := [], prefix := grown), d));
        var bare := Decide(s.(table := [], prefix := grown), d);
        ConcatAssociative(Formatter.DrainTable(s).output, bare.output, Run(bare.state, t[1..] + "\n").output);
      }
    }
  }

  lemma HeldOneMore(s: State, p: string, t: string)
    requires FreshLine(s) && t != "" && t[0] != '\n' && IsSafe(t[0])
    requires PrefixDecision(p + [t[0]]).None? && |p| + 1 < PREFIX_CAP
    ensures Run(s.(prefix := p), t + "\n") == Run(s.(prefix := p + [t[0]]), t[1..] + "\n")
  {
    assert (t + "\n")[1..] == t[1..] + "\n";
    var later := Run(s.(prefix := p + [t[0]]), t[1..] + "\n");
    AppendNothing(later.output);
    assert later.After([]) == later;
  }

  lemma DecidedOneMore(s: State, p: string, t: string, first: Reply)
    requires FreshLine(s) && t != "" && t[0] != '\n' && IsSafe(t[0])
    requires first == LineStartStep(s.(prefix := p), t[0])
    ensures Run(s.(prefix := p), t + "\n") == Run(first.state, t[1..] + "\n").After(first.output)
  {
    assert (t + "\n")[1..] == t[1..] + "\n";
  }

  lemma EmptyLineDrains(s: State, p: string)
    requires FreshLine(s)
    ensures Run(s.(prefix := p), "\n")
         == Run(s.(table := [], prefix := p), "\n").After(Formatter.DrainTable(s).output)
  {
    var drained := Formatter.DrainTable(s).output;
    assert "\n"[1..] == "";
    AppendNothing(drained + Chars(p) + [Ch('\n')]);
    AppendNothing([] + Chars(p) + [Ch('\n')]);
    AppendNothing(Chars(p));
    ConcatAssociative(drained, Chars(p), [Ch('\n')]);
  }

  /** A line that is given no structure is shown so that its source can be read back whole; if
      it ends a table, behind the drawing. */
  lemma PlainLineReadsBack(s: State, p: string, t: string) returns (shown: seq<Token>)
    requires FreshLine(s) && '\n' !in t && '\n' !in p && AllSafe(p) && AllSafe(t)
    requires StaysPlain(p, t)
    ensures Run(s.(prefix := p), t + "\n").output == Formatter.DrainTable(s).output + shown
    ensures ReadBack(None, None, shown) == (p + t) + "\n"
  {
    PlainIsNoTableRow(p, t);
    TableIsDrawnFirst(s, p, t);
    BarePlainLine(s.(table := []), p, t);
    shown := Run(s.(table := [], prefix := p), t + "\n").output;
  }

  lemma {:induction false} PlainIsNoTableRow(p: string, t: string)
    requires StaysPlain(p, t)
    ensures NoTableRow(p, t)
    decreases t
  {
    if t != "" && PrefixDecision(p + [t[0]]).None? && |p| + 1 < PREFIX_CAP {
      PlainIsNoTableRow(p + [t[0]], t[1..]);
    }
  }

  /** Of a structured line the opening is replaced, and all that follows it can be read back;
      if it ends a table, behind the drawing. */
  lemma StructuredLineReadsBack(s: State, p: string, d: Decision, t: string) returns (body: seq<Token>)
    requires FreshLine(s) && OpensWith(p, d) && AllSafe(t) && '\n' !in t
    ensures Run(s, p + (t + "\n")).output == Formatter.DrainTable(s).output + (Opening(d) + body)
    ensures ReadBack(OpenedStyle(d), None, body) == t + "\n"
  {
    var bare := s.(table := []);
    OpeningIsNoTableRow(p, d, t, 0);
    assert p[..0] == "" && (p + t)[0..] == p + t && s.(prefix := "") == s && bare.(prefix := "") == bare;
    TableIsDrawnFirst(s, "", p + t);
    ConcatAssociative(p, t, "\n");
    body := BareStructuredLine(bare, p, d, t);
  }

  lemma {:induction false} OpeningIsNoTableRow(p: string, d: Decision, t: string, k: nat)
    requires OpensWith(p, d) && k < |p|
    ensures NoTableRow(p[..k], (p + t)[k..])
    decreases |p| - k
  {
    var line := (p + t)[k..];
    assert p[..k] + [line[0]] == p[..k + 1];
    assert line[1..] == (p + t)[k + 1..];
    if k + 1 < |p| {
      OpeningIsNoTableRow(p, d, t, k + 1);
    } else {
      assert p[..k + 1] == p;
    }
  }

  // ------------------------------------------------------------------- code lines

  /** The start of a line inside a code block. */
  predicate CodeStart(s: State) {
    s.colored && s.mode == LineStart && s.prefix == "" && s.codeBlock && s.lineStyle.None? && s.table == []
  }

  /** What a line of a code block comes to. */
  function CodeLine(s: State, t: string): Reply {
    if "```" <= TrimStart(t) then Reply(s.(codeBlock := false), [])
    else if AwaitsFence(t) then Reply(s, Chars(t + "\n"))
    else Reply(s, [Sgr(Dim)] + Chars("  " + t) + [Sgr(Reset), Ch('\n')])
  }

  lemma HeadMoves(p: string, t: string)
    requires t != ""
    ensures (p + [t[0]]) + t[1..] == p + t
  {}

  /** Trimming the front of a longer text keeps what a shorter one was trimmed to. */
  lemma {:induction false} TrimStartGrows(p: string, t: string)
    ensures TrimStart(p) != "" ==> TrimStart(p + t) == TrimStart(p) + t
    ensures TrimStart(p) == "" ==> TrimStart(p + t) == TrimStart(t)
  {
    if p == "" {
      assert p + t == t;
    } else {
      assert (p + t)[1..] == p[1..] + t;
      TrimStartGrows(p[1..], t);
    }
  }

  /** Once a held fragment is neither, the line it begins is neither. */
  lemma DecidedStays(p: string, t: string)
    requires !AwaitsFence(p)
    ensures !AwaitsFence(p + t)
    ensures "```" <= TrimStart(p + t) <==> "```" <= TrimStart(p)
  {
    TrimStartGrows(p, t);
    var u := TrimStart(p);
    assert u != "";
    if |u| < 3 {
      var i :| 0 <= i < |u| && u[i] != '`';
      assert (u + t)[i] == u[i];
    }
  }

  lemma {:induction false} RawLineRuns(s: State, t: string)
    requires s.mode == RawLine && s.colored && s.lineStyle.Some? && '\n' !in t && AllSafe(t)
    ensures Run(s, t + "\n") == Reply(s.(lineStyle := None, mode := LineStart), Chars(t) + [Sgr(Reset), Ch('\n')])
    decreases t
  {
    if t == "" {
      assert t + "\n" == "\n" && "\n"[1..] == "";
    } else {
      assert (t + "\n")[1..] == t[1..] + "\n";
      RawLineRuns(s, t[1..]);
      assert Chars(t) == [Ch(t[0])] + Chars(t[1..]);
    }
  }

  lemma {:induction false} SkippedLineRuns(s: State, t: string)
    requires s.mode == Skip(false) && '\n' !in t && AllSafe(t)
    ensures Run(s, t + "\n") == Reply(s.(mode := LineStart), [])
    decreases t
  {
    if t == "" {
      assert t + "\n" == "\n" && "\n"[1..] == "";
    } else {
      assert (t + "\n")[1..] == t[1..] + "\n";
      SkippedLineRuns(s, t[1..]);
    }
  }

  /** Inside a code block no markup is read: a line is shown as it stands, indented and dimmed;
      the closing fence shows nothing; and a line that might have become one is shown plain. */
  lemma {:induction false} CodeLineIsVerbatim(s: State, p: string, t: string)
    requires CodeStart(s) && AwaitsFence(p) && AllSafe(p) && AllSafe(t) && '\n' !in p && '\n' !in t
    ensures Run(s.(prefix := p), t + "\n") == CodeLine(s, p + t)
    decreases t
  {
    if t == "" {
      HeldCodeLine(s, p);
      assert t + "\n" == "\n" && p + t == p;
    } else {
      var grown := p + [t[0]];
      assert (t + "\n")[1..] == t[1..] + "\n";
      HeadMoves(p, t);
      if AwaitsFence(grown) {
        CodeLineIsVerbatim(s, grown, t[1..]);
      } else {
        DecidedStays(grown, t[1..]);
        CodeRun(s, p, t);
        DecidedCodeLine(s, p, t, Run(s.(prefix := p), t + "\n"));
      }
    }
  }

  lemma HeldCodeLine(s: State, p: string)
    requires CodeStart(s) && AwaitsFence(p)
    ensures Run(s.(prefix := p), "\n") == CodeLine(s, p)
  {
    var out := [] + Chars(p) + [Ch('\n')];
    assert "\n"[1..] == "";
    assert out + [] == Chars(p + "\n");
  }

  function Fenced(s: State): State {
    s.(codeBlock := false, mode := Skip(false))
  }

  function Dimmed(s: State): State {
    s.(mode := RawLine, lineStyle := Some(Dim))
  }

  lemma CodeRun(s: State, p: string, t: string)
    requires CodeStart(s) && t != "" && !AwaitsFence(p + [t[0]]) && AllSafe(t) && t[0] != '\n'
    ensures Run(s.(prefix := p), t + "\n")
         == if "```" <= TrimStart(p + [t[0]]) then Run(Fenced(s), t[1..] + "\n").After([])
            else Run(Dimmed(s), t[1..] + "\n").After([Sgr(Dim)] + Chars("  ") + Chars(p + [t[0]]))
  {
    CodeStep(s, p, t[0]);
    assert (t + "\n")[1..] == t[1..] + "\n";
  }

  lemma DecidedCodeLine(s: State, p: string, t: string, whole: Reply)
    requires CodeStart(s) && t != "" && !AwaitsFence(p + t) && AllSafe(t) && '\n' !in t
    requires whole == if "```" <= TrimStart(p + t) then Run(Fenced(s), t[1..] + "\n").After([])
                      else Run(Dimmed(s), t[1..] + "\n").After([Sgr(Dim)] + Chars("  ") + Chars(p + [t[0]]))
    ensures whole == CodeLine(s, p + t)
  {
    if "```" <= TrimStart(p + t) {
      SkippedLineRuns(Fenced(s), t[1..]);
    } else {
      var later := DimRest(s, p + [t[0]], t[1..]);
      HeadMoves(p, t);
    }
  }

  lemma DimRest(s: State, a: string, b: string) returns (later: Reply)
    requires s.mode == LineStart && s.colored && s.lineStyle.None? && AllSafe(b) && '\n' !in b
    ensures later == Run(Dimmed(s), b + "\n")
    ensures later.After([Sgr(Dim)] + Chars("  ") + Chars(a))
         == Reply(s, [Sgr(Dim)] + Chars("  " + (a + b)) + [Sgr(Reset), Ch('\n')])
  {
    var raw := Dimmed(s);
    later := Run(raw, b + "\n");
    RawLineRuns(raw, b);
    DimmedLine(a, b);
    assert raw.(lineStyle := None, mode := LineStart) == s;
  }

  /** The character that decides a code line. */
  lemma CodeStep(s: State, p: string, c: char)
    requires CodeStart(s) && !AwaitsFence(p + [c]) && c != '\n' && IsSafe(c)
    ensures "```" <= TrimStart(p + [c]) ==>
              Step(s.(prefix := p), Defang(c)) == Reply(Fenced(s), [])
    ensures "```" <= TrimStart(p + [c]) || Step(s.(prefix := p), Defang(c))
         == Reply(Dimmed(s), [Sgr(Dim)] + Chars("  ") + Chars(p + [c]))
  {}

  lemma DimmedLine(a: string, b: string)
    ensures ([Sgr(Dim)] + Chars("  ") + Chars(a)) + (Chars(b) + [Sgr(Reset), Ch('\n')])
         == [Sgr(Dim)] + Chars("  " + (a + b)) + [Sgr(Reset), Ch('\n')]
  {
    assert Chars("  " + (a + b)) == Chars("  ") + Chars(a) + Chars(b);
  }
}
