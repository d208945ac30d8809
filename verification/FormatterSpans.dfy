/** Which marked-up text is styled, and what the end of a stream shows. */
module FormatterSpans {
  import opened Text
  import opened Terminal
  import opened Formatter
  import FormatterSafety
  import Table

  /** In the body of a line, nothing pending. */
  predicate AtRest(s: State) {
    s.mode == Body && s.marker.None? && !s.star
  }

  /** Text in a style of its own, inside a line that may have one. */
  function Styled(s: State, code: Code, x: string): seq<Token> {
    if s.colored then
      [Sgr(code)] + Chars(x) + [Sgr(Reset)] + if s.lineStyle.Some? then [Sgr(s.lineStyle.value)] else []
    else Chars(x)
  }

  /** No two stars side by side. */
  predicate SingleStars(x: string) {
    forall k :: 0 < k < |x| ==> !(x[k - 1] == '*' && x[k] == '*')
  }

  /** And none at the end: nothing in `x` closes a bold span early. */
  predicate NoStars(x: string) {
    SingleStars(x) && (x != "" ==> x[|x| - 1] != '*')
  }

  /** Text without marks is written as it comes. */
  lemma {:induction false} UnmarkedText(s: State, x: string)
    requires AtRest(s) && '`' !in x && '*' !in x && '\n' !in x
    ensures BodyRun(s, x) == Reply(s, Chars(x))
    decreases x
  {
    if x != "" {
      UnmarkedText(s, x[1..]);
      assert Chars(x) == [Ch(x[0])] + Chars(x[1..]);
    }
  }

  /** Inside a marker, up to its cap and with nothing that closes it, everything is held. */
  lemma {:induction false} Collects(s: State, marker: Marker, body: string, x: string)
    requires AtRest(s) && '\n' !in x && |body + x| <= MARKER_CAP
    requires marker == CodeMark ==> '`' !in x
    requires marker == BoldMark ==> SingleStars(body + x)
    ensures BodyRun(s.(marker := Some(Held(marker, body))), x) == Reply(s.(marker := Some(Held(marker, body + x))), [])
    decreases x
  {
    var grown := body + if x == "" then "" else [x[0]];
    assert x != "" ==> grown + x[1..] == body + x;
    if x == "" {
      assert body + x == body;
    } else {
      assert forall k :: 0 <= k < |grown| ==> grown[k] == (body + x)[k];
      Collects(s, marker, grown, x[1..]);
    }
  }

  lemma Opens(s: State, marker: Marker)
    requires AtRest(s)
    ensures BodyRun(s, marker.Raw()) == Reply(s.(marker := Some(Held(marker, ""))), [])
  {
    var raw := marker.Raw();
    if marker == BoldMark {
      assert raw[1..] == "*" && "*"[1..] == "";
    } else {
      assert raw[1..] == "";
    }
  }

  lemma OpensAndCollects(s: State, marker: Marker, x: string)
    requires AtRest(s) && '\n' !in x && |x| <= MARKER_CAP
    requires marker == CodeMark ==> '`' !in x
    requires marker == BoldMark ==> SingleStars(x)
    ensures BodyRun(s, marker.Raw() + x) == Reply(s.(marker := Some(Held(marker, x))), [])
  {
    Opens(s, marker);
    assert "" + x == x;
    Collects(s, marker, "", x);
    BodyRunConcat(s, marker.Raw(), x);
  }

  /** Between two backticks text is shown in reverse, the backticks gone. */
  lemma CodeSpanIsStyled(s: State, x: string)
    requires AtRest(s) && '`' !in x && '\n' !in x && |x| <= MARKER_CAP
    ensures BodyRun(s, ("`" + x) + "`") == Reply(s, Styled(s, Reverse, x))
  {
    OpensAndCollects(s, CodeMark, x);
    BodyRunSnoc(s, "`" + x, '`');
    AppendNothing(Styled(s, Reverse, x));
  }

  /** Between two pairs of stars it is shown bold, the stars gone. */
  lemma BoldSpanIsStyled(s: State, x: string)
    requires AtRest(s) && NoStars(x) && '\n' !in x && |x| < MARKER_CAP
    ensures BodyRun(s, (("**" + x) + "*") + "*") == Reply(s, Styled(s, Bold, x))
  {
    var starred := x + "*";
    OpensAndCollects(s, BoldMark, starred);
    assert "**" + starred == ("**" + x) + "*";
    BodyRunSnoc(s, "**" + starred, '*');
    BoldCloses(s, x);
    AppendNothing(Styled(s, Bold, x));
  }

  lemma BoldCloses(s: State, x: string)
    requires AtRest(s)
    ensures BodyStep(s.(marker := Some(Held(BoldMark, x + "*"))), '*') == Reply(s, Styled(s, Bold, x))
  {
    var body := (x + "*") + ['*'];
    assert body[..|body| - 2] == x;
  }

  /** One character too many in an open marker: it is shown as it was typed, and the line goes on
      as if there had been none. */
  lemma OverlongIsReleased(s: State, marker: Marker, x: string, c: char)
    requires AtRest(s) && '\n' !in x && c != '\n' && |x| == MARKER_CAP
    requires marker == CodeMark ==> '`' !in x && c != '`'
    requires marker == BoldMark ==> NoStars(x)
    ensures BodyRun(s, (marker.Raw() + x) + [c]) == Reply(s, Chars((marker.Raw() + x) + [c]))
  {
    OpensAndCollects(s, marker, x);
    BodyRunSnoc(s, marker.Raw() + x, c);
    ConcatAssociative(marker.Raw(), x, [c]);
    AppendNothing(Chars(marker.Raw() + (x + [c])));
  }

  // ------------------------------------------------------------- the end of a stream

  /** Something drawn, then plain text, then whatever shows nothing or a line break. */
  lemma PrintedLine(drawn: seq<Token>, x: string, tail: seq<Token>)
    ensures Printed(drawn + Chars(x) + tail) == Printed(drawn) + x + Printed(tail)
  {
    PrintedConcat(drawn, Chars(x));
    PrintedChars(x);
    PrintedConcat(drawn + Chars(x), tail);
  }

  lemma PrintedTails(s: State)
    ensures Printed(ResetIf(s)) == "" && Printed([Sgr(Reset)]) == "" && Printed([]) == ""
    ensures Printed(ResetIf(s) + [Ch('\n')]) == "\n" && Printed([Ch('\n')]) == "\n"
  {
    PrintedConcat(ResetIf(s), [Ch('\n')]);
    assert [Sgr(Reset)][1..] == [] && [Ch('\n')][1..] == [];
  }

  /** Ending the stream shows what ending the line would: what is pending at a line start or in
      a body, the table that waits, half a row of it included. Only the line break is not shown. */
  lemma EndOfStreamIsEndOfLine(s: State)
    requires FormatterSafety.Valid(s)
    ensures var line := Step(s, '\n');
            var ended := Printed(AtEnd(s).output);
            Printed(line.output + AtEnd(line.state).output)
            == if s.mode == TableRow || s.mode == Skip(false) then ended else ended + "\n"
  {
    var line := Step(s, '\n');
    PrintedConcat(line.output, AtEnd(line.state).output);
    PrintedTails(s);
    match s.mode {
      case LineStart => LineStartEnds(s);
      case Body => BodyEnds(s);
      case RawLine => OtherEnds(s);
      case Skip(_) => OtherEnds(s);
      case TableRow => assert AtEnd(line.state).output == AtEnd(s).output;
    }
  }

  lemma LineStartEnds(s: State)
    requires FormatterSafety.Valid(s) && s.mode == LineStart
    ensures Printed(Step(s, '\n').output) == Printed(AtEnd(s).output) + "\n"
    ensures AtEnd(Step(s, '\n').state).output == []
  {
    var drawn := Formatter.DrainTable(s).output;
    PrintedTails(s);
    StartTokens(s, drawn);
    PrintedLine(drawn, s.prefix, [Ch('\n')]);
    PrintedLine(drawn, s.prefix, []);
    AppendNothing(Printed(drawn) + s.prefix);
  }

  lemma StartTokens(s: State, drawn: seq<Token>)
    requires FormatterSafety.Valid(s) && s.mode == LineStart && drawn == Formatter.DrainTable(s).output
    ensures LineStartStep(s, '\n').output == drawn + Chars(s.prefix) + [Ch('\n')]
    ensures AtEnd(s).output == drawn + Chars(s.prefix) + []
    ensures AtEnd(LineStartStep(s, '\n').state).output == []
  {
    assert drawn + [] == drawn;
    assert LineStartStep(s, '\n').state == s.(table := [], prefix := "");
  }

  lemma BodyEnds(s: State)
    requires FormatterSafety.Valid(s) && s.mode == Body
    ensures Printed(Step(s, '\n').output) == Printed(AtEnd(s).output) + "\n"
    ensures AtEnd(Step(s, '\n').state).output == []
  {
    var x := PendingText(s);
    PrintedTails(s);
    BodyTokens(s, x);
    PrintedLine([], x, ResetIf(s) + [Ch('\n')]);
    PrintedLine([], x, ResetIf(s));
    AppendNothing("" + x);
  }

  lemma BodyTokens(s: State, x: string)
    requires FormatterSafety.Valid(s) && s.mode == Body && x == PendingText(s)
    ensures EndLine(s).output == [] + Chars(x) + (ResetIf(s) + [Ch('\n')])
    ensures AtEnd(s).output == [] + Chars(x) + ResetIf(s)
    ensures AtEnd(EndLine(s).state).output == []
  {
    ConcatAssociative(Chars(x), ResetIf(s), [Ch('\n')]);
    AppendNothing(Chars(x));
    assert s.prefix == "" && Chars(s.prefix) == [];
  }

  lemma OtherEnds(s: State)
    requires FormatterSafety.Valid(s) && (s.mode == RawLine || s.mode.Skip?)
    ensures Printed(AtEnd(s).output) == "" && AtEnd(Step(s, '\n').state).output == []
    ensures Printed(Step(s, '\n').output) == if s.mode == Skip(false) then "" else "\n"
  {
    PrintedTails(s);
  }
}
