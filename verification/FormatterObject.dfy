/** The streaming object: fields updated in place and one shared output buffer. */
module FormatterObject {
  import opened Text
  import opened Terminal
  import opened Formatter
  import Table

  class StreamFormatter {
    const colored: bool
    var mode: Mode
    var prefix: string
    var marker: Option<Held>
    var star: bool
    var lineStyle: Option<Code>
    var codeBlock: bool
    var table: seq<string>
    var tableRow: string
    var output: seq<Token>

    constructor (colored: bool)
      ensures Snapshot() == Initial(colored) && output == []
    {
      this.colored := colored;
      mode, prefix, marker, star, lineStyle := LineStart, "", None, false, None;
      codeBlock, table, tableRow, output := false, [], "", [];
    }

    function Snapshot(): State
      reads this
    {
      State(colored, mode, prefix, marker, star, lineStyle, codeBlock, table, tableRow)
    }

    /** The object's state and its buffer together. */
    function Now(): Reply
      reads this
    {
      Reply(Snapshot(), output)
    }

    method Feed(chunk: string) returns (shown: seq<Token>)
      modifies this
      ensures output == []
      ensures colored ==> Reply(Snapshot(), shown) == Run(old(Snapshot()), chunk)
      ensures !colored ==> Snapshot() == old(Snapshot()) && shown == Chars(DefangAll(chunk))
    {
      if !colored {
        output := [];
        return Chars(DefangAll(chunk));
      }
      output := [];
      for i := 0 to |chunk|
        invariant Now() == Run(old(Snapshot()), chunk[..i])
      {
        RunNext(old(Snapshot()), chunk, i);
        Char(Defang(chunk[i]));
      }
      assert chunk[..|chunk|] == chunk;
      shown := output;
      output := [];
    }

    method Finish() returns (shown: seq<Token>)
      modifies this
      ensures Reply(Snapshot(), shown) == AtEnd(old(Snapshot()))
    {
      if !colored {
        return [];
      }
      ghost var s := Snapshot();
      output := [];
      if mode == TableRow {
        table := table + [tableRow];
        tableRow := "";
      }
      ghost var drained := Formatter.DrainTable(Snapshot());
      AppendNothing(drained.output);
      DrainTable();
      ReleasePending();
      assert output == drained.output + Chars(PendingText(s));
      CloseLine();
      shown := output;
      output := [];
    }

    method CloseLine()
      modifies this
      ensures Snapshot() == old(Snapshot()).(prefix := "", lineStyle := None, mode := LineStart)
      ensures output == old(output) + Chars(old(prefix)) + if old(lineStyle).Some? then [Sgr(Reset)] else []
    {
      output := output + Chars(prefix);
      prefix := "";
      AppendNothing(output);
      if lineStyle.Some? {
        lineStyle := None;
        output := output + [Sgr(Reset)];
      }
      mode := LineStart;
    }

    /** What a line or a stream that ends inside a marker still has to show. */
    method ReleasePending()
      modifies this
      ensures Now() == Reply(old(Snapshot()).(star := false, marker := None),
                             old(output) + Chars(PendingText(old(Snapshot()))))
    {
      ghost var starText := if star then "*" else "";
      ghost var markText := if marker.Some? then marker.value.marker.Raw() + marker.value.body else "";
      CharsConcat(old(output), starText, markText);
      AppendNothing(output);
      if star {
        star := false;
        output := output + [Ch('*')];
      }
      assert output == old(output) + Chars(starText);
      if marker.Some? {
        CharsConcat(output, marker.value.marker.Raw(), marker.value.body);
        output := output + Chars(marker.value.marker.Raw());
        output := output + Chars(marker.value.body);
        marker := None;
      } else {
        AppendNothing(output);
      }
    }

    method Char(c: char)
      modifies this
      ensures Now() == Step(old(Snapshot()), c).After(old(output))
    {
      match mode {
        case Skip(nl) =>
          if c == '\n' {
            if nl {
              output := output + [Ch('\n')];
            }
            mode := LineStart;
          }
        case RawLine =>
          if c == '\n' {
            if lineStyle.Some? && colored {
              output := output + [Sgr(Reset)];
            }
            lineStyle := None;
            output := output + [Ch('\n')];
            mode := LineStart;
          } else {
            output := output + [Ch(c)];
          }
        case TableRow =>
          if c == '\n' {
            table := table + [tableRow];
            tableRow := "";
            mode := LineStart;
          } else {
            tableRow := tableRow + [c];
          }
        case LineStart =>
          LineStartChar(c);
        case Body =>
          BodyChar(c);
      }
    }

    method LineStartChar(c: char)
      modifies this
      ensures Now() == LineStartStep(old(Snapshot()), c).After(old(output))
    {
      if c == '\n' {
        var held := prefix;
        prefix := "";
        DrainTable();
        output := output + Chars(held);
        output := output + [Ch('\n')];
        ghost var drained := Formatter.DrainTable(old(Snapshot())).output;
        ConcatAssociative(old(output), drained, Chars(held));
        ConcatAssociative(old(output), drained + Chars(held), [Ch('\n')]);
        return;
      }
      prefix := prefix + [c];
      if codeBlock {
        var t := TrimStart(prefix);
        AppendNothing(output);
        if AllBackticks(t) && |t| < 3 {
          return;
        }
        if "```" <= t {
          codeBlock := false;
          prefix := "";
          mode := Skip(false);
          return;
        }
        var held := prefix;
        prefix := "";
        if colored {
          output := output + [Sgr(Dim)];
          lineStyle := Some(Dim);
        }
        ghost var dim := if colored then [Sgr(Dim)] else [];
        output := output + Chars("  ");
        output := output + Chars(held);
        mode := RawLine;
        ConcatAssociative(old(output), dim, Chars("  "));
        ConcatAssociative(old(output), dim + Chars("  "), Chars(held));
        return;
      }
      match PrefixDecision(prefix) {
        case Some(d) =>
          ApplyDecision(d);
        case None =>
          if |prefix| >= PREFIX_CAP {
            ApplyDecision(Plain);
          } else {
            AppendNothing(output);
          }
      }
    }

    method ApplyDecision(d: Decision)
      modifies this
      ensures Now() == Decide(old(Snapshot()), d).After(old(output))
    {
      if d != TableStart {
        DrainTable();
      } else {
        AppendNothing(output);
      }
      ghost var drained := output;
      var held := prefix;
      prefix := "";
      ApplyStructure(held, d);
      ghost var s := old(Snapshot());
      ghost var first := if d == TableStart then Reply(s, []) else Formatter.DrainTable(s);
      assert drained == old(output) + first.output;
      ConcatAssociative(old(output), first.output, Structure(first.state.(prefix := ""), held, d).output);
    }

    method ApplyStructure(held: string, d: Decision)
      modifies this
      ensures Now() == Structure(old(Snapshot()), held, d).After(old(output))
    {
      AppendNothing(output);
      match d {
        case Plain =>
          mode := Body;
          for i := 0 to |held|
            invariant Now() == BodyRun(old(Snapshot()).(mode := Body), held[..i]).After(old(output))
          {
            AppendBody(old(Snapshot()).(mode := Body), held[..i], held[i], old(output));
            assert held[..i] + [held[i]] == held[..i + 1];
            BodyChar(held[i]);
          }
          assert held[..|held|] == held;
        case Heading =>
          output := output + if colored then [Sgr(Bold)] else [];
          lineStyle := Some(Bold);
          mode := Body;
        case Bullet(space) =>
          output := output + Chars(space + "  \U{2022} ");
          mode := Body;
        case Ordered(space, tag) =>
          output := output + Chars(space + "  " + tag);
          mode := Body;
        case Quote =>
          ghost var dim := if colored then [Sgr(Dim)] else [];
          output := output + if colored then [Sgr(Dim)] else [];
          output := output + Chars("  \U{2502} ");
          ConcatAssociative(old(output), dim, Chars("  \U{2502} "));
          lineStyle := Some(Dim);
          mode := Body;
        case TableStart =>
          tableRow := held;
          mode := TableRow;
        case Fence =>
          codeBlock := true;
          mode := Skip(false);
        case Separator =>
          output := output + Paint(colored, Dim, "  " + Table.Dashes(8));
          mode := Skip(true);
      }
    }

    method BodyChar(c: char)
      modifies this
      ensures Now() == BodyStep(old(Snapshot()), c).After(old(output))
    {
      if c == '\n' {
        FinishLine();
        return;
      }
      if marker.Some? {
        HeldChar(c);
        return;
      }
      if star {
        star := false;
        if c == '*' {
          marker := Some(Held(BoldMark, ""));
          AppendNothing(output);
          return;
        }
        output := output + [Ch('*')];
      }
      ghost var before, s := output, Snapshot();
      match c {
        case '`' => marker := Some(Held(CodeMark, "")); AppendNothing(output);
        case '*' => star := true; AppendNothing(output);
        case _ => output := output + [Ch(c)];
      }
      if old(star) {
        ConcatAssociative(old(output), [Ch('*')], PlainStep(s, c).output);
      }
    }

    method HeldChar(c: char)
      requires c != '\n' && marker.Some?
      modifies this
      ensures Now() == HeldStep(old(Snapshot()), old(marker.value), c).After(old(output))
    {
      ghost var r := HeldStep(Snapshot(), marker.value, c);
      var Held(kind, body) := marker.value;
      marker := None;
      ghost var closed := Snapshot();
      AppendNothing(output);
      if kind == CodeMark && c == '`' {
        assert r == Reply(closed, Span(closed, kind, body));
        WriteSpan(kind, body);
        return;
      }
      body := body + [c];
      if kind == BoldMark && EndsWithStars(body) {
        body := body[..|body| - 2];
        assert r == Reply(closed, Span(closed, kind, body));
        WriteSpan(kind, body);
        return;
      }
      if |body| > MARKER_CAP {
        assert r == Reply(closed, Chars(kind.Raw() + body));
        output := output + Chars(kind.Raw() + body);
        return;
      }
      assert r == Reply(closed.(marker := Some(Held(kind, body))), []);
      marker := Some(Held(kind, body));
    }

    method WriteSpan(kind: Marker, body: string)
      modifies this`output
      ensures output == old(output) + Span(Snapshot(), kind, body)
    {
      if !colored {
        output := output + Chars(body);
        return;
      }
      ghost var open, text := [Sgr(kind.Style())], Chars(body);
      output := output + [Sgr(kind.Style())];
      output := output + Chars(body);
      ConcatAssociative(old(output), open, text);
      output := output + [Sgr(Reset)];
      ConcatAssociative(old(output), open + text, [Sgr(Reset)]);
      if lineStyle.Some? {
        output := output + [Sgr(lineStyle.value)];
        ConcatAssociative(old(output), open + text + [Sgr(Reset)], [Sgr(lineStyle.value)]);
      } else {
        AppendNothing(open + text + [Sgr(Reset)]);
      }
    }

    method FinishLine()
      modifies this
      ensures Now() == EndLine(old(Snapshot())).After(old(output))
    {
      ReleasePending();
      if lineStyle.Some? && colored {
        output := output + [Sgr(Reset)];
      } else {
        AppendNothing(output);
      }
      lineStyle := None;
      output := output + [Ch('\n')];
      mode := LineStart;
      ghost var s := old(Snapshot());
      ConcatAssociative(old(output), Chars(PendingText(s)), ResetIf(s));
      ConcatAssociative(old(output), Chars(PendingText(s)) + ResetIf(s), [Ch('\n')]);
    }

    method DrainTable()
      modifies this
      ensures Now() == Formatter.DrainTable(old(Snapshot())).After(old(output))
    {
      if table == [] {
        return;
      }
      var raw := table;
      table := [];
      var text := Table.DrawTable(raw, colored);
      output := output + text;
    }
  }

  lemma RunNext(s: State, t: string, i: nat)
    requires i < |t|
    ensures Run(s, t[..i + 1]) == Step(Run(s, t[..i]).state, Defang(t[i])).After(Run(s, t[..i]).output)
  {
    RunSnoc(s, t[..i], t[i]);
    assert t[..i] + [t[i]] == t[..i + 1];
  }

  lemma CharsConcat(before: seq<Token>, a: string, b: string)
    ensures before + Chars(a + b) == (before + Chars(a)) + Chars(b)
  {}

  lemma AppendBody(s: State, a: string, c: char, before: seq<Token>)
    ensures BodyRun(s, a + [c]).After(before)
         == BodyStep(BodyRun(s, a).state, c).After(BodyRun(s, a).After(before).output)
  {
    BodyRunSnoc(s, a, c);
    ConcatAssociative(before, BodyRun(s, a).output, BodyStep(BodyRun(s, a).state, c).output);
  }

  /** A whole stream through one formatter: the chunk boundaries leave no trace. */
  method Stream(colored: bool, chunks: seq<string>) returns (shown: seq<Token>)
    ensures shown == Rendered(colored, Flatten(chunks))
  {
    var f := new StreamFormatter(colored);
    shown := FeedAll(f, chunks);
    var last := f.Finish();
    AppendNothing(shown);
    shown := shown + last;
  }

  method FeedAll(f: StreamFormatter, chunks: seq<string>) returns (shown: seq<Token>)
    requires f.Snapshot() == Initial(f.colored)
    modifies f
    ensures f.colored ==> Reply(f.Snapshot(), shown) == Run(Initial(true), Flatten(chunks))
    ensures !f.colored ==> f.Snapshot() == Initial(false) && shown == Chars(DefangAll(Flatten(chunks)))
  {
    shown := [];
    for i := 0 to |chunks|
      invariant Fed(f.colored, Flatten(chunks[..i]), f.Snapshot(), shown)
    {
      FlattenSnoc(chunks[..i], chunks[i]);
      assert chunks[..i] + [chunks[i]] == chunks[..i + 1];
      FedMore(f.colored, Flatten(chunks[..i]), chunks[i], f.Snapshot(), shown);
      var part := f.Feed(chunks[i]);
      shown := shown + part;
    }
    assert chunks[..|chunks|] == chunks;
  }

  /** Where a formatter stands once it has been fed `text` and has shown `shown`. */
  ghost predicate Fed(colored: bool, text: string, s: State, shown: seq<Token>) {
    if colored then Reply(s, shown) == Run(Initial(true), text)
    else s == Initial(false) && shown == Chars(DefangAll(text))
  }

  lemma FedMore(colored: bool, text: string, chunk: string, s: State, shown: seq<Token>)
    requires Fed(colored, text, s, shown)
    ensures colored ==> Fed(true, text + chunk, Run(s, chunk).state, shown + Run(s, chunk).output)
    ensures !colored ==> Fed(false, text + chunk, s, shown + Chars(DefangAll(chunk)))
  {
    if colored {
      RunConcat(Initial(true), text, chunk);
    } else {
      assert DefangAll(text + chunk) == DefangAll(text) + DefangAll(chunk);
    }
  }
}
