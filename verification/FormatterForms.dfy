/** What a line must look like to be given a structure, by concatenation, and how it is shown. */
module FormatterForms {
  import opened Text
  import opened Terminal
  import opened Formatter
  import opened FormatterReadBack
  import FormatterHeld
  import TableLines
  import Table

  function Hashes(n: nat): (s: string)
    ensures |s| == n && forall i :: 0 <= i < n ==> s[i] == '#'
  {
    seq(n, _ => '#')
  }

  predicate AllDigits(s: string) {
    forall i :: 0 <= i < |s| ==> IsDigit(s[i])
  }

  /** Behind the blanks `b`, the mark `m` opens structure `d`. */
  predicate IsForm(b: string, m: string, d: Decision) {
    AllBlank(b)
    && match d
       case Heading => 2 <= |m| <= 7 && m == Hashes(|m| - 1) + " "
       case Bullet(space) => space == b && (m == "- " || m == "* " || m == "+ ")
       case Ordered(space, tag) =>
         && space == b && tag == m && 3 <= |m| <= 5 && AllDigits(m[..|m| - 2])
         && (m == m[..|m| - 2] + ". " || m == m[..|m| - 2] + ") ")
       case Quote => m == "> "
       case TableStart => m == "|"
       case Fence => m == "```"
       case Separator => m == "---" || m == "+++"
       case Plain => false
  }

  predicate FormOf(p: string, b: string, m: string, d: Decision) {
    p == b + m && IsForm(b, m, d)
  }

  ghost predicate HasForm(p: string, d: Decision) {
    exists b: string, m: string :: FormOf(p, b, m, d)
  }

  /** The line is decided at the end of `p`, and not before. */
  predicate DecidedAt(p: string, d: Decision) {
    PrefixDecision(p) == Some(d) && forall k :: 0 < k < |p| ==> PrefixDecision(p[..k]).None?
  }

  lemma {:induction false} BlanksDrop(b: string, m: string)
    requires AllBlank(b) && (m == "" || FormatterHeld.NotBlank(m))
    ensures DropBlanks(b + m) == m
  {
    if b == "" {
      assert b + m == m;
    } else {
      assert (b + m)[1..] == b[1..] + m;
      BlanksDrop(b[1..], m);
    }
  }

  /** Short of its last character, a mark still leaves the structure open. */
  lemma MarkIsUnfinished(b: string, m: string, d: Decision)
    requires IsForm(b, m, d)
    ensures FormatterHeld.NotBlank(m)
    ensures |m| == 1 || (FormatterHeld.Unfinished(m[..|m| - 1]) && FormatterHeld.NotBlank(m[..|m| - 1]))
  {
    if d.Heading? {
      assert m[..|m| - 1] == Hashes(|m| - 1);
    } else if d.Ordered? {
      OrderedMark(m);
    }
  }

  lemma OrderedMark(m: string)
    requires 3 <= |m| <= 5 && AllDigits(m[..|m| - 2]) && (m[|m| - 2] == '.' || m[|m| - 2] == ')')
    ensures CountDigits(m) == |m| - 2 == CountDigits(m[..|m| - 1]) && IsDigit(m[0])
  {
    assert m[0] == m[..|m| - 2][0];
    assert forall i :: 0 <= i < |m| - 2 ==> m[i] == m[..|m| - 2][i];
  }

  lemma HeadingMark(m: string)
    requires 2 <= |m| && (forall i :: 0 <= i < |m| - 1 ==> m[i] == '#') && m[|m| - 1] == ' '
    ensures CountHashes(m) == |m| - 1
  {}

  lemma MarkDecides(b: string, m: string, d: Decision)
    requires IsForm(b, m, d) && FormatterHeld.NotBlank(m)
    ensures PrefixDecision(b + m) == Some(d)
  {
    BlanksDrop(b, m);
    assert (b + m)[..|b|] == b;
    if d.Ordered? {
      OrderedMark(m);
      OrderedDecides(b, m);
    } else if d.Heading? {
      assert forall i :: 0 <= i < |m| - 1 ==> m[i] == Hashes(|m| - 1)[i];
      HeadingMark(m);
      HeadingDecides(b, m);
    } else {
      OtherDecides(b, m, d);
    }
  }

  lemma HeadingDecides(b: string, m: string)
    requires DropBlanks(b + m) == m && 2 <= |m| <= 7
    requires CountHashes(m) == |m| - 1 && m[0] == '#' && m[|m| - 1] == ' '
    ensures PrefixDecision(b + m) == Some(Heading)
  {}

  lemma OrderedDecides(b: string, m: string)
    requires DropBlanks(b + m) == m && (b + m)[..|b|] == b && 3 <= |m| && IsDigit(m[0])
    requires CountDigits(m) == |m| - 2 && (m[|m| - 2] == '.' || m[|m| - 2] == ')') && m[|m| - 1] == ' '
    ensures PrefixDecision(b + m) == Some(Ordered(b, m))
  {
    assert m[..|m|] == m;
  }

  lemma OtherDecides(b: string, m: string, d: Decision)
    requires IsForm(b, m, d) && !d.Ordered? && !d.Heading? && DropBlanks(b + m) == m && (b + m)[..|b|] == b
    ensures PrefixDecision(b + m) == Some(d)
  {
    match d {
      case Bullet(_) => BulletDecides(b, m);
      case Quote => QuoteDecides(b, m);
      case TableStart => TableDecides(b, m);
      case Fence => FenceDecides(b, m);
      case Separator => RuleDecides(b, m);
    }
  }

  lemma BulletDecides(b: string, m: string)
    requires DropBlanks(b + m) == m && (b + m)[..|b|] == b && |m| == 2
    requires (m[0] == '-' || m[0] == '*' || m[0] == '+') && m[1] == ' '
    ensures PrefixDecision(b + m) == Some(Bullet(b))
  {}

  lemma QuoteDecides(b: string, m: string)
    requires DropBlanks(b + m) == m && |m| == 2 && m[0] == '>' && m[1] == ' '
    ensures PrefixDecision(b + m) == Some(Quote)
  {}

  lemma TableDecides(b: string, m: string)
    requires DropBlanks(b + m) == m && |m| == 1 && m[0] == '|'
    ensures PrefixDecision(b + m) == Some(TableStart)
  {}

  lemma FenceDecides(b: string, m: string)
    requires DropBlanks(b + m) == m && m == "```"
    ensures PrefixDecision(b + m) == Some(Fence)
  {
    assert m[0] == '`' && |m| == 3;
  }

  lemma RuleDecides(b: string, m: string)
    requires DropBlanks(b + m) == m && |m| == 3 && m[0] == m[1] == m[2] && (m[0] == '-' || m[0] == '+')
    ensures PrefixDecision(b + m) == Some(Separator)
  {}

  lemma FormDecides(b: string, m: string, d: Decision)
    requires IsForm(b, m, d)
    ensures DecidedAt(b + m, d)
  {
    MarkIsUnfinished(b, m, d);
    MarkDecides(b, m, d);
    ShortOfMark(b, m);
  }

  lemma ShortOfMark(b: string, m: string)
    requires AllBlank(b) && m != ""
    requires |m| == 1 || (FormatterHeld.Unfinished(m[..|m| - 1]) && FormatterHeld.NotBlank(m[..|m| - 1]))
    ensures forall k :: 0 < k < |b + m| ==> PrefixDecision((b + m)[..k]).None?
  {
    var p := b + m;
    var q := p[..|p| - 1];
    assert q == b + m[..|m| - 1];
    BlanksDrop(b, m[..|m| - 1]);
    FormatterHeld.UndecidedIff(q);
    assert forall k :: 0 < k < |p| ==> p[..k] == q[..k];
  }

  /** The body of a line decided at its end was open before it. */
  lemma DecidedBody(p: string, d: Decision) returns (b: string, m: string)
    requires DecidedAt(p, d)
    ensures p == b + m && AllBlank(b) && FormatterHeld.NotBlank(m) && DropBlanks(p) == m
    ensures |m| == 1 || FormatterHeld.Unfinished(m[..|m| - 1])
  {
    m := DropBlanks(p);
    b := p[..|p| - |m|];
    SomeIsNotBlank(p);
    FormatterHeld.DropBlanksSplits(p);
    BodyWasOpen(p, d, m);
  }

  lemma SomeIsNotBlank(p: string)
    requires PrefixDecision(p).Some?
    ensures p != "" && DropBlanks(p) != ""
  {}

  lemma BodyWasOpen(p: string, d: Decision, m: string)
    requires DecidedAt(p, d) && p != "" && m == DropBlanks(p) && m != ""
    ensures |m| == 1 || FormatterHeld.Unfinished(m[..|m| - 1])
  {
    FormatterHeld.DropBlanksOfPrefix(p, |p| - 1);
    var q := p[..|p| - 1];
    assert forall k :: 0 < k <= |q| ==> q[..k] == p[..k];
    FormatterHeld.UndecidedIff(q);
  }

  /** What was open until the last character of the mark, and is decided there. */
  predicate IsOpenMark(b: string, m: string, d: Decision) {
    && AllBlank(b) && FormatterHeld.NotBlank(m) && DropBlanks(b + m) == m && d != Plain
    && (|m| == 1 || FormatterHeld.Unfinished(m[..|m| - 1]))
    && PrefixDecision(b + m) == Some(d)
  }

  lemma OpenMark(b: string, m: string, d: Decision)
    requires IsOpenMark(b, m, d)
    ensures IsForm(b, m, d)
  {
    if IsDigit(m[0]) {
      OpenDigits(b, m, d);
    } else if m[0] == '#' {
      OpenHashes(b, m, d);
    } else {
      OpenOther(b, m, d);
    }
  }

  lemma OpenDigits(b: string, m: string, d: Decision)
    requires IsOpenMark(b, m, d) && IsDigit(m[0])
    ensures IsForm(b, m, d)
  {
    assert (b + m)[..|b|] == b;
    DigitsDecide(b, m, d);
    DigitsShort(m);
    assert m[..|m|] == m;
    assert m == m[..CountDigits(m)] + [m[CountDigits(m)], ' '];
  }

  lemma DigitsDecide(b: string, m: string, d: Decision)
    requires DropBlanks(b + m) == m && (b + m)[..|b|] == b && m != "" && IsDigit(m[0])
    requires PrefixDecision(b + m) == Some(d) && d != Plain
    ensures var n := CountDigits(m);
            && n + 2 <= |m| && (m[n] == '.' || m[n] == ')') && m[n + 1] == ' ' && d == Ordered(b, m[..n + 2])
  {}

  lemma OpenHashes(b: string, m: string, d: Decision)
    requires IsOpenMark(b, m, d) && m[0] == '#'
    ensures IsForm(b, m, d)
  {
    var n := CountHashes(m);
    assert n < |m| && m[n] == ' ' && d == Heading;
    HashesShort(m);
  }

  lemma OpenOther(b: string, m: string, d: Decision)
    requires IsOpenMark(b, m, d) && m[0] != '#' && !IsDigit(m[0])
    ensures IsForm(b, m, d)
  {
    assert (b + m)[..|b|] == b;
    OtherShort(m);
  }

  /** One or two characters short of a mark that counts nothing. */
  lemma OtherShort(m: string)
    requires m != "" && m[0] != '#' && !IsDigit(m[0])
    requires |m| == 1 || FormatterHeld.Unfinished(m[..|m| - 1])
    ensures |m| <= 3
    ensures |m| == 2 ==> m == [m[0], m[1]]
    ensures |m| == 3 ==> m == [m[0], m[1], m[2]] && m[1] == m[0] && (m[0] == '`' || m[0] == '-' || m[0] == '+')
  {
    if |m| > 1 {
      var q := m[..|m| - 1];
      assert q[0] == m[0];
      assert |q| > 1 ==> q[1] == m[1];
    }
  }

  lemma DigitsShort(m: string)
    requires |m| >= 2 && IsDigit(m[0]) && CountDigits(m) + 2 <= |m| && FormatterHeld.Unfinished(m[..|m| - 1])
    ensures |m| == CountDigits(m) + 2 && CountDigits(m) <= 3
  {
    FormatterHeld.CountsOfPrefix(m, |m| - 1);
    assert m[..|m| - 1][0] == m[0];
  }

  lemma HashesShort(m: string)
    requires |m| >= 2 && m[0] == '#' && CountHashes(m) < |m| && FormatterHeld.Unfinished(m[..|m| - 1])
    ensures CountHashes(m) == |m| - 1 && |m| <= 7 && m[..|m| - 1] == Hashes(|m| - 1)
  {
    FormatterHeld.CountsOfPrefix(m, |m| - 1);
    assert m[..|m| - 1][0] == m[0];
  }

  /** A structure is decided at the end of exactly the texts of its form. */
  lemma FormIff(p: string, d: Decision)
    requires d != Plain
    ensures DecidedAt(p, d) <==> HasForm(p, d)
  {
    if DecidedAt(p, d) {
      var b, m := DecidedBody(p, d);
      OpenMark(b, m, d);
      assert FormOf(p, b, m, d);
    }
    if HasForm(p, d) {
      var b: string, m: string :| FormOf(p, b, m, d);
      FormDecides(b, m, d);
    }
  }

  // ------------------------------------------------------------- whole lines, by form

  /** What a line of each form needs: the mark ends before the cap, and the rest is one line. */
  predicate IsLine(b: string, m: string, d: Decision, t: string) {
    IsForm(b, m, d) && |b + m| <= PREFIX_CAP && AllSafe(t) && '\n' !in t
  }

  lemma FormIsSafe(b: string, m: string, d: Decision)
    requires IsForm(b, m, d)
    ensures b + m != "" && AllSafe(b + m) && '\n' !in b + m
  {
    if d.Ordered? {
      assert forall i :: 0 <= i < |m| - 2 ==> m[i] == m[..|m| - 2][i];
    }
  }

  lemma FormOpens(b: string, m: string, d: Decision, t: string)
    requires IsLine(b, m, d, t) && (d.Heading? || d.Bullet? || d.Ordered? || d.Quote?)
    ensures OpensWith(b + m, d)
  {
    FormDecides(b, m, d);
    FormIsSafe(b, m, d);
  }

  /** One to six hashes and a space: bold, and the rest of the line after it. */
  lemma HeadingLine(s: State, b: string, n: nat, t: string) returns (body: seq<Token>)
    requires FreshLine(s) && AllBlank(b) && 1 <= n <= 6 && |b| + n + 1 <= PREFIX_CAP && AllSafe(t) && '\n' !in t
    ensures Run(s, (b + (Hashes(n) + " ")) + (t + "\n")).output
         == Formatter.DrainTable(s).output + ([Sgr(Bold)] + body)
    ensures ReadBack(Some(Bold), None, body) == t + "\n"
  {
    FormOpens(b, Hashes(n) + " ", Heading, t);
    body := StructuredLineReadsBack(s, b + (Hashes(n) + " "), Heading, t);
  }

  /** A dash, a star or a plus and a space: a bullet behind the same blanks. */
  lemma BulletLine(s: State, b: string, m: string, t: string) returns (body: seq<Token>)
    requires FreshLine(s) && AllBlank(b) && |b| + 2 <= PREFIX_CAP && AllSafe(t) && '\n' !in t
    requires m == "- " || m == "* " || m == "+ "
    ensures Run(s, (b + m) + (t + "\n")).output
         == Formatter.DrainTable(s).output + (Chars(b + "  \U{2022} ") + body)
    ensures ReadBack(None, None, body) == t + "\n"
  {
    FormOpens(b, m, Bullet(b), t);
    body := StructuredLineReadsBack(s, b + m, Bullet(b), t);
  }

  /** One to three digits, a full stop or a parenthesis, and a space: kept, behind the same blanks. */
  lemma OrderedLine(s: State, b: string, digits: string, m: string, t: string) returns (body: seq<Token>)
    requires FreshLine(s) && AllBlank(b) && AllDigits(digits) && 1 <= |digits| <= 3 && AllSafe(t) && '\n' !in t
    requires (m == digits + ". " || m == digits + ") ") && |b| + |m| <= PREFIX_CAP
    ensures Run(s, (b + m) + (t + "\n")).output == Formatter.DrainTable(s).output + (Chars(b + "  " + m) + body)
    ensures ReadBack(None, None, body) == t + "\n"
  {
    assert m[..|m| - 2] == digits;
    FormOpens(b, m, Ordered(b, m), t);
    body := StructuredLineReadsBack(s, b + m, Ordered(b, m), t);
  }

  /** An angle and a space: dim behind a bar. */
  lemma QuoteLine(s: State, b: string, t: string) returns (body: seq<Token>)
    requires FreshLine(s) && AllBlank(b) && |b| + 2 <= PREFIX_CAP && AllSafe(t) && '\n' !in t
    ensures Run(s, (b + "> ") + (t + "\n")).output
         == Formatter.DrainTable(s).output + ([Sgr(Dim)] + Chars("  \U{2502} ") + body)
    ensures ReadBack(Some(Dim), None, body) == t + "\n"
  {
    FormOpens(b, "> ", Quote, t);
    body := StructuredLineReadsBack(s, b + "> ", Quote, t);
  }

  // ------------------------------------------------- lines that are not read as text

  lemma {:induction false} HeldTo(s: State, p: string, k: nat)
    requires FreshLine(s) && |p| <= PREFIX_CAP && k < |p| && AllSafe(p) && '\n' !in p
    requires forall j :: 0 < j < |p| ==> PrefixDecision(p[..j]).None?
    ensures Run(s, p[..k]) == Reply(s.(prefix := p[..k]), [])
  {
    if k > 0 {
      var q, c := p[..k - 1], p[k - 1];
      HeldTo(s, p, k - 1);
      assert q + [c] == p[..k];
      RunThen(s, q, c, s.(prefix := q), Reply(s.(prefix := p[..k]), []));
    }
  }

  lemma DecidedStep(s: State, q: string, c: char, d: Decision)
    requires FreshLine(s) && c != '\n' && IsSafe(c) && PrefixDecision(q + [c]) == Some(d)
    ensures Step(s.(prefix := q), Defang(c)) == Decide(s.(prefix := q + [c]), d)
  {}

  lemma HeldBefore(s: State, q: string, c: char, d: Decision)
    requires FreshLine(s) && DecidedAt(q + [c], d) && |q| < PREFIX_CAP && AllSafe(q + [c]) && '\n' !in q + [c]
    ensures Run(s, q) == Reply(s.(prefix := q), [])
  {
    assert (q + [c])[..|q|] == q;
    HeldTo(s, q + [c], |q|);
  }

  /** Any form is acted on at the end of its mark. */
  lemma MarkRuns(s: State, b: string, m: string, d: Decision)
    requires FreshLine(s) && IsForm(b, m, d) && |b + m| <= PREFIX_CAP
    ensures Run(s, b + m) == Decide(s.(prefix := b + m), d)
  {
    FormDecides(b, m, d);
    FormIsSafe(b, m, d);
    var q, c := LastOff(b + m);
    DecidedRuns(s, q, c, d);
  }

  lemma LastOff(p: string) returns (q: string, c: char)
    requires p != ""
    ensures p == q + [c]
  {
    q, c := p[..|p| - 1], p[|p| - 1];
  }

  lemma DecidedRuns(s: State, q: string, c: char, d: Decision)
    requires FreshLine(s) && DecidedAt(q + [c], d) && |q| < PREFIX_CAP && AllSafe(q + [c]) && '\n' !in q + [c]
    ensures Run(s, q + [c]) == Decide(s.(prefix := q + [c]), d)
  {
    HeldBefore(s, q, c, d);
    assert c == (q + [c])[|q|];
    DecidedStep(s, q, c, d);
    RunThen(s, q, c, s.(prefix := q), Decide(s.(prefix := q + [c]), d));
  }

  lemma {:induction false} RowRuns(s: State, t: string)
    requires s.mode == TableRow && AllSafe(t) && '\n' !in t
    ensures Run(s, t + "\n")
         == Reply(s.(table := s.table + [s.tableRow + t], tableRow := "", mode := LineStart), [])
    decreases t
  {
    if t == "" {
      assert t + "\n" == "\n" && "\n"[1..] == "" && s.tableRow + t == s.tableRow;
    } else {
      assert (t + "\n")[1..] == t[1..] + "\n";
      assert (s.tableRow + [t[0]]) + t[1..] == s.tableRow + t;
      RowRuns(s.(tableRow := s.tableRow + [t[0]]), t[1..]);
    }
  }

  /** A bar: the line waits, whole, behind the rows that wait already, and nothing is shown. */
  lemma TableLine(s: State, b: string, t: string)
    requires FreshLine(s) && s.tableRow == "" && AllBlank(b) && |b| + 1 <= PREFIX_CAP && AllSafe(t) && '\n' !in t
    ensures Run(s, (b + "|") + (t + "\n")) == Reply(s.(table := s.table + [b + "|" + t]), [])
  {
    MarkRuns(s, b, "|", TableStart);
    RunConcat(s, b + "|", t + "\n");
    RowRuns(s.(mode := TableRow, tableRow := b + "|"), t);
  }

  lemma {:induction false} SkipRuns(s: State, t: string)
    requires s.mode.Skip? && AllSafe(t) && '\n' !in t
    ensures Run(s, t + "\n") == Reply(s.(mode := LineStart), if s.mode.nl then [Ch('\n')] else [])
    decreases t
  {
    if t == "" {
      assert t + "\n" == "\n" && "\n"[1..] == "";
      AppendNothing(if s.mode.nl then [Ch('\n')] else []);
    } else {
      assert (t + "\n")[1..] == t[1..] + "\n";
      SkipRuns(s, t[1..]);
    }
  }

  /** Three backticks: a code block begins, and the line shows nothing. */
  lemma FenceLine(s: State, b: string, t: string)
    requires FreshLine(s) && AllBlank(b) && |b| + 3 <= PREFIX_CAP && AllSafe(t) && '\n' !in t
    ensures Run(s, (b + "```") + (t + "\n"))
         == Reply(s.(table := [], codeBlock := true), Formatter.DrainTable(s).output)
  {
    MarkRuns(s, b, "```", Fence);
    RunConcat(s, b + "```", t + "\n");
    SkipRuns(s.(table := [], codeBlock := true, mode := Skip(false)), t);
    AppendNothing(Formatter.DrainTable(s).output);
  }

  /** Three dashes or pluses: a dim rule stands for the whole line. */
  lemma RuleLine(s: State, b: string, m: string, t: string)
    requires FreshLine(s) && AllBlank(b) && |b| + 3 <= PREFIX_CAP && AllSafe(t) && '\n' !in t
    requires m == "---" || m == "+++"
    ensures Run(s, (b + m) + (t + "\n"))
         == Reply(s.(table := []), Formatter.DrainTable(s).output
                                  + ([Sgr(Dim)] + Chars("  " + Table.Dashes(8)) + [Sgr(Reset)]) + [Ch('\n')])
  {
    MarkRuns(s, b, m, Separator);
    RunConcat(s, b + m, t + "\n");
    SkipRuns(s.(table := [], mode := Skip(true)), t);
  }

  // ---------------------------------------------------------------- every other line

  /** The line begins, within the cap, with no form at all. */
  ghost predicate IsFormless(line: string) {
    forall k, d :: 0 < k <= |line| && k <= PREFIX_CAP && d != Plain ==> !HasForm(line[..k], d)
  }

  ghost predicate NoneDecided(line: string, from: nat) {
    forall k, d :: from < k <= |line| && k <= PREFIX_CAP && d != Plain ==> !DecidedAt(line[..k], d)
  }

  lemma {:induction false} StaysPlainIff(p: string, t: string)
    requires |p| < PREFIX_CAP && forall k :: 0 < k <= |p| ==> PrefixDecision(p[..k]).None?
    ensures StaysPlain(p, t) <==> NoneDecided(p + t, |p|)
    decreases t
  {
    var line := p + t;
    if t != "" {
      var grown := p + [t[0]];
      assert line == grown + t[1..];
      assert line[..|grown|] == grown;
      assert forall k :: 0 < k <= |p| ==> grown[..k] == p[..k];
      if PrefixDecision(grown).None? && |grown| < PREFIX_CAP {
        assert grown[..|grown|] == grown;
        StaysPlainIff(grown, t[1..]);
        assert forall d :: !DecidedAt(line[..|grown|], d);
      } else {
        assert forall k :: |grown| < k <= |line| ==> line[..k][..|grown|] == grown;
        if PrefixDecision(grown).Some? {
          assert DecidedAt(line[..|grown|], PrefixDecision(grown).value);
        }
      }
    }
  }

  /** A line is given no structure if and only if it begins with no form. */
  lemma PlainIffFormless(line: string)
    ensures StaysPlain("", line) <==> IsFormless(line)
  {
    StaysPlainIff("", line);
    assert "" + line == line;
    forall k, d | 0 < k <= |line| && k <= PREFIX_CAP && d != Plain
      ensures DecidedAt(line[..k], d) <==> HasForm(line[..k], d)
    {
      FormIff(line[..k], d);
    }
  }

  /** And is then shown so that it reads back whole. */
  lemma FormlessLine(s: State, line: string) returns (shown: seq<Token>)
    requires FreshLine(s) && IsFormless(line) && AllSafe(line) && '\n' !in line
    ensures Run(s, line + "\n").output == Formatter.DrainTable(s).output + shown
    ensures ReadBack(None, None, shown) == line + "\n"
  {
    PlainIffFormless(line);
    shown := PlainLineReadsBack(s, "", line);
    assert s.(prefix := "") == s;
    assert "" + line == line;
  }

  // ------------------------------------------------------------------- a whole table

  /** Blanks, a bar, and the rest of one line. */
  predicate RowLine(row: string, b: string, t: string) {
    row == b + "|" + t && AllBlank(b) && |b| + 1 <= PREFIX_CAP && AllSafe(t) && '\n' !in t
  }

  ghost predicate IsRowLine(row: string) {
    exists b: string, t: string :: RowLine(row, b, t)
  }

  ghost predicate AreRowLines(rows: seq<string>) {
    rows != [] ==> IsRowLine(rows[0]) && AreRowLines(rows[1..])
  }

  /** Row lines, one after another, only join the rows that wait. */
  lemma {:induction false} RowsWait(s: State, rows: seq<string>)
    requires FreshLine(s) && s.tableRow == "" && AreRowLines(rows)
    ensures Run(s, TableLines.Unlines(rows)) == Reply(s.(table := s.table + rows), [])
    decreases rows
  {
    if rows == [] {
      AppendNothing(s.table);
    } else {
      var now := s.(table := s.table + [rows[0]]);
      RowWaits(s, rows[0]);
      RowsWait(now, rows[1..]);
      Joins(s, rows);
      SilentThen(s, rows[0] + "\n", now, TableLines.Unlines(rows[1..]));
    }
  }

  lemma Joins(s: State, rows: seq<string>)
    requires rows != []
    ensures var now := s.(table := s.table + [rows[0]]);
            now.(table := now.table + rows[1..]) == s.(table := s.table + rows)
  {
    assert (s.table + [rows[0]]) + rows[1..] == s.table + rows;
  }

  lemma SilentThen(s: State, a: string, now: State, b: string)
    requires Run(s, a) == Reply(now, [])
    ensures Run(s, a + b) == Run(now, b)
  {
    RunConcat(s, a, b);
    var later := Run(now, b);
    assert [] + later.output == later.output;
    assert later.After([]) == later;
  }

  lemma RowWaits(s: State, row: string)
    requires FreshLine(s) && s.tableRow == "" && IsRowLine(row)
    ensures Run(s, row + "\n") == Reply(s.(table := s.table + [row]), [])
  {
    var b: string, t: string :| RowLine(row, b, t);
    TableLine(s, b, t);
    assert row + "\n" == (b + "|") + (t + "\n");
  }

  /** A table is drawn from its lines as they were written, once, at the line that ends it, and
      that line is shown behind it. */
  lemma WholeTable(s: State, rows: seq<string>, line: string) returns (shown: seq<Token>)
    requires BareLine(s) && s.tableRow == "" && rows != [] && AreRowLines(rows)
    requires IsFormless(line) && AllSafe(line) && '\n' !in line
    ensures Run(s, TableLines.Unlines(rows) + (line + "\n")).output == Table.Drawing(rows, true) + shown
    ensures ReadBack(None, None, shown) == line + "\n"
  {
    var waiting := s.(table := rows);
    RowsWait(s, rows);
    assert s.table + rows == rows;
    shown := FormlessLine(waiting, line);
    SilentThen(s, TableLines.Unlines(rows), waiting, line + "\n");
  }
}
