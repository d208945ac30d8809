/** What is held undecided at the start of a line, and which lines reach the cap on it. */
module FormatterHeld {
  import opened Text
  import opened Terminal
  import opened Formatter
  import FormatterReadBack
  import FormatterSafety
  import Table

  // ------------------------------------------------------- over every stream

  /** The line a stream stands in, as the formatter reads it. */
  function LineSoFar(t: string): string {
    if t == "" then ""
    else
      var c := Defang(t[|t| - 1]);
      if c == '\n' then "" else LineSoFar(t[..|t| - 1]) + [c]
  }

  /** At a line start the whole line is held; inside a code block a line no longer held has shown
      that it is no fence in the making. */
  predicate HoldsLine(s: State, line: string) {
    && (s.mode == LineStart ==> s.prefix == line)
    && (s.mode != LineStart ==> s.prefix == "" && (s.codeBlock ==> !AwaitsFence(line)))
  }

  lemma {:induction false} BlanksTrimAlike(p: string)
    requires DropBlanks(p) != "" && !IsWhitespace(DropBlanks(p)[0])
    ensures TrimStart(p) == DropBlanks(p)
  {
    if p[0] == ' ' || p[0] == '\t' {
      BlanksTrimAlike(p[1..]);
    }
  }

  /** A line that opens a code block awaits nothing any more. */
  lemma FenceIsDecided(p: string)
    requires PrefixDecision(p) == Some(Fence)
    ensures !AwaitsFence(p)
  {
    var body := DropBlanks(p);
    assert body != "" && body[0] == '`';
    BlanksTrimAlike(p);
  }

  lemma {:induction false} BodyRunStays(s: State, t: string)
    requires s.mode == Body && '\n' !in t
    ensures BodyRun(s, t).state.mode == Body && BodyRun(s, t).state.codeBlock == s.codeBlock
    ensures BodyRun(s, t).state.prefix == s.prefix
    decreases t
  {
    if t != "" {
      BodyRunStays(BodyStep(s, t[0]).state, t[1..]);
    }
  }

  lemma DecisionLeavesStart(s: State, d: Decision)
    requires s.mode == LineStart && !s.codeBlock && '\n' !in s.prefix
    requires d == Fence ==> !AwaitsFence(s.prefix)
    ensures HoldsLine(Decide(s, d).state, s.prefix) && Decide(s, d).state.mode != LineStart
  {
    var bare := s.(prefix := "");
    if d == Plain {
      BodyRunStays(bare.(table := [], mode := Body), s.prefix);
    }
  }

  lemma StartHolds(s: State, c: char)
    requires FormatterSafety.Valid(s) && s.mode == LineStart && c != '\n' && IsSafe(c)
    ensures HoldsLine(LineStartStep(s, c).state, s.prefix + [c])
  {
    var grown := s.(prefix := s.prefix + [c]);
    if !s.codeBlock {
      match PrefixDecision(grown.prefix) {
        case Some(d) =>
          if d == Fence {
            FenceIsDecided(grown.prefix);
          }
          DecisionLeavesStart(grown, d);
        case None =>
          if |grown.prefix| >= PREFIX_CAP {
            DecisionLeavesStart(grown, Plain);
          }
      }
    }
  }

  lemma StepHolds(s: State, line: string, c: char)
    requires FormatterSafety.Valid(s) && HoldsLine(s, line) && IsSafe(c)
    ensures HoldsLine(Step(s, c).state, if c == '\n' then "" else line + [c])
  {
    if s.mode == LineStart {
      if c != '\n' {
        StartHolds(s, c);
      }
    } else if c != '\n' && s.codeBlock {
      FormatterReadBack.DecidedStays(line, [c]);
    }
  }

  lemma {:induction false} StreamHolds(t: string)
    ensures HoldsLine(Run(Initial(true), t).state, LineSoFar(t))
  {
    if t != "" {
      var before, c := t[..|t| - 1], t[|t| - 1];
      assert before + [c] == t;
      StreamHolds(before);
      FormatterSafety.StreamStyle(before);
      RunSnoc(Initial(true), before, c);
      StepHolds(Run(Initial(true), before).state, LineSoFar(before), Defang(c));
    }
  }

  /** Over every stream, the cap's worth of characters or more is held if and only if the stream
      stands inside a code block, in a line that long that could still become its fence. */
  lemma HeldPastCapIff(t: string)
    ensures |Run(Initial(true), t).state.prefix| >= PREFIX_CAP
       <==> Run(Initial(true), t).state.codeBlock && |LineSoFar(t)| >= PREFIX_CAP && AwaitsFence(LineSoFar(t))
  {
    StreamHolds(t);
    FormatterSafety.StreamStyle(t);
  }

  // ------------------------------------------------- which lines the cap decides

  /** A line begins, outside a code block. */
  predicate AtLineBegin(s: State) {
    s.mode == LineStart && s.prefix == "" && !s.codeBlock
  }

  /** None of the first `k` characters of the line decided it. */
  predicate NoDecisionIn(p: string, k: nat)
    requires k <= |p|
  {
    k == 0 || (NoDecisionIn(p, k - 1) && PrefixDecision(p[..k]).None?)
  }

  lemma {:induction false} NoDecisionThroughout(p: string, k: nat)
    requires k <= |p|
    ensures NoDecisionIn(p, k) <==> forall j :: 0 < j <= k ==> PrefixDecision(p[..j]).None?
  {
    if k > 0 {
      NoDecisionThroughout(p, k - 1);
    }
  }

  lemma OffStartStays(s: State, q: string, c: char)
    requires Run(s, q).state.mode != LineStart && c != '\n'
    ensures Run(s, q + [c]).state.mode != LineStart
  {
    RunSnoc(s, q, c);
    StepOffStart(Run(s, q).state, Defang(c));
  }

  lemma StepOffStart(s: State, c: char)
    requires s.mode != LineStart && c != '\n'
    ensures Step(s, c).state.mode != LineStart
  {}

  /** Short of the cap, a line is held whole as long as nothing is decided, and let go of at the
      first decision. */
  lemma {:induction false} HeldUntilDecided(s: State, p: string, k: nat)
    requires AtLineBegin(s) && AllSafe(p) && '\n' !in p && k <= |p| && k < PREFIX_CAP
    ensures NoDecisionIn(p, k) ==> Run(s, p[..k]) == Reply(s.(prefix := p[..k]), [])
    ensures !NoDecisionIn(p, k) ==> Run(s, p[..k]).state.mode != LineStart
  {
    if k > 0 {
      var q, c := p[..k - 1], p[k - 1];
      assert q + [c] == p[..k];
      HeldUntilDecided(s, p, k - 1);
      if NoDecisionIn(p, k - 1) {
        StillHeld(s, q, c);
      } else {
        OffStartStays(s, q, c);
      }
    }
  }

  lemma StillHeld(s: State, q: string, c: char)
    requires AtLineBegin(s) && IsSafe(c) && c != '\n' && '\n' !in q && |q| + 1 < PREFIX_CAP
    requires Run(s, q) == Reply(s.(prefix := q), [])
    ensures PrefixDecision(q + [c]).None? ==> Run(s, q + [c]) == Reply(s.(prefix := q + [c]), [])
    ensures PrefixDecision(q + [c]).Some? ==> Run(s, q + [c]).state.mode != LineStart
  {
    var r := Step(s.(prefix := q), Defang(c));
    OneMoreHeld(s, q, c, r);
    FormatterReadBack.RunThen(s, q, c, s.(prefix := q), r);
  }

  lemma OneMoreHeld(s: State, q: string, c: char, r: Reply)
    requires AtLineBegin(s) && IsSafe(c) && c != '\n' && '\n' !in q && |q| + 1 < PREFIX_CAP
    requires r == Step(s.(prefix := q), Defang(c))
    ensures PrefixDecision(q + [c]).None? ==> r == Reply(s.(prefix := q + [c]), [])
    ensures PrefixDecision(q + [c]).Some? ==> r.state.mode != LineStart
  {
    if PrefixDecision(q + [c]).Some? {
      var d := PrefixDecision(q + [c]).value;
      if d == Fence {
        FenceIsDecided(q + [c]);
      }
      DecisionLeavesStart(s.(prefix := q + [c]), d);
    }
  }

  /** At its sixteenth character a line is still held undecided: the cap makes it a plain one. */
  predicate CapDecides(s: State, p: string) {
    && |p| == PREFIX_CAP
    && Run(s, p[..PREFIX_CAP - 1]) == Reply(s.(prefix := p[..PREFIX_CAP - 1]), [])
    && Run(s, p) == Decide(s.(prefix := p), Plain)
    && PrefixDecision(p).None?
  }

  lemma CapDecidesUndecided(s: State, p: string)
    requires AtLineBegin(s) && AllSafe(p) && '\n' !in p && |p| == PREFIX_CAP
    ensures CapDecides(s, p) <==> forall k :: 0 < k <= PREFIX_CAP ==> PrefixDecision(p[..k]).None?
  {
    NoDecisionThroughout(p, PREFIX_CAP);
    CapAfterUndecided(s, p);
  }

  lemma CapAfterUndecided(s: State, p: string)
    requires AtLineBegin(s) && AllSafe(p) && '\n' !in p && |p| == PREFIX_CAP
    ensures CapDecides(s, p) <==> NoDecisionIn(p, PREFIX_CAP)
  {
    var k := PREFIX_CAP - 1;
    var q, c := p[..k], p[k];
    assert q + [c] == p && p[..PREFIX_CAP] == p;
    HeldUntilDecided(s, p, k);
    if NoDecisionIn(p, PREFIX_CAP) {
      CapStep(s, q, c);
      FormatterReadBack.RunThen(s, q, c, s.(prefix := q), Decide(s.(prefix := p), Plain));
    }
  }

  lemma CapStep(s: State, q: string, c: char)
    requires AtLineBegin(s) && IsSafe(c) && c != '\n' && |q| + 1 == PREFIX_CAP && PrefixDecision(q + [c]).None?
    ensures Step(s.(prefix := q), Defang(c)) == Decide(s.(prefix := q + [c]), Plain)
  {}

  // ------------------------------------------------------- the same, on the line alone

  /** The beginnings after which the structure of a line is still open. */
  predicate Unfinished(body: string) {
    var digits := CountDigits(body);
    || body == "`" || body == "``" || body == "-" || body == "--" || body == "+" || body == "++"
    || body == "*" || body == ">"
    || (1 <= |body| <= 6 && CountHashes(body) == |body|)
    || (1 <= digits <= 3
        && (|body| == digits || (|body| == digits + 1 && (body[digits] == '.' || body[digits] == ')'))))
  }

  predicate NotBlank(body: string) {
    body != "" && body[0] != ' ' && body[0] != '\t'
  }

  lemma {:induction false} CountsOfPrefix(body: string, j: nat)
    requires j <= |body|
    ensures CountDigits(body[..j]) == if j < CountDigits(body) then j else CountDigits(body)
    ensures CountHashes(body[..j]) == if j < CountHashes(body) then j else CountHashes(body)
  {
    if j > 0 {
      assert body[..j][1..] == body[1..][..j - 1];
      CountsOfPrefix(body[1..], j - 1);
    }
  }

  lemma UnfinishedIsUndecided(body: string)
    requires Unfinished(body) && NotBlank(body)
    ensures PrefixDecision(body).None?
  {
    assert DropBlanks(body) == body;
  }

  lemma UnfinishedPrefix(body: string, j: nat)
    requires Unfinished(body) && 0 < j <= |body|
    ensures Unfinished(body[..j])
  {
    CountsOfPrefix(body, j);
    if j == |body| {
      assert body[..j] == body;
    } else if |body| == 2 {
      assert body[..j] == [body[0]];
    }
  }

  lemma UndecidedIsUnfinished(body: string)
    requires NotBlank(body) && forall j :: 0 < j <= |body| ==> PrefixDecision(body[..j]).None?
    ensures Unfinished(body)
  {
    assert body[..|body|] == body && DropBlanks(body) == body;
    FourDigits(body);
  }

  lemma FourDigits(body: string)
    ensures CountDigits(body) > 3 ==> PrefixDecision(body[..4]).Some?
  {
    if CountDigits(body) > 3 {
      CountsOfPrefix(body, 4);
      assert DropBlanks(body[..4]) == body[..4];
    }
  }

  lemma {:induction false} DropBlanksSplits(p: string)
    ensures var body := DropBlanks(p);
            && p == p[..|p| - |body|] + body && (body == "" || NotBlank(body))
            && forall i :: 0 <= i < |p| - |body| ==> p[i] == ' ' || p[i] == '\t'
  {
    if p != "" && (p[0] == ' ' || p[0] == '\t') {
      DropBlanksSplits(p[1..]);
    }
  }

  lemma {:induction false} DropBlanksOfPrefix(p: string, k: nat)
    requires k <= |p|
    ensures var b := |p| - |DropBlanks(p)|;
            DropBlanks(p[..k]) == if k <= b then "" else DropBlanks(p)[..k - b]
  {
    if k > 0 && (p[0] == ' ' || p[0] == '\t') {
      assert p[..k][1..] == p[1..][..k - 1];
      DropBlanksOfPrefix(p[1..], k - 1);
    }
  }

  /** Blanks in front of a line do not hasten or delay what is decided. */
  lemma DecisionIgnoresBlanks(p: string)
    ensures PrefixDecision(p).None? <==> DropBlanks(p) == "" || PrefixDecision(DropBlanks(p)).None?
  {
    DropBlanksSplits(p);
    var body := DropBlanks(p);
    if body != "" {
      assert DropBlanks(body) == body;
    }
  }

  lemma UndecidedIff(p: string)
    ensures (forall k :: 0 < k <= |p| ==> PrefixDecision(p[..k]).None?)
       <==> DropBlanks(p) == "" || Unfinished(DropBlanks(p))
  {
    var body := DropBlanks(p);
    var b := |p| - |body|;
    DropBlanksSplits(p);
    forall k | 0 < k <= |p|
      ensures PrefixDecision(p[..k]).None? <==> k <= b || PrefixDecision(body[..k - b]).None?
    {
      DropBlanksOfPrefix(p, k);
      DecisionIgnoresBlanks(p[..k]);
    }
    if body != "" {
      if Unfinished(body) {
        forall j | 0 < j <= |body|
          ensures PrefixDecision(body[..j]).None?
        {
          UnfinishedPrefix(body, j);
          UnfinishedIsUndecided(body[..j]);
        }
      } else if forall k :: 0 < k <= |p| ==> PrefixDecision(p[..k]).None? {
        forall j | 0 < j <= |body|
          ensures PrefixDecision(body[..j]).None?
        {
          assert PrefixDecision(p[..b + j]).None?;
        }
        UndecidedIsUnfinished(body);
      }
    }
  }

  /** The cap decides a line, and makes it plain, if and only if its first sixteen characters are
      blanks throughout or blanks and then a beginning that could still become a structure. */
  lemma CapDecidesIff(s: State, p: string)
    requires AtLineBegin(s) && AllSafe(p) && '\n' !in p && |p| == PREFIX_CAP
    ensures CapDecides(s, p) <==> DropBlanks(p) == "" || Unfinished(DropBlanks(p))
  {
    CapDecidesUndecided(s, p);
    UndecidedIff(p);
  }

  /** So a line that is not blank can reach the cap, and lose its structure to it: a list item
      behind fifteen blanks is read as plain text. */
  lemma DeepItemIsPlain(s: State)
    requires AtLineBegin(s)
    ensures var p := Table.Spaces(15) + "-";
            && CapDecides(s, p) && DropBlanks(p) == "-"
            && PrefixDecision(p + " ") == Some(Bullet(Table.Spaces(15)))
  {
    var p := Table.Spaces(15) + "-";
    BlanksDropped(15, "-");
    DeepItem();
    assert p + " " == Table.Spaces(15) + "- ";
    CapDecidesIff(s, p);
  }

  lemma DeepItem()
    ensures PrefixDecision(Table.Spaces(15) + "- ") == Some(Bullet(Table.Spaces(15)))
  {
    BlanksDropped(15, "- ");
    assert (Table.Spaces(15) + "- ")[..15] == Table.Spaces(15);
  }

  lemma {:induction false} BlanksDropped(n: nat, body: string)
    requires NotBlank(body)
    ensures DropBlanks(Table.Spaces(n) + body) == body
  {
    var p := Table.Spaces(n) + body;
    if n == 0 {
      assert p == body;
    } else {
      assert p[1..] == Table.Spaces(n - 1) + body;
      BlanksDropped(n - 1, body);
    }
  }
}
