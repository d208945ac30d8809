/** What the formatter writes and what a terminal makes of it.

    Output is a sequence of characters and style codes; a style code changes the graphic rendition
    (SGR, section 8.3.117 of ECMA-48) that later characters are shown in. A terminal starts in the
    base rendition, and every newline is expected to find it there again. */
module Terminal {
  import opened Text

  datatype Code = Bold | Reverse | Dim | Reset

  datatype Token = Ch(c: char) | Sgr(code: Code)

  /** The attributes switched on over the base ink. */
  type Rendition = set<Code>

  const BASE: Rendition := {}

  function Apply(r: Rendition, t: Token): Rendition {
    match t
    case Ch(_) => r
    case Sgr(code) => if code == Reset then BASE else r + {code}
  }

  /** The rendition a terminal is left in. */
  function Replay(r: Rendition, ts: seq<Token>): Rendition
    decreases ts
  {
    if ts == [] then r else Replay(Apply(r, ts[0]), ts[1..])
  }

  /** Every newline is written in the base style. */
  predicate NewlinesAtBase(r: Rendition, ts: seq<Token>)
    decreases ts
  {
    ts != [] ==> (ts[0] == Ch('\n') ==> r == BASE) && NewlinesAtBase(Apply(r, ts[0]), ts[1..])
  }

  /** Layout and printable characters: nothing a terminal would execute. */
  predicate IsSafe(c: char) {
    c == '\n' || c == '\t' || !IsControl(c)
  }

  predicate AllSafe(s: string) {
    forall i :: 0 <= i < |s| ==> IsSafe(s[i])
  }

  predicate SafeTokens(ts: seq<Token>) {
    forall i :: 0 <= i < |ts| && ts[i].Ch? ==> IsSafe(ts[i].c)
  }

  /** Plain text as output. */
  function Chars(s: string): (ts: seq<Token>)
    ensures |ts| == |s|
    ensures forall i :: 0 <= i < |s| ==> ts[i] == Ch(s[i])
  {
    seq(|s|, i requires 0 <= i < |s| => Ch(s[i]))
  }

  /** The characters among the tokens: the output without its styles. */
  function Printed(ts: seq<Token>): string {
    if ts == [] then "" else (if ts[0].Ch? then [ts[0].c] else "") + Printed(ts[1..])
  }

  lemma {:induction false} PrintedConcat(a: seq<Token>, b: seq<Token>)
    ensures Printed(a + b) == Printed(a) + Printed(b)
  {
    if a == [] {
      assert a + b == b;
    } else {
      PrintedConcat(a[1..], b);
      PrintedCons(a[0], a[1..] + b);
      PrintedCons(a[0], a[1..]);
      assert a == [a[0]] + a[1..];
      ConcatAssociative([a[0]], a[1..], b);
    }
  }

  lemma PrintedCons(t: Token, ts: seq<Token>)
    ensures Printed([t] + ts) == (if t.Ch? then [t.c] else "") + Printed(ts)
  {
    assert ([t] + ts)[1..] == ts;
  }

  lemma {:induction false} PrintedChars(s: string)
    ensures Printed(Chars(s)) == s
  {
    if s != "" {
      assert Chars(s)[1..] == Chars(s[1..]);
      PrintedChars(s[1..]);
    }
  }

  /** From rendition `r`, `ts` ends in `after`, breaks lines only at base and is safe. */
  predicate Draws(r: Rendition, ts: seq<Token>, after: Rendition) {
    Replay(r, ts) == after && NewlinesAtBase(r, ts) && SafeTokens(ts)
  }

  lemma {:induction false} DrawsConcat(r: Rendition, a: seq<Token>, m: Rendition, b: seq<Token>, after: Rendition)
    requires Draws(r, a, m) && Draws(m, b, after)
    ensures Draws(r, a + b, after)
    decreases a
  {
    if a == [] {
      assert a + b == b;
    } else {
      assert (a + b)[1..] == a[1..] + b;
      assert forall i :: 0 <= i < |a[1..]| ==> a[1..][i] == a[i + 1];
      DrawsConcat(Apply(r, a[0]), a[1..], m, b, after);
    }
  }

  lemma {:induction false} DrawsChars(r: Rendition, s: string)
    requires AllSafe(s) && (r == BASE || '\n' !in s)
    ensures Draws(r, Chars(s), r)
    decreases s
  {
    if s != [] {
      assert Chars(s)[1..] == Chars(s[1..]);
      DrawsChars(r, s[1..]);
    }
  }

  lemma DrawsCode(r: Rendition, code: Code)
    ensures Draws(r, [Sgr(code)], Apply(r, Sgr(code)))
  {
    assert [Sgr(code)][1..] == [];
  }

  /** `paint`: a code, the text, and back to base. */
  function Paint(colored: bool, code: Code, text: string): seq<Token> {
    if colored then [Sgr(code)] + Chars(text) + [Sgr(Reset)] else Chars(text)
  }

  lemma DrawsPaint(code: Code, text: string)
    requires AllSafe(text) && '\n' !in text
    ensures Draws(BASE, Paint(true, code, text), BASE)
  {
    var painted := Apply(BASE, Sgr(code));
    DrawsCode(BASE, code);
    DrawsChars(painted, text);
    DrawsConcat(BASE, [Sgr(code)], painted, Chars(text), painted);
    DrawsCode(painted, Reset);
    DrawsConcat(BASE, [Sgr(code)] + Chars(text), painted, [Sgr(Reset)], BASE);
  }
}
