/** When the filter shows a character: what is held back, and why. */
module CallFilterHeld {
  import opened Text
  import opened CallFilter

  predicate IsWord(w: string) {
    forall i :: 0 <= i < |w| ==> IsWordChar(w[i])
  }

  // ---------------------------------------------------------- what opens a call

  /** The line `t` is blanks, name `i`, a parenthesis and `rest`. */
  predicate IsCall(names: seq<string>, t: string, p: string, i: nat, rest: string) {
    i < |names| && AllBlank(p) && IsWord(names[i]) && t == p + (names[i] + (['('] + rest))
  }

  ghost predicate OpensCall(names: seq<string>, t: string) {
    exists p: string, i: nat, rest: string :: IsCall(names, t, p, i, rest)
  }

  /** A line opens a call if and only if it is blanks, a name made of word characters, and a
      parenthesis: the head found ends there. */
  lemma CallHeadIff(names: seq<string>, t: string)
    ensures CallHead(names, t).Some? <==> OpensCall(names, t)
  {
    if CallHead(names, t).Some? {
      var b := Blanks(t);
      var e := b + WordLength(t[b..]);
      var i :| 0 <= i < |names| && names[i] == t[b..e];
      assert t == t[..b] + (t[b..e] + (['('] + t[e + 1..]));
      assert IsCall(names, t, t[..b], i, t[e + 1..]);
    }
    if OpensCall(names, t) {
      var p: string, i: nat, rest: string :| IsCall(names, t, p, i, rest);
      CallHeadOf(names, t, p, i, rest);
    }
  }

  lemma CallHeadOf(names: seq<string>, t: string, p: string, i: nat, rest: string)
    requires IsCall(names, t, p, i, rest)
    ensures CallHead(names, t) == Some(|p| + |names[i]| + 1)
  {
    HeadOf(names, p, names[i], '(', rest);
  }

  // ------------------------------------------------------------- what is held back

  /** The filter's state after a text. */
  function Reached(names: seq<string>, t: string): State {
    Run(names, INITIAL, t).state
  }

  lemma {:induction false} HeldIsNotEmpty(names: seq<string>, s: State, t: string)
    requires s.candidate != Some("")
    ensures Run(names, s, t).state.candidate != Some("")
    decreases t
  {
    if t != "" {
      HeldIsNotEmpty(names, Step(names, s, t[0]).state, t[1..]);
    }
  }

  /** A word follows the blanks of what is held. */
  lemma HeldShape(names: seq<string>, t: string, held: string)
    requires Reached(names, t).candidate == Some(held)
    ensures held != "" && AllBlank(held[..Blanks(held)]) && IsWord(held[Blanks(held)..])
    ensures held == held[..Blanks(held)] + held[Blanks(held)..]
    ensures Pending(names, held)
  {
    RunPays(names, INITIAL, t);
    HeldIsNotEmpty(names, INITIAL, t);
  }

  /** Only the beginning of a name is held back: blanks, and then nothing or what some name
      starts with. */
  lemma HeldBeginsAName(names: seq<string>, t: string, held: string)
    requires Reached(names, t).candidate == Some(held)
    ensures AllBlank(held[..Blanks(held)])
    ensures held[Blanks(held)..] == "" || exists i :: 0 <= i < |names| && held[Blanks(held)..] <= names[i]
  {
    HeldShape(names, t, held);
  }

  /** Of a text no line of which opens a call everything is shown at once but what is held. */
  lemma AllButTheHeldIsShown(names: seq<string>, t: string)
    requires forall i :: 0 <= i < |t| && (i == 0 || t[i - 1] == '\n') ==> !OpensCall(names, t[i..])
    ensures Run(names, INITIAL, t).shown + Reached(names, t).candidate.GetOr("") == t
  {
    forall i | 0 <= i < |t|
      ensures !LineStartsCall(names, t, i)
    {
      CallHeadIff(names, t[i..]);
    }
    UntouchedIffNoCall(names, t);
    RunRefinesVisible(names, t);
  }

  // ------------------------------------------------------------ nothing held in vain

  /** What is owed after a text is owed for all that follows it. */
  lemma OwedAfter(names: seq<string>, t: string, u: string)
    ensures Visible(names, t + u) == Run(names, INITIAL, t).shown + Owed(names, Reached(names, t), u)
  {
    var s := Reached(names, t);
    RunPays(names, INITIAL, t);
    RunPays(names, s, u);
    RunPays(names, INITIAL, t + u);
    RunConcat(names, INITIAL, t, u);
    assert "" + (t + u) == t + u;
    ConcatAssociative(Run(names, INITIAL, t).shown, Run(names, s, u).shown, Owed(names, Run(names, s, u).state, ""));
  }

  /** What has been shown is shown of every text that goes on from here. */
  lemma ShownIsCertain(names: seq<string>, t: string, u: string)
    ensures Run(names, INITIAL, t).shown <= Visible(names, t + u)
  {
    OwedAfter(names, t, u);
  }

  /** What is held can still become the name of a call. */
  predicate CanOpen(names: seq<string>, held: string) {
    exists i :: 0 <= i < |names| && IsWord(names[i]) && held[Blanks(held)..] <= names[i]
  }

  lemma HeldCanVanish(names: seq<string>, t: string, held: string) returns (u: string)
    requires Reached(names, t).candidate == Some(held) && CanOpen(names, held)
    ensures Visible(names, t + u) == Run(names, INITIAL, t).shown
  {
    HeldShape(names, t, held);
    RunPays(names, INITIAL, t);
    var b := Blanks(held);
    var i :| 0 <= i < |names| && IsWord(names[i]) && held[b..] <= names[i];
    u := names[i][|held| - b..] + "(";
    assert held + u == held[..b] + (names[i] + (['('] + ""));
    NothingAfterOpening(names, held + u, held[..b], i);
    OwedAfter(names, t, u);
  }

  lemma NothingAfterOpening(names: seq<string>, t: string, p: string, i: nat)
    requires IsCall(names, t, p, i, "")
    ensures AtLineStart(names, t) == ""
  {
    CallHeadOf(names, t, p, i, "");
    assert t[|t|..] == "";
    assert AfterOpening(names, "") == "";
  }

  lemma HeldIsShown(names: seq<string>, t: string, held: string, u: string)
    requires Reached(names, t).candidate == Some(held) && !CanOpen(names, held)
    ensures Visible(names, t + u) != Run(names, INITIAL, t).shown
  {
    HeldShape(names, t, held);
    RunPays(names, INITIAL, t);
    CallHeadIff(names, held + u);
    if OpensCall(names, held + u) {
      var p: string, i: nat, rest: string :| IsCall(names, held + u, p, i, rest);
      CallContinuesHeld(names, held, u, p, i, rest);
    }
    assert AtLineStart(names, held + u) == MidLine(names, held + u) != "";
    OwedAfter(names, t, u);
  }

  lemma WordStops(w: string, u: string, name: string, rest: string)
    requires IsWord(w) && w + u == name + (['('] + rest)
    ensures |w| <= |name|
  {
    assert (w + u)[|name|] == '(';
  }

  lemma CallContinuesHeld(names: seq<string>, held: string, u: string, p: string, i: nat, rest: string)
    requires IsCall(names, held + u, p, i, rest) && IsWord(held[Blanks(held)..])
    ensures CanOpen(names, held)
  {
    var b := Blanks(held);
    var w, name := held[b..], names[i];
    if w != "" {
      assert held + u == held[..b] + (w + u);
      BlanksOf(held[..b], w + u);
      BlanksOf(p, name + (['('] + rest));
      assert (held + u)[b..] == w + u == name + (['('] + rest);
      WordStops(w, u, name, rest);
      assert w == (w + u)[..|w|] == name[..|w|];
    }
  }

  /** Nothing is held back in vain: the text can still go on so that nothing more is ever shown,
      if and only if nothing is held or a name a call can have still continues it. With
      `ShownIsCertain`, what has been shown is then exactly what every continuation shows. */
  lemma HeldOnlyWhileNeeded(names: seq<string>, t: string)
    ensures var s := Reached(names, t);
            (exists u: string :: Visible(names, t + u) == Run(names, INITIAL, t).shown)
            <==> s.candidate.None? || CanOpen(names, s.candidate.value)
  {
    var s := Reached(names, t);
    if s.candidate.None? {
      RunRefinesVisible(names, t);
      assert t + "" == t;
      assert Visible(names, t + "") == Run(names, INITIAL, t).shown;
    } else if CanOpen(names, s.candidate.value) {
      var u := HeldCanVanish(names, t, s.candidate.value);
    } else {
      forall u: string
        ensures Visible(names, t + u) != Run(names, INITIAL, t).shown
      {
        HeldIsShown(names, t, s.candidate.value, u);
      }
    }
  }
}
