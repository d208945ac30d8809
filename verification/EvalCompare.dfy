/** Comparing two evaluation reports.

    Cases that touch a tool one host lacked are set aside, the others are paired by name, and the
    pairs are counted. */
module EvalCompare {
  import opened Text

  datatype Case = Case(name: string, passed: bool, tools: seq<string>)

  datatype Shape = ModelReport | RoutingReport

  datatype Run = Run(cases: seq<Case>, shape: Shape, catalog: Option<seq<string>>)

  const MIN_PAIRS: nat := 20

  // ------------------------------------------------------------------ tools touched

  /** A JSON value where a tool name may stand: a string, or anything else. */
  type Field = Option<string>

  datatype Step = Step(expected: Field, called: seq<Field>)

  datatype Entry = Entry(expected: Field, steps: seq<Step>)

  predicate NamesTool(e: Entry, tool: string) {
    || e.expected == Some(tool)
    || exists i :: 0 <= i < |e.steps| && StepNames(e.steps[i], tool)
  }

  predicate StepNames(s: Step, tool: string) {
    s.expected == Some(tool) || Some(tool) in s.called
  }

  predicate NoRepeats(names: seq<string>) {
    forall i, j :: 0 <= i < j < |names| ==> names[i] != names[j]
  }

  method Push(out: seq<string>, v: Field) returns (grown: seq<string>)
    requires NoRepeats(out)
    ensures NoRepeats(grown)
    ensures forall t :: t in grown <==> t in out || v == Some(t)
  {
    grown := out;
    if v.Some? && v.value !in out {
      grown := out + [v.value];
    }
  }

  /** Every tool a case names, each once. */
  method ToolsTouched(e: Entry) returns (out: seq<string>)
    ensures NoRepeats(out)
    ensures forall t :: t in out <==> NamesTool(e, t)
  {
    out := Push([], e.expected);
    for i := 0 to |e.steps|
      invariant NoRepeats(out)
      invariant forall t :: t in out <==> e.expected == Some(t) || exists k :: 0 <= k < i && StepNames(e.steps[k], t)
    {
      ghost var before := out;
      out := Push(out, e.steps[i].expected);
      for j := 0 to |e.steps[i].called|
        invariant NoRepeats(out)
        invariant forall t :: t in out <==>
          t in before || e.steps[i].expected == Some(t) || Some(t) in e.steps[i].called[..j]
      {
        out := Push(out, e.steps[i].called[j]);
      }
      assert e.steps[i].called[..|e.steps[i].called|] == e.steps[i].called;
    }
  }

  // -------------------------------------------------------------------- exclusion

  /** Both reports carry a catalog and the two differ. */
  predicate CatalogsDiffer(before: Run, after: Run) {
    before.catalog.Some? && after.catalog.Some? && before.catalog.value != after.catalog.value
  }

  /** Every tool of the case was there in both runs. */
  predicate Comparable(c: Case, before: Run, after: Run)
    requires CatalogsDiffer(before, after)
  {
    forall i :: 0 <= i < |c.tools| ==> c.tools[i] in before.catalog.value && c.tools[i] in after.catalog.value
  }

  predicate HasName(cases: seq<Case>, name: string) {
    exists i :: 0 <= i < |cases| && cases[i].name == name
  }

  /** `name` is set aside: some case so called, on either side, touches a tool one side lacked,
      and the other side has the name too. */
  predicate Incomparable(before: Run, after: Run, name: string)
    requires CatalogsDiffer(before, after)
  {
    || (SomeIncomparable(before.cases, before, after, name) && HasName(after.cases, name))
    || (SomeIncomparable(after.cases, before, after, name) && HasName(before.cases, name))
  }

  predicate SomeIncomparable(cases: seq<Case>, before: Run, after: Run, name: string)
    requires CatalogsDiffer(before, after)
  {
    exists i :: 0 <= i < |cases| && cases[i].name == name && !Comparable(cases[i], before, after)
  }

  method IncomparableCases(before: Run, after: Run) returns (out: seq<string>)
    ensures !CatalogsDiffer(before, after) ==> out == []
    ensures CatalogsDiffer(before, after) ==> forall n :: n in out <==> Incomparable(before, after, n)
    ensures NoRepeats(out)
  {
    out := [];
    if before.catalog.None? || after.catalog.None? || before.catalog == after.catalog {
      return;
    }
    out := CollectIncomparable(before, after, before.cases, after.cases, out);
    out := CollectIncomparable(before, after, after.cases, before.cases, out);
  }

  method CollectIncomparable(before: Run, after: Run, mine: seq<Case>, theirs: seq<Case>, seen: seq<string>)
      returns (out: seq<string>)
    requires CatalogsDiffer(before, after) && NoRepeats(seen)
    ensures NoRepeats(out)
    ensures forall n :: n in out <==>
      n in seen || (SomeIncomparable(mine, before, after, n) && HasName(theirs, n))
  {
    out := seen;
    for i := 0 to |mine|
      invariant NoRepeats(out)
      invariant forall n :: n in out <==>
        n in seen || (SomeIncomparable(mine[..i], before, after, n) && HasName(theirs, n))
    {
      IncomparableSnoc(mine, i, before, after);
      var c := mine[i];
      if !Comparable(c, before, after) && HasName(theirs, c.name) && c.name !in out {
        out := out + [c.name];
      }
    }
    assert mine[..|mine|] == mine;
  }

  lemma IncomparableSnoc(cases: seq<Case>, i: nat, before: Run, after: Run)
    requires CatalogsDiffer(before, after) && i < |cases|
    ensures forall n :: SomeIncomparable(cases[..i + 1], before, after, n) <==>
      SomeIncomparable(cases[..i], before, after, n) || (cases[i].name == n && !Comparable(cases[i], before, after))
  {
    var now := cases[..i + 1];
    assert now[i] == cases[i];
    assert forall k :: 0 <= k < i ==> now[k] == cases[..i][k];
    forall n | SomeIncomparable(now, before, after, n)
      ensures || SomeIncomparable(cases[..i], before, after, n)
              || (cases[i].name == n && !Comparable(cases[i], before, after))
    {
      var k :| 0 <= k < |now| && now[k].name == n && !Comparable(now[k], before, after);
      if k < i {
        assert cases[..i][k] == now[k];
      }
    }
  }

  function Without(cases: seq<Case>, excluded: seq<string>): (kept: seq<Case>)
  {
    if cases == [] then []
    else (if cases[0].name in excluded then [] else [cases[0]]) + Without(cases[1..], excluded)
  }

  // ---------------------------------------------------------------------- pairing

  /** The first case of that name, as `find` returns it. */
  function Find(cases: seq<Case>, name: string): (c: Option<Case>)
    ensures c.None? <==> !HasName(cases, name)
    ensures c.Some? ==> c.value in cases && c.value.name == name
  {
    if cases == [] then None
    else if cases[0].name == name then Some(cases[0])
    else
      assert forall i :: 0 < i < |cases| ==> cases[i] == cases[1..][i - 1];
      Find(cases[1..], name)
  }

  datatype Pairing = Pairing(
    pairs: seq<(bool, bool)>, fixed: seq<string>, broken: seq<string>,
    onlyBefore: seq<string>, onlyAfter: seq<string>)

  /** What one case of `before` contributes. */
  function PairOf(c: Case, after: seq<Case>): Pairing {
    match Find(after, c.name)
    case None => Pairing([], [], [], [c.name], [])
    case Some(a) =>
      Pairing([(c.passed, a.passed)],
              if !c.passed && a.passed then [c.name] else [],
              if c.passed && !a.passed then [c.name] else [], [], [])
  }

  function Both(p: Pairing, q: Pairing): Pairing {
    Pairing(p.pairs + q.pairs, p.fixed + q.fixed, p.broken + q.broken,
            p.onlyBefore + q.onlyBefore, p.onlyAfter + q.onlyAfter)
  }

  const NOTHING: Pairing := Pairing([], [], [], [], [])

  function PairAll(before: seq<Case>, after: seq<Case>): Pairing {
    if before == [] then NOTHING
    else Both(PairAll(before[..|before| - 1], after), PairOf(before[|before| - 1], after))
  }

  function Unmatched(cases: seq<Case>, others: seq<Case>): seq<string> {
    if cases == [] then []
    else
      Unmatched(cases[..|cases| - 1], others)
      + if HasName(others, cases[|cases| - 1].name) then [] else [cases[|cases| - 1].name]
  }

  function Paired(before: seq<Case>, after: seq<Case>): Pairing {
    PairAll(before, after).(onlyAfter := Unmatched(after, before))
  }

  method Pair(before: seq<Case>, after: seq<Case>) returns (p: Pairing)
    ensures p == Paired(before, after)
  {
    var pairs: seq<(bool, bool)> := [];
    var fixed: seq<string>, broken: seq<string>, onlyBefore: seq<string>, onlyAfter: seq<string> := [], [], [], [];
    for i := 0 to |before|
      invariant Pairing(pairs, fixed, broken, onlyBefore, []) == PairAll(before[..i], after)
    {
      assert before[..i + 1][..i] == before[..i];
      var c := before[i];
      AppendNothing(fixed);
      AppendNothing(broken);
      AppendNothing(onlyBefore);
      match Find(after, c.name) {
        case Some(a) =>
          pairs := pairs + [(c.passed, a.passed)];
          if !c.passed && a.passed {
            fixed := fixed + [c.name];
          }
          if c.passed && !a.passed {
            broken := broken + [c.name];
          }
        case None =>
          AppendNothing(pairs);
          onlyBefore := onlyBefore + [c.name];
      }
    }
    assert before[..|before|] == before;
    for i := 0 to |after|
      invariant onlyAfter == Unmatched(after[..i], before)
    {
      assert after[..i + 1][..i] == after[..i];
      if !HasName(before, after[i].name) {
        onlyAfter := onlyAfter + [after[i].name];
      }
    }
    assert after[..|after|] == after;
    p := Pairing(pairs, fixed, broken, onlyBefore, onlyAfter);
  }

  // ------------------------------------------------------------------ the comparison

  datatype Verdict = DifferentShapes | NothingToPair | TooFew(n: nat) | Compared(pairing: Pairing)

  /** The excluding, pairing and refusing part of `--compare`. */
  method Compare(before: Run, after: Run) returns (v: Verdict, keptBefore: seq<Case>, keptAfter: seq<Case>)
    ensures v == DifferentShapes <==> before.shape != after.shape
    ensures before.shape == after.shape ==> Kept(before, after, keptBefore, keptAfter)
    ensures before.shape == after.shape ==> v == Judged(Paired(keptBefore, keptAfter), |keptBefore|, |keptAfter|)
  {
    keptBefore, keptAfter := [], [];
    if before.shape != after.shape {
      return DifferentShapes, [], [];
    }
    var excluded := IncomparableCases(before, after);
    if before.catalog.Some? && after.catalog.Some? && before.catalog != after.catalog {
      keptBefore, keptAfter := Without(before.cases, excluded), Without(after.cases, excluded);
      ExclusionSurvives(before.cases, before, after, excluded);
      ExclusionSurvives(after.cases, before, after, excluded);
    } else {
      keptBefore, keptAfter := before.cases, after.cases;
    }
    var p := Pair(keptBefore, keptAfter);
    v := Judged(p, |keptBefore|, |keptAfter|);
  }

  /** A handful of shared names is not a pairing: the floor is absolute and relative. */
  function Judged(p: Pairing, beforeTotal: nat, afterTotal: nat): Verdict {
    if |p.pairs| == 0 then NothingToPair
    else if |p.pairs| < MIN_PAIRS || |p.pairs| * 2 < Min(beforeTotal, afterTotal) then TooFew(|p.pairs|)
    else Compared(p)
  }

  function Min(a: nat, b: nat): nat {
    if a < b then a else b
  }

  /** The cases of one side whose name is not set aside, in their order. */
  function Surviving(cases: seq<Case>, before: Run, after: Run): seq<Case>
    requires CatalogsDiffer(before, after)
  {
    if cases == [] then []
    else
      (if Incomparable(before, after, cases[0].name) then [] else [cases[0]])
      + Surviving(cases[1..], before, after)
  }

  /** What stays on each side: everything, or what survives the exclusion. */
  predicate Kept(before: Run, after: Run, keptBefore: seq<Case>, keptAfter: seq<Case>) {
    if CatalogsDiffer(before, after) then
      keptBefore == Surviving(before.cases, before, after) && keptAfter == Surviving(after.cases, before, after)
    else keptBefore == before.cases && keptAfter == after.cases
  }

  lemma {:induction false} ExclusionSurvives(cases: seq<Case>, before: Run, after: Run, excluded: seq<string>)
    requires CatalogsDiffer(before, after)
    requires forall n :: n in excluded <==> Incomparable(before, after, n)
    ensures Without(cases, excluded) == Surviving(cases, before, after)
  {
    if cases != [] {
      ExclusionSurvives(cases[1..], before, after, excluded);
    }
  }

  lemma {:induction false} SurvivingHolds(cases: seq<Case>, before: Run, after: Run, c: Case)
    requires CatalogsDiffer(before, after)
    ensures c in Surviving(cases, before, after) <==> c in cases && !Incomparable(before, after, c.name)
  {
    if cases != [] {
      SurvivingHolds(cases[1..], before, after, c);
      assert cases == [cases[0]] + cases[1..];
    }
  }

  /** Both runs had every tool the case touches. */
  predicate CommonTools(c: Case, before: Run, after: Run)
    requires CatalogsDiffer(before, after)
  {
    forall t :: t in c.tools ==> t in before.catalog.value && t in after.catalog.value
  }

  lemma ComparableIff(c: Case, before: Run, after: Run)
    requires CatalogsDiffer(before, after)
    ensures Comparable(c, before, after) <==> CommonTools(c, before, after)
  {
    if Comparable(c, before, after) {
      forall t | t in c.tools
        ensures t in before.catalog.value && t in after.catalog.value
      {
        var i :| 0 <= i < |c.tools| && c.tools[i] == t;
      }
    }
  }

  lemma SomeIncomparableIff(cases: seq<Case>, before: Run, after: Run, name: string)
    requires CatalogsDiffer(before, after)
    ensures SomeIncomparable(cases, before, after, name)
       <==> exists d :: d in cases && d.name == name && !CommonTools(d, before, after)
  {
    forall d
      ensures Comparable(d, before, after) <==> CommonTools(d, before, after)
    {
      ComparableIff(d, before, after);
    }
    if SomeIncomparable(cases, before, after, name) {
      var i :| 0 <= i < |cases| && cases[i].name == name && !Comparable(cases[i], before, after);
      assert cases[i] in cases;
    }
  }

  /** A case is set aside if and only if the other side has its name and some case so called, on
      either side, touches a tool one run lacked. */
  lemma SurvivesIff(before: Run, after: Run, keptBefore: seq<Case>, keptAfter: seq<Case>, c: Case)
    requires CatalogsDiffer(before, after) && Kept(before, after, keptBefore, keptAfter)
    ensures c in keptBefore
       <==> && c in before.cases
            && (HasName(after.cases, c.name) ==>
                  forall d :: (d in before.cases || d in after.cases) && d.name == c.name ==>
                    CommonTools(d, before, after))
    ensures c in keptAfter
       <==> && c in after.cases
            && (HasName(before.cases, c.name) ==>
                  forall d :: (d in before.cases || d in after.cases) && d.name == c.name ==>
                    CommonTools(d, before, after))
  {
    SurvivingHolds(before.cases, before, after, c);
    SurvivingHolds(after.cases, before, after, c);
    SomeIncomparableIff(before.cases, before, after, c.name);
    SomeIncomparableIff(after.cases, before, after, c.name);
    NamesHold(before.cases, c.name);
    NamesHold(after.cases, c.name);
  }

  lemma NamesHold(cases: seq<Case>, name: string)
    ensures HasName(cases, name) <==> exists d :: d in cases && d.name == name
  {
    if HasName(cases, name) {
      var i :| 0 <= i < |cases| && cases[i].name == name;
      assert cases[i] in cases;
    }
  }

  /** When the catalogs differ, a case that is paired, and its partner, touched only tools that
      both runs had. */
  lemma PairsUseCommonTools(before: Run, after: Run, keptBefore: seq<Case>, keptAfter: seq<Case>, c: Case)
    requires CatalogsDiffer(before, after) && Kept(before, after, keptBefore, keptAfter)
    requires c in keptBefore && Find(keptAfter, c.name).Some?
    ensures CommonTools(c, before, after) && CommonTools(Find(keptAfter, c.name).value, before, after)
  {
    var a := Find(keptAfter, c.name).value;
    SurvivesIff(before, after, keptBefore, keptAfter, c);
    SurvivesIff(before, after, keptBefore, keptAfter, a);
    NamesHold(after.cases, c.name);
  }

  // ------------------------------------------------------------------- conservation

  function Count(pairs: seq<(bool, bool)>, b: bool, a: bool): nat {
    if pairs == [] then 0
    else Count(pairs[..|pairs| - 1], b, a) + if pairs[|pairs| - 1] == (b, a) then 1 else 0
  }

  /** Pairs that passed before. */
  function BeforePassed(pairs: seq<(bool, bool)>): nat {
    Count(pairs, true, true) + Count(pairs, true, false)
  }

  function AfterPassed(pairs: seq<(bool, bool)>): nat {
    Count(pairs, true, true) + Count(pairs, false, true)
  }

  lemma CountSnoc(pairs: seq<(bool, bool)>, q: seq<(bool, bool)>, b: bool, a: bool)
    requires |q| <= 1
    ensures Count(pairs + q, b, a) == Count(pairs, b, a) + if q == [(b, a)] then 1 else 0
  {
    if q == [] {
      assert pairs + q == pairs;
    } else {
      assert (pairs + q)[..|pairs|] == pairs;
    }
  }

  /** Every case of `before` is paired or reported as unpaired; the fixed and the broken are
      exactly the pairs that changed. */
  lemma {:induction false} NothingIsLost(before: seq<Case>, after: seq<Case>)
    ensures var p := PairAll(before, after);
            && |p.pairs| + |p.onlyBefore| == |before|
            && |p.fixed| == Count(p.pairs, false, true)
            && |p.broken| == Count(p.pairs, true, false)
  {
    if before != [] {
      var init, c := before[..|before| - 1], before[|before| - 1];
      var p, q := PairAll(init, after), PairOf(c, after);
      NothingIsLost(init, after);
      CountSnoc(p.pairs, q.pairs, false, true);
      CountSnoc(p.pairs, q.pairs, true, false);
    }
  }

  /** The change in passes is what was fixed less what was broken. */
  lemma DeltaIsFixedLessBroken(before: seq<Case>, after: seq<Case>)
    ensures var p := Paired(before, after);
            AfterPassed(p.pairs) - BeforePassed(p.pairs) == |p.fixed| - |p.broken|
  {
    NothingIsLost(before, after);
  }

  // ------------------------------------------------------------------- other direction

  /** The cases of one side that the other has by name. */
  function Matched(cases: seq<Case>, others: seq<Case>): nat {
    if cases == [] then 0
    else Matched(cases[..|cases| - 1], others) + if HasName(others, cases[|cases| - 1].name) then 1 else 0
  }

  lemma {:induction false} MatchedAndUnmatched(cases: seq<Case>, others: seq<Case>)
    ensures Matched(cases, others) + |Unmatched(cases, others)| == |cases|
  {
    if cases != [] {
      MatchedAndUnmatched(cases[..|cases| - 1], others);
    }
  }

  lemma {:induction false} PairsAreMatched(before: seq<Case>, after: seq<Case>)
    ensures |PairAll(before, after).pairs| == Matched(before, after)
  {
    if before != [] {
      PairsAreMatched(before[..|before| - 1], after);
    }
  }

  /** The pairs and the unpaired make up the after side too, if and only if as many of its cases
      as of the before side's have a namesake: repeated names break it. */
  lemma AfterSideBalances(before: seq<Case>, after: seq<Case>)
    ensures var p := Paired(before, after);
            |p.pairs| + |p.onlyAfter| == |after| <==> Matched(before, after) == Matched(after, before)
  {
    PairsAreMatched(before, after);
    MatchedAndUnmatched(after, before);
  }

  /** A case repeated in one report is paired twice with the same partner. */
  lemma RepeatedNamesUnbalance()
    ensures var before := [Case("a", true, []), Case("a", false, [])];
            var after := [Case("a", true, [])];
            |Paired(before, after).pairs| + |Paired(before, after).onlyAfter| != |after|
  {
    var c, d := Case("a", true, []), Case("a", false, []);
    assert [c][0].name == "a" && [c, d][0].name == "a";
    assert [c, d][..1] == [c] && [c][..0] == [];
    assert Find([c], "a") == Some(c);
    assert PairAll([c], [c]) == Both(NOTHING, PairOf(c, [c]));
    assert PairAll([c, d], [c]) == Both(PairAll([c], [c]), PairOf(d, [c]));
  }

  predicate UniqueNames(cases: seq<Case>) {
    forall i, j :: 0 <= i < j < |cases| ==> cases[i].name != cases[j].name
  }

  /** The names two reports share, as sets: with unique names, all that the counts depend on. */
  function NameSet(cases: seq<Case>): set<string> {
    set i | 0 <= i < |cases| :: cases[i].name
  }

  lemma {:induction false} MatchedIsShared(cases: seq<Case>, others: seq<Case>)
    requires UniqueNames(cases)
    ensures Matched(cases, others) == |NameSet(cases) * NameSet(others)|
  {
    if cases == [] {
      assert NameSet(cases) * NameSet(others) == {};
    } else {
      var init, last := cases[..|cases| - 1], cases[|cases| - 1];
      assert UniqueNames(init);
      MatchedIsShared(init, others);
      NameSetSnoc(cases);
      OneMore(NameSet(init), NameSet(others), last.name);
    }
  }

  lemma OneMore(names: set<string>, others: set<string>, n: string)
    requires n !in names
    ensures |(names + {n}) * others| == |names * others| + if n in others then 1 else 0
  {
    assert (names + {n}) * others == if n in others then names * others + {n} else names * others;
  }

  lemma NameSetSnoc(cases: seq<Case>)
    requires cases != [] && UniqueNames(cases)
    ensures NameSet(cases) == NameSet(cases[..|cases| - 1]) + {cases[|cases| - 1].name}
    ensures cases[|cases| - 1].name !in NameSet(cases[..|cases| - 1])
  {
    var init := cases[..|cases| - 1];
    assert forall i :: 0 <= i < |init| ==> init[i] == cases[i];
    forall n
      ensures n in NameSet(cases) <==> n in NameSet(init) + {cases[|cases| - 1].name}
    {
      if n in NameSet(cases) {
        var i :| 0 <= i < |cases| && cases[i].name == n;
        if i < |init| {
          assert init[i].name == n;
        }
      }
      if n in NameSet(init) {
        var i :| 0 <= i < |init| && init[i].name == n;
        assert cases[i].name == n;
      }
    }
  }

  /** With unique names on both sides nothing is lost on either, and swapping the reports keeps
      the number of pairs. */
  lemma UniqueNamesBalance(before: seq<Case>, after: seq<Case>)
    requires UniqueNames(before) && UniqueNames(after)
    ensures var p := Paired(before, after);
            && |p.pairs| + |p.onlyBefore| == |before|
            && |p.pairs| + |p.onlyAfter| == |after|
            && |Paired(after, before).pairs| == |p.pairs|
  {
    NothingIsLost(before, after);
    MatchedIsShared(before, after);
    MatchedIsShared(after, before);
    assert NameSet(before) * NameSet(after) == NameSet(after) * NameSet(before);
    AfterSideBalances(before, after);
    PairsAreMatched(before, after);
    PairsAreMatched(after, before);
  }

  /** `n` failed on the first side and passed on the second. */
  predicate Improved(first: seq<Case>, second: seq<Case>, n: string) {
    && Find(first, n).Some? && Find(second, n).Some?
    && !Find(first, n).value.passed && Find(second, n).value.passed
  }

  /** Under unique names a name is listed as fixed exactly when its case improved, and as broken
      exactly when it got worse. */
  lemma {:induction false} ListsAreExact(before: seq<Case>, part: seq<Case>, after: seq<Case>, n: string)
    requires UniqueNames(before) && part <= before
    ensures n in PairAll(part, after).fixed <==> HasName(part, n) && Improved(before, after, n)
    ensures n in PairAll(part, after).broken <==> HasName(part, n) && Improved(after, before, n)
    decreases part
  {
    if part != [] {
      var init, c := part[..|part| - 1], part[|part| - 1];
      ListsAreExact(before, init, after, n);
      assert c == before[|part| - 1];
      HasNameSnoc(init, c, n);
      assert part == init + [c];
    }
  }

  lemma HasNameSnoc(init: seq<Case>, c: Case, n: string)
    ensures HasName(init + [c], n) <==> HasName(init, n) || c.name == n
  {
    if HasName(init, n) {
      var i :| 0 <= i < |init| && init[i].name == n;
      assert (init + [c])[i].name == n;
    }
    assert (init + [c])[|init|] == c;
  }

  /** Swapping the reports swaps the fixed with the broken. */
  lemma SwapSwapsFixedAndBroken(before: seq<Case>, after: seq<Case>, n: string)
    requires UniqueNames(before) && UniqueNames(after)
    ensures n in Paired(before, after).fixed <==> n in Paired(after, before).broken
    ensures n in Paired(before, after).broken <==> n in Paired(after, before).fixed
  {
    ListsAreExact(before, before, after, n);
    ListsAreExact(after, after, before, n);
  }

  lemma {:induction false} ListsDoNotRepeat(before: seq<Case>, part: seq<Case>, after: seq<Case>)
    requires UniqueNames(before) && part <= before
    ensures NoRepeats(PairAll(part, after).fixed) && NoRepeats(PairAll(part, after).broken)
    decreases part
  {
    if part != [] {
      var init, c := part[..|part| - 1], part[|part| - 1];
      ListsDoNotRepeat(before, init, after);
      ListsAreExact(before, init, after, c.name);
      assert !HasName(init, c.name) by {
        assert forall i :: 0 <= i < |init| ==> init[i] == before[i] && before[i].name != before[|init|].name;
      }
    }
  }

  lemma {:induction false} SizeOfList(names: seq<string>)
    requires NoRepeats(names)
    ensures |set n | n in names| == |names|
  {
    if names != [] {
      var init, last := names[..|names| - 1], names[|names| - 1];
      SizeOfList(init);
      assert names == init + [last];
      assert (set n | n in names) == (set n | n in init) + {last};
    }
  }

  lemma SameSize(a: seq<string>, b: seq<string>)
    requires NoRepeats(a) && NoRepeats(b) && forall n :: n in a <==> n in b
    ensures |a| == |b|
  {
    SizeOfList(a);
    SizeOfList(b);
    assert (set n | n in a) == (set n | n in b);
  }

  /** In numbers too: as many fixed one way as broken the other, over as many pairs. */
  lemma SwapSwapsTheCounts(before: seq<Case>, after: seq<Case>)
    requires UniqueNames(before) && UniqueNames(after)
    ensures var p, q := Paired(before, after), Paired(after, before);
            |p.fixed| == |q.broken| && |p.broken| == |q.fixed| && |p.pairs| == |q.pairs|
  {
    forall n
      ensures n in Paired(before, after).fixed <==> n in Paired(after, before).broken
      ensures n in Paired(before, after).broken <==> n in Paired(after, before).fixed
    {
      SwapSwapsFixedAndBroken(before, after, n);
    }
    ListsDoNotRepeat(before, before, after);
    ListsDoNotRepeat(after, after, before);
    SameSize(Paired(before, after).fixed, Paired(after, before).broken);
    SameSize(Paired(before, after).broken, Paired(after, before).fixed);
    UniqueNamesBalance(before, after);
  }

  /** The exclusion itself does not depend on which report comes first. */
  lemma ExclusionIsSymmetric(before: Run, after: Run, n: string)
    requires CatalogsDiffer(before, after)
    ensures CatalogsDiffer(after, before)
    ensures Incomparable(before, after, n) <==> Incomparable(after, before, n)
  {}

  // --------------------------------------------------------------- what the lists hold

  /** The partner of a case is the first of its name. */
  lemma {:induction false} PartnerIsFirst(cases: seq<Case>, i: nat)
    requires i < |cases| && forall j :: 0 <= j < i ==> cases[j].name != cases[i].name
    ensures Find(cases, cases[i].name) == Some(cases[i])
  {
    if i > 0 {
      assert forall j :: 0 <= j < |cases| - 1 ==> cases[1..][j] == cases[j + 1];
      PartnerIsFirst(cases[1..], i - 1);
    }
  }

  /** The cases that passed and have a namesake. */
  function PassedMatched(cases: seq<Case>, others: seq<Case>): nat {
    if cases == [] then 0
    else
      var last := cases[|cases| - 1];
      PassedMatched(cases[..|cases| - 1], others) + if last.passed && HasName(others, last.name) then 1 else 0
  }

  /** A pair counts as passed before if and only if its case passed. */
  lemma {:induction false} BeforePassedAreCases(before: seq<Case>, after: seq<Case>)
    ensures BeforePassed(PairAll(before, after).pairs) == PassedMatched(before, after)
  {
    if before != [] {
      var init, c := before[..|before| - 1], before[|before| - 1];
      var p, q := PairAll(init, after), PairOf(c, after);
      BeforePassedAreCases(init, after);
      CountSnoc(p.pairs, q.pairs, true, true);
      CountSnoc(p.pairs, q.pairs, true, false);
    }
  }

  lemma {:induction false} OnlyBeforeHolds(before: seq<Case>, after: seq<Case>, n: string)
    ensures n in PairAll(before, after).onlyBefore <==> HasName(before, n) && !HasName(after, n)
  {
    if before != [] {
      var init, c := before[..|before| - 1], before[|before| - 1];
      OnlyBeforeHolds(init, after, n);
      HasNameSnoc(init, c, n);
      assert before == init + [c];
    }
  }

  lemma {:induction false} UnmatchedHolds(cases: seq<Case>, others: seq<Case>, n: string)
    ensures n in Unmatched(cases, others) <==> HasName(cases, n) && !HasName(others, n)
  {
    if cases != [] {
      var init, c := cases[..|cases| - 1], cases[|cases| - 1];
      UnmatchedHolds(init, others, n);
      HasNameSnoc(init, c, n);
      assert cases == init + [c];
    }
  }

  /** A name is listed as one side's own if and only if that side alone has it. */
  lemma UnpairedIff(before: seq<Case>, after: seq<Case>, n: string)
    ensures n in Paired(before, after).onlyBefore <==> HasName(before, n) && !HasName(after, n)
    ensures n in Paired(before, after).onlyAfter <==> HasName(after, n) && !HasName(before, n)
  {
    OnlyBeforeHolds(before, after, n);
    UnmatchedHolds(after, before, n);
  }

  // ------------------------------------------------------------------------- refusal

  /** A comparison is made if and only if at least twenty cases have a namesake, and they are at
      least half of one side; with none there is nothing to pair. */
  lemma ComparedIff(before: seq<Case>, after: seq<Case>)
    ensures var v, shared := Judged(Paired(before, after), |before|, |after|), Matched(before, after);
            && (v == Compared(Paired(before, after))
                <==> shared >= 20 && (2 * shared >= |before| || 2 * shared >= |after|))
            && (v == NothingToPair <==> shared == 0)
            && (v.Compared? || v == NothingToPair || v == TooFew(shared))
  {
    PairsAreMatched(before, after);
  }

  /** Cases with names of 0, 1, 2 and so on letters. */
  function Numbered(n: nat): (cases: seq<Case>)
    ensures |cases| == n && forall i :: 0 <= i < n ==> |cases[i].name| == i
  {
    seq(n, i requires 0 <= i => Case(seq(i, _ => 'a'), true, []))
  }

  lemma {:induction false} AllMatched(cases: seq<Case>, others: seq<Case>)
    requires forall i :: 0 <= i < |cases| ==> HasName(others, cases[i].name)
    ensures Matched(cases, others) == |cases|
  {
    if cases != [] {
      AllMatched(cases[..|cases| - 1], others);
    }
  }

  lemma NumberedMatched(m: nat, n: nat)
    requires m <= n
    ensures Matched(Numbered(m), Numbered(n)) == m == |Paired(Numbered(m), Numbered(n)).pairs|
    ensures UniqueNames(Numbered(m))
  {
    var cases, others := Numbered(m), Numbered(n);
    forall i | 0 <= i < |cases|
      ensures HasName(others, cases[i].name)
    {
      assert others[i].name == cases[i].name;
    }
    AllMatched(cases, others);
    PairsAreMatched(cases, others);
  }

  /** Most of one side can be discarded all the same: twenty cases, all of them among the other
      side's forty-one, are compared. */
  lemma MostOfASideCanBeDiscarded()
    ensures var before, after := Numbered(20), Numbered(41);
            && UniqueNames(before) && UniqueNames(after)
            && Judged(Paired(before, after), |before|, |after|) == Compared(Paired(before, after))
            && 2 * |Paired(before, after).pairs| < |after|
  {
    NumberedMatched(20, 41);
    NumberedMatched(41, 41);
    ComparedIff(Numbered(20), Numbered(41));
  }

  /** With unique names: at least twenty names are shared, and at least half of one side's. */
  lemma ComparedIffShared(before: seq<Case>, after: seq<Case>)
    requires UniqueNames(before) && UniqueNames(after)
    ensures var shared := |NameSet(before) * NameSet(after)|;
            Judged(Paired(before, after), |before|, |after|).Compared?
            <==> shared >= 20 && (2 * shared >= |NameSet(before)| || 2 * shared >= |NameSet(after)|)
  {
    ComparedIff(before, after);
    MatchedIsShared(before, after);
    NamesAreCases(before);
    NamesAreCases(after);
  }

  lemma {:induction false} NamesAreCases(cases: seq<Case>)
    requires UniqueNames(cases)
    ensures |NameSet(cases)| == |cases|
  {
    if cases == [] {
      assert NameSet(cases) == {};
    } else {
      assert UniqueNames(cases[..|cases| - 1]);
      NamesAreCases(cases[..|cases| - 1]);
      NameSetSnoc(cases);
    }
  }
}
