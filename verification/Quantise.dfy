/** Quantising real weights to int8, over the reals, and the exact margin that keeps a winner. */
module Quantise {
  import Classifier
  import Fold
  import Utf8

  /** One real weight per (bucket, class). */
  type Table = seq<seq<real>>

  predicate IsTable(w: Table, classes: nat) {
    |w| > 0 && classes > 0 && forall b :: 0 <= b < |w| ==> |w[b]| == classes
  }

  // ------------------------------------------------------------------------- scale

  function Abs(x: real): real {
    if x < 0.0 then -x else x
  }

  function MaxOf(a: real, b: real): real {
    if a < b then b else a
  }

  function RowMax(row: seq<real>): (m: real)
    ensures m >= 0.0 && forall c :: 0 <= c < |row| ==> Abs(row[c]) <= m
    ensures m == 0.0 || exists c :: 0 <= c < |row| && Abs(row[c]) == m
  {
    if row == [] then 0.0 else MaxOf(RowMax(row[..|row| - 1]), Abs(row[|row| - 1]))
  }

  /** `np.abs(W).max()`. */
  function AbsMax(w: Table): (m: real)
    ensures m >= 0.0 && forall b, c :: 0 <= b < |w| && 0 <= c < |w[b]| ==> Abs(w[b][c]) <= m
  {
    if w == [] then 0.0 else MaxOf(AbsMax(w[..|w| - 1]), RowMax(w[|w| - 1]))
  }

  function Scale(w: Table): (s: real)
    ensures s > 0.0
    ensures forall b, c :: 0 <= b < |w| && 0 <= c < |w[b]| ==> Abs(w[b][c]) <= 127.0 * s
  {
    var s := AbsMax(w) / 127.0;
    if s == 0.0 then 1.0 else s
  }

  // ---------------------------------------------------------------------- rounding

  /** `np.round`: to the nearest integer, halves to the even one. */
  function Round(x: real): int {
    var f := x.Floor;
    var d := x - f as real;
    if d < 0.5 then f else if d > 0.5 then f + 1 else if f % 2 == 0 then f else f + 1
  }

  /** The nearest integer, and the even one of two as near. */
  lemma RoundIsNearestEven(x: real)
    ensures -0.5 <= x - Round(x) as real <= 0.5
    ensures x - Round(x) as real == 0.5 || x - Round(x) as real == -0.5 ==> Round(x) % 2 == 0
  {
    assert x.Floor as real <= x < x.Floor as real + 1.0;
  }

  function Clip(n: int): Classifier.int8 {
    if n < -127 then -127 else if n > 127 then 127 else n
  }

  function Quantised(w: Table, b: nat, c: nat): Classifier.int8
    requires b < |w| && c < |w[b]|
  {
    Clip(Round(w[b][c] / Scale(w)))
  }

  lemma DivideBound(x: real, s: real, k: real)
    requires s > 0.0 && Abs(x) <= k * s
    ensures -k <= x / s <= k
  {
    var q := x / s;
    assert q * s == x;
  }

  /** The clip never bites, and a quantised weight is within half a step of the real one. */
  lemma QuantisedIsNear(w: Table, b: nat, c: nat)
    requires b < |w| && c < |w[b]|
    ensures Quantised(w, b, c) == Round(w[b][c] / Scale(w))
    ensures w[b][c] / Scale(w) - 0.5 <= Quantised(w, b, c) as real <= w[b][c] / Scale(w) + 0.5
  {
    DivideBound(w[b][c], Scale(w), 127.0);
  }

  // ------------------------------------------------------------------------ scores

  predicate IsMessage(w: Table, classes: nat, idx: seq<nat>) {
    IsTable(w, classes) && forall k :: 0 <= k < |idx| ==> idx[k] < |w|
  }

  function RealScore(w: Table, classes: nat, idx: seq<nat>, c: nat): real
    requires IsMessage(w, classes, idx) && c < classes
  {
    if idx == [] then 0.0
    else RealScore(w, classes, idx[..|idx| - 1], c) + w[idx[|idx| - 1]][c]
  }

  /** What the device adds up. */
  function IntScore(w: Table, classes: nat, idx: seq<nat>, c: nat): int
    requires IsMessage(w, classes, idx) && c < classes
  {
    if idx == [] then 0
    else IntScore(w, classes, idx[..|idx| - 1], c) + Quantised(w, idx[|idx| - 1], c)
  }

  /** And that is the head's sum over the same grams, the quantised table being its weights. */
  lemma {:induction false} IntScoreIsHeadSum(
      w: Table, weights: seq<seq<Classifier.int8>>, h: nat, idx: seq<nat>, c: nat)
    requires h < Classifier.HEADS && c < Classifier.HEAD_CLASSES[h]
    requires Classifier.WeightsFit(weights, |w|) && IsMessage(w, Classifier.HEAD_CLASSES[h], idx)
    requires forall b :: 0 <= b < |w| ==> Classifier.Weight(weights, |w|, h, b, c) == Quantised(w, b, c)
    ensures IntScore(w, Classifier.HEAD_CLASSES[h], idx, c) == Classifier.HeadSum(weights, |w|, h, idx, c)
    decreases |idx|
  {
    if idx != [] {
      IntScoreIsHeadSum(w, weights, h, idx[..|idx| - 1], c);
    }
  }

  function IntScores(w: Table, classes: nat, idx: seq<nat>): (scores: seq<int>)
    requires IsMessage(w, classes, idx)
    ensures |scores| == classes && forall c :: 0 <= c < classes ==> scores[c] == IntScore(w, classes, idx, c)
  {
    seq(classes, c requires 0 <= c < classes => IntScore(w, classes, idx, c))
  }

  /** The score `i` is within half a step a gram of `x`. */
  predicate IsNear(i: int, x: real, s: real, m: real) {
    IsWithin(i as real * s, x, m / 2.0 * s)
  }

  predicate IsWithin(y: real, x: real, h: real) {
    x - h <= y <= x + h
  }

  lemma NearAdds(i: int, x: real, j: int, z: real, s: real, m: real)
    requires IsNear(i, x, s, m) && IsNear(j, z, s, 1.0)
    ensures IsNear(i + j, x + z, s, m + 1.0)
  {
    assert (i + j) as real == i as real + j as real;
    Distributes(i as real, j as real, s);
    assert (m + 1.0) / 2.0 == m / 2.0 + 1.0 / 2.0;
    Distributes(m / 2.0, 1.0 / 2.0, s);
  }

  /** Distances scale, both ways. */
  lemma WithinScales(y: real, q: real, h: real, s: real)
    requires s > 0.0
    ensures IsWithin(y, q, h) <==> IsWithin(y * s, q * s, h * s)
  {
    Distributes(q, h, s);
    Scaled(q - h, y, s);
    Scaled(y, q + h, s);
  }

  lemma Distributes(a: real, b: real, s: real)
    ensures (a - b) * s == a * s - b * s && (a + b) * s == a * s + b * s
  {}

  lemma Scaled(a: real, b: real, s: real)
    requires s > 0.0
    ensures a <= b <==> a * s <= b * s
  {
    if a > b {
      assert (a - b) * s > 0.0;
    } else {
      assert (b - a) * s >= 0.0;
    }
  }

  /** Near is the same in steps and in weights. */
  lemma NearByQuotient(i: int, x: real, s: real, m: real)
    requires s > 0.0
    ensures IsNear(i, x, s, m) <==> IsWithin(i as real, x / s, m / 2.0)
  {
    var q := x / s;
    assert q * s == x;
    WithinScales(i as real, q, m / 2.0, s);
  }

  lemma {:induction false} ScoreIsNear(w: Table, classes: nat, idx: seq<nat>, c: nat)
    requires IsMessage(w, classes, idx) && c < classes
    ensures IsNear(IntScore(w, classes, idx, c), RealScore(w, classes, idx, c), Scale(w), |idx| as real)
    decreases |idx|
  {
    if idx != [] {
      var before, last := idx[..|idx| - 1], idx[|idx| - 1];
      ScoreIsNear(w, classes, before, c);
      QuantisedIsNear(w, last, c);
      NearByQuotient(Quantised(w, last, c), w[last][c], Scale(w), 1.0);
      NearAdds(IntScore(w, classes, before, c), RealScore(w, classes, before, c),
               Quantised(w, last, c), w[last][c], Scale(w), |before| as real);
      assert |idx| as real == |before| as real + 1.0;
    }
  }

  /** Over `m` grams the integer score is within `m / 2` of the scaled real score. */
  lemma ScoreError(w: Table, classes: nat, idx: seq<nat>, c: nat)
    requires IsMessage(w, classes, idx) && c < classes
    ensures var exact := RealScore(w, classes, idx, c) / Scale(w);
            var half := |idx| as real / 2.0;
            exact - half <= IntScore(w, classes, idx, c) as real <= exact + half
  {
    ScoreIsNear(w, classes, idx, c);
    NearByQuotient(IntScore(w, classes, idx, c), RealScore(w, classes, idx, c), Scale(w), |idx| as real);
  }

  // ------------------------------------------------------------------------ margin

  /** Class `y` beats every other by at least `lead` in the real scores. */
  predicate Leads(w: Table, classes: nat, idx: seq<nat>, y: nat, lead: real)
    requires IsMessage(w, classes, idx)
  {
    y < classes && forall c :: 0 <= c < classes && c != y ==>
      RealScore(w, classes, idx, y) - RealScore(w, classes, idx, c) >= lead
  }

  /** The int8 model picks `y`. */
  predicate Picks(w: Table, classes: nat, idx: seq<nat>, y: nat)
    requires IsMessage(w, classes, idx)
  {
    Classifier.IsFirstMax(IntScores(w, classes, idx), y)
  }

  /** A winner more than `m` scale steps ahead is still the winner after quantising. */
  lemma MarginKeepsWinner(w: Table, classes: nat, idx: seq<nat>, y: nat, lead: real)
    requires IsMessage(w, classes, idx) && Leads(w, classes, idx, y, lead)
    requires lead > |idx| as real * Scale(w)
    ensures Picks(w, classes, idx, y)
  {
    var scores, exact, s, m := IntScores(w, classes, idx), RealScores(w, classes, idx), Scale(w), |idx| as real;
    forall c | 0 <= c < classes
      ensures IsNear(scores[c], exact[c], s, m)
    {
      ScoreIsNear(w, classes, idx, c);
    }
    LeadDecides(scores, exact, y, s, m, lead);
  }

  function RealScores(w: Table, classes: nat, idx: seq<nat>): (scores: seq<real>)
    requires IsMessage(w, classes, idx)
    ensures |scores| == classes && forall c :: 0 <= c < classes ==> scores[c] == RealScore(w, classes, idx, c)
  {
    seq(classes, c requires 0 <= c < classes => RealScore(w, classes, idx, c))
  }

  /** Scores that near to real ones with that lead have the same winner. */
  lemma LeadDecides(scores: seq<int>, exact: seq<real>, y: nat, s: real, m: real, lead: real)
    requires |scores| == |exact| && y < |exact| && s > 0.0 && lead > m * s
    requires forall c :: 0 <= c < |exact| ==> IsNear(scores[c], exact[c], s, m)
    requires forall c :: 0 <= c < |exact| && c != y ==> exact[y] - exact[c] >= lead
    ensures Classifier.IsFirstMax(scores, y)
  {
    forall c | 0 <= c < |scores| && c != y
      ensures scores[c] < scores[y]
    {
      NearScoresOrder(scores[y], exact[y], scores[c], exact[c], s, m);
    }
  }

  lemma NearScoresOrder(i: int, x: real, j: int, z: real, s: real, m: real)
    requires s > 0.0 && IsNear(i, x, s, m) && IsNear(j, z, s, m) && x - z > m * s
    ensures j < i
  {
    Distributes(m / 2.0, m / 2.0, s);
    assert m / 2.0 + m / 2.0 == m;
    FarApart(i as real * s, x, j as real * s, z, m / 2.0 * s);
    Scaled(i as real, j as real, s);
  }

  lemma FarApart(y: real, x: real, v: real, z: real, h: real)
    requires IsWithin(y, x, h) && IsWithin(v, z, h) && x - z > h + h
    ensures v < y
  {}

  // --------------------------------------------------------------------- sharpness

  /** Two classes, one bucket, `u`, that sets the scale, and in every other a gram worth `a` each
      way. */
  function Witness(buckets: nat, u: nat, a: real, s: real): (w: Table)
    ensures |w| == buckets
    ensures forall b :: 0 <= b < buckets ==> w[b] == if b == u then [127.0 * s, 127.0 * s] else [-a, a]
  {
    seq(buckets, b => if b == u then [127.0 * s, 127.0 * s] else [-a, a])
  }

  lemma {:induction false} AbsMaxAtMost(w: Table, m: real)
    requires m >= 0.0 && forall b, c :: 0 <= b < |w| && 0 <= c < |w[b]| ==> Abs(w[b][c]) <= m
    ensures AbsMax(w) <= m
  {
    if w != [] {
      var init, row := w[..|w| - 1], w[|w| - 1];
      assert w[|w| - 1] == row;
      AbsMaxAtMost(init, m);
    }
  }

  lemma WitnessScale(buckets: nat, u: nat, a: real, s: real)
    requires s > 0.0 && 0.0 < a <= 0.5 * s && u < buckets
    ensures IsTable(Witness(buckets, u, a, s), 2) && Scale(Witness(buckets, u, a, s)) == s
  {
    var w := Witness(buckets, u, a, s);
    AbsMaxAtMost(w, 127.0 * s);
    assert Abs(w[u][0]) == 127.0 * s;
    assert AbsMax(w) == 127.0 * s;
  }

  lemma HalfStepsVanish(buckets: nat, u: nat, a: real, s: real, b: nat, c: nat)
    requires s > 0.0 && 0.0 < a <= 0.5 * s && u < buckets && b < buckets && b != u && c < 2
    ensures Quantised(Witness(buckets, u, a, s), b, c) == 0
  {
    WitnessScale(buckets, u, a, s);
    HalfStepRounds(a, s);
  }

  lemma HalfStepRounds(a: real, s: real)
    requires s > 0.0 && 0.0 < a <= 0.5 * s
    ensures Round(a / s) == 0 && Round((-a) / s) == 0
  {
    DivideBound(a, s, 0.5);
    DivideBound(-a, s, 0.5);
    assert a / s >= 0.0;
  }

  function Times(m: nat, a: real): real {
    if m == 0 then 0.0 else Times(m - 1, a) + a
  }

  lemma {:induction false} TimesIsProduct(m: nat, a: real)
    ensures Times(m, a) == m as real * a
  {
    if m > 0 {
      TimesIsProduct(m - 1, a);
    }
  }

  /** No gram in bucket `u`: the reals see a lead of `2 m a` over `m` grams, the device a tie. */
  lemma {:induction false} WitnessScores(buckets: nat, u: nat, a: real, s: real, idx: seq<nat>)
    requires s > 0.0 && 0.0 < a <= 0.5 * s && u < buckets && u !in idx
    requires forall k :: 0 <= k < |idx| ==> idx[k] < buckets
    ensures IsMessage(Witness(buckets, u, a, s), 2, idx)
    ensures RealScore(Witness(buckets, u, a, s), 2, idx, 0) == Times(|idx|, -a)
    ensures RealScore(Witness(buckets, u, a, s), 2, idx, 1) == Times(|idx|, a)
    ensures IntScore(Witness(buckets, u, a, s), 2, idx, 0) == 0 == IntScore(Witness(buckets, u, a, s), 2, idx, 1)
    decreases |idx|
  {
    WitnessScale(buckets, u, a, s);
    if idx != [] {
      var before, last := idx[..|idx| - 1], idx[|idx| - 1];
      WitnessScores(buckets, u, a, s, before);
      HalfStepsVanish(buckets, u, a, s, last, 0);
      HalfStepsVanish(buckets, u, a, s, last, 1);
    }
  }

  /** With a lead of no more than a scale step per gram the device can pick another class: whatever
      the message, as long as its grams leave a bucket unused. */
  lemma SmallLeadCanLose(idx: seq<nat>, buckets: nat, u: nat, s: real, lead: real) returns (w: Table)
    requires |idx| >= 1 && u < buckets && u !in idx && forall k :: 0 <= k < |idx| ==> idx[k] < buckets
    requires s > 0.0 && 0.0 < lead <= |idx| as real * s
    ensures |w| == buckets && IsMessage(w, 2, idx) && Scale(w) == s
    ensures Leads(w, 2, idx, 1, lead) && !Picks(w, 2, idx, 1)
  {
    var a := HalfLead(|idx|, s, lead);
    w := Witness(buckets, u, a, s);
    WitnessScale(buckets, u, a, s);
    WitnessScores(buckets, u, a, s, idx);
    assert IntScores(w, 2, idx)[0] == 0 == IntScores(w, 2, idx)[1];
  }

  /** The weight that makes up the lead, half of it each way. */
  lemma HalfLead(m: nat, s: real, lead: real) returns (a: real)
    requires m >= 1 && s > 0.0 && 0.0 < lead <= m as real * s
    ensures 0.0 < a <= 0.5 * s && Times(m, a) - Times(m, -a) == lead
  {
    a := lead / (2.0 * m as real);
    TimesIsProduct(m, a);
    TimesIsProduct(m, -a);
    BothHalves(m as real, a, lead);
    HalfOfAStep(m as real, a, s, lead);
  }

  lemma BothHalves(m: real, a: real, lead: real)
    requires a * (2.0 * m) == lead
    ensures m * a - m * -a == lead
  {}

  lemma HalfOfAStep(m: real, a: real, s: real, lead: real)
    requires m >= 1.0 && s > 0.0 && a * (2.0 * m) == lead && 0.0 < lead <= m * s
    ensures 0.0 < a <= 0.5 * s
  {
    assert m * (2.0 * a) <= m * s;
  }

  function Without(idx: seq<nat>, b: nat): (rest: seq<nat>)
    ensures |rest| <= |idx| && (b in idx ==> |rest| < |idx|)
    ensures forall x :: x in rest <==> x in idx && x != b
  {
    if idx == [] then []
    else (if idx[0] == b then [] else [idx[0]]) + Without(idx[1..], b)
  }

  /** Fewer grams than buckets leave one unused. */
  lemma {:induction false} UnusedBucket(idx: seq<nat>, buckets: nat) returns (u: nat)
    requires |idx| < buckets
    ensures u < buckets && u !in idx
    decreases buckets
  {
    if buckets - 1 in idx {
      u := UnusedBucket(Without(idx, buckets - 1), buckets - 1);
    } else {
      u := buckets - 1;
    }
  }

  /** Every table of scale `s` whose winner on this message leads by `lead` keeps it. */
  ghost predicate LeadIsEnough(idx: seq<nat>, buckets: nat, s: real, lead: real) {
    forall w: Table, classes: nat, y: nat ::
      |w| == buckets && IsMessage(w, classes, idx) && Scale(w) == s && Leads(w, classes, idx, y, lead)
      ==> Picks(w, classes, idx, y)
  }

  /** The features of a text. */
  function Grams(text: string, buckets: nat): seq<nat>
    requires buckets > 0
  {
    Classifier.Features(Utf8.Encode(Fold.FoldText(text)), buckets)
  }

  /** The exact margin, for every text with a gram and fewer grams than buckets: a lead guarantees
      the winner, over all heads of a scale, if and only if it exceeds a scale step per gram. */
  lemma MarginIsExact(text: string, buckets: nat, idx: seq<nat>, s: real, lead: real)
    requires buckets > 0 && idx == Grams(text, buckets) && 1 <= |idx| < buckets && s > 0.0 && lead > 0.0
    ensures LeadIsEnough(idx, buckets, s, lead) <==> lead > |idx| as real * s
  {
    GramsInBuckets(text, buckets, idx);
    MarginOf(idx, buckets, s, lead);
  }

  lemma GramsInBuckets(text: string, buckets: nat, idx: seq<nat>)
    requires buckets > 0 && idx == Grams(text, buckets)
    ensures forall k :: 0 <= k < |idx| ==> idx[k] < buckets
  {}

  /** The same for any grams that leave a bucket unused. */
  lemma MarginOf(idx: seq<nat>, buckets: nat, s: real, lead: real)
    requires 1 <= |idx| < buckets && forall k :: 0 <= k < |idx| ==> idx[k] < buckets
    requires s > 0.0 && lead > 0.0
    ensures LeadIsEnough(idx, buckets, s, lead) <==> lead > |idx| as real * s
  {
    if lead > |idx| as real * s {
      LeadSuffices(idx, buckets, s, lead);
    } else {
      var u := UnusedBucket(idx, buckets);
      var w := SmallLeadCanLose(idx, buckets, u, s, lead);
    }
  }

  lemma LeadSuffices(idx: seq<nat>, buckets: nat, s: real, lead: real)
    requires lead > |idx| as real * s
    ensures LeadIsEnough(idx, buckets, s, lead)
  {
    forall w: Table, classes: nat, y: nat
      | |w| == buckets && IsMessage(w, classes, idx) && Scale(w) == s && Leads(w, classes, idx, y, lead)
      ensures Picks(w, classes, idx, y)
    {
      MarginKeepsWinner(w, classes, idx, y, lead);
    }
  }

  /** A concrete head whose argmax quantising changes: class 1 wins on the reals, class 0 on
      the device. */
  lemma QuantisingCanChangeTheWinner()
    ensures var w: Table := [[-0.5, 0.5], [127.0, 127.0]];
            && IsMessage(w, 2, [0])
            && RealScore(w, 2, [0], 1) > RealScore(w, 2, [0], 0)
            && Picks(w, 2, [0], 0) && !Picks(w, 2, [0], 1)
  {
    assert Witness(2, 1, 0.5, 1.0) == [[-0.5, 0.5], [127.0, 127.0]];
    WitnessScores(2, 1, 0.5, 1.0, [0]);
    TimesIsProduct(1, 0.5);
    TimesIsProduct(1, -0.5);
  }
}
