/** Slot inference: hashed n-grams and integer sums, gram by gram on the device, by head in training. */
module Classifier {
  import opened Text
  import opened Utf8
  import opened Bits
  import Fold
  import Transport

  type int8 = x: int | -128 <= x < 128
  type int32 = x: int | -0x8000_0000 <= x < 0x8000_0000

  const HEADS: nat := 6
  const ROW: nat := 8
  const ALL_CLASSES: nat := 23

  /** Classes of each head: gate, tool, audience, price, when, intent. */
  const HEAD_CLASSES: seq<nat> := [2, 3, 5, 4, 4, 5]

  // -------------------------------------------------------------------------- hash

  const FNV_OFFSET: uint32 := 2166136261
  const FNV_PRIME: uint32 := 16777619

  /** The device's FNV-1a step: 32-bit unsigned arithmetic wraps. */
  function HashStep(h: uint32, b: byte): uint32 {
    Xor(h, b) * FNV_PRIME % TWO_32
  }

  function Hash(s: seq<byte>): uint32 {
    if s == [] then FNV_OFFSET else HashStep(Hash(s[..|s| - 1]), s[|s| - 1])
  }

  /** The trainer's step: unbounded integers and a mask. */
  function TrainerHashStep(h: nat, b: byte): nat {
    And(Xor(h, b) * FNV_PRIME, 0xFFFF_FFFF)
  }

  function TrainerHash(s: seq<byte>): nat {
    if s == [] then FNV_OFFSET else TrainerHashStep(TrainerHash(s[..|s| - 1]), s[|s| - 1])
  }

  /** The trainer's mask is the device's wrap-around. */
  lemma {:induction false} HashesAgree(s: seq<byte>)
    ensures TrainerHash(s) == Hash(s)
  {
    if s != [] {
      HashesAgree(s[..|s| - 1]);
      PowersOfTwo();
      MaskIsModulo(Xor(Hash(s[..|s| - 1]), s[|s| - 1]) * FNV_PRIME, 32);
    }
  }

  // ---------------------------------------------------------------------- features

  function Bucket(gram: seq<byte>, buckets: nat): (b: nat)
    requires buckets > 0
    ensures b < buckets
  {
    Hash(gram) % buckets
  }

  function GramCount(length: nat, n: nat): nat {
    if length < n then 0 else length - n + 1
  }

  /** The buckets of the first `count` n-grams of `s`. */
  function Grams(s: seq<byte>, n: nat, count: nat, buckets: nat): (idx: seq<nat>)
    requires buckets > 0 && count <= GramCount(|s|, n)
    ensures |idx| == count && forall k :: 0 <= k < count ==> idx[k] < buckets
  {
    if count == 0 then []
    else Grams(s, n, count - 1, buckets) + [Bucket(s[count - 1..count - 1 + n], buckets)]
  }

  /** The buckets of all n-grams of lengths 3 up to but not including `n`. */
  function FeaturesBelow(s: seq<byte>, n: nat, buckets: nat): (idx: seq<nat>)
    requires buckets > 0 && 3 <= n
    ensures forall k :: 0 <= k < |idx| ==> idx[k] < buckets
  {
    if n == 3 then [] else FeaturesBelow(s, n - 1, buckets) + Grams(s, n - 1, GramCount(|s|, n - 1), buckets)
  }

  /** The feature list of a folded message. */
  function Features(s: seq<byte>, buckets: nat): seq<nat>
    requires buckets > 0
  {
    FeaturesBelow(s, 6, buckets)
  }

  function GramsBelow(length: nat, n: nat): nat
    requires 3 <= n
  {
    if n == 3 then 0 else GramsBelow(length, n - 1) + GramCount(length, n - 1)
  }

  lemma {:induction false} FeatureCount(s: seq<byte>, n: nat, buckets: nat)
    requires buckets > 0 && 3 <= n
    ensures |FeaturesBelow(s, n, buckets)| == GramsBelow(|s|, n)
  {
    if n > 3 {
      FeatureCount(s, n - 1, buckets);
    }
  }

  /** The trainer's loop over the three gram lengths. */
  method TrainerFeatures(text: string, buckets: nat) returns (idx: seq<nat>)
    requires buckets > 0
    ensures idx == Features(Encode(Fold.FoldText(text)), buckets)
  {
    var t := Fold.FoldMessage(text);
    var b := Encode(t);
    idx := [];
    for n := 3 to 6
      invariant idx == FeaturesBelow(b, n, buckets)
    {
      idx := TrainerGrams(b, n, buckets, idx);
    }
  }

  method TrainerGrams(b: seq<byte>, n: nat, buckets: nat, before: seq<nat>) returns (idx: seq<nat>)
    requires buckets > 0 && n >= 3
    ensures idx == before + Grams(b, n, GramCount(|b|, n), buckets)
  {
    idx := before;
    AppendNothing(before);
    for i := 0 to GramCount(|b|, n)
      invariant idx == before + Grams(b, n, i, buckets)
    {
      var h := TrainerHashGram(b[i..i + n]);
      ConcatAssociative(before, Grams(b, n, i, buckets), [h % buckets]);
      idx := idx + [h % buckets];
    }
  }

  method TrainerHashGram(gram: seq<byte>) returns (h: nat)
    ensures h == Hash(gram)
  {
    h := FNV_OFFSET;
    for k := 0 to |gram|
      invariant h == TrainerHash(gram[..k])
    {
      assert gram[..k + 1][..k] == gram[..k];
      h := TrainerHashStep(h, gram[k]);
    }
    assert gram[..|gram|] == gram;
    HashesAgree(gram);
  }

  // ----------------------------------------------------------------------- weights

  /** One int8 per (bucket, class), row-major, for each head. */
  predicate WeightsFit(weights: seq<seq<int8>>, buckets: nat) {
    && 0 < buckets
    && |weights| == HEADS
    && forall h :: 0 <= h < HEADS ==> |weights[h]| == buckets * HEAD_CLASSES[h]
  }

  lemma InRow(b: nat, buckets: nat, classes: nat, c: nat)
    requires b < buckets && c < classes
    ensures 0 <= b * classes + c < buckets * classes
  {
    assert (b + 1) * classes <= buckets * classes;
  }

  function Weight(weights: seq<seq<int8>>, buckets: nat, h: nat, b: nat, c: nat): int8
    requires WeightsFit(weights, buckets) && h < HEADS && b < buckets && c < HEAD_CLASSES[h]
  {
    InRow(b, buckets, HEAD_CLASSES[h], c);
    weights[h][b * HEAD_CLASSES[h] + c]
  }

  predicate InBuckets(idx: seq<nat>, buckets: nat) {
    forall k :: 0 <= k < |idx| ==> idx[k] < buckets
  }

  /** `W[h][idx].sum(axis=0)[c]`. */
  function HeadSum(weights: seq<seq<int8>>, buckets: nat, h: nat, idx: seq<nat>, c: nat): int
    requires WeightsFit(weights, buckets) && h < HEADS && c < HEAD_CLASSES[h] && InBuckets(idx, buckets)
  {
    if idx == [] then 0
    else HeadSum(weights, buckets, h, idx[..|idx| - 1], c) + Weight(weights, buckets, h, idx[|idx| - 1], c)
  }

  /** An accumulator of `m` grams is within 128 m of zero. */
  lemma {:induction false} HeadSumBound(weights: seq<seq<int8>>, buckets: nat, h: nat, idx: seq<nat>, c: nat)
    requires WeightsFit(weights, buckets) && h < HEADS && c < HEAD_CLASSES[h] && InBuckets(idx, buckets)
    ensures -128 * |idx| <= HeadSum(weights, buckets, h, idx, c) <= 127 * |idx|
  {
    if idx != [] {
      HeadSumBound(weights, buckets, h, idx[..|idx| - 1], c);
    }
  }

  // -------------------------------------------------------------------- operations

  function HashOpsBelow(length: nat, n: nat): nat
    requires 3 <= n
  {
    if n == 3 then 0 else HashOpsBelow(length, n - 1) + 2 * (n - 1) * GramCount(length, n - 1)
  }

  /** `ops_for`: the closed form of the work, from the folded length alone. */
  function OpsFor(length: nat): (ops: (nat, nat)) {
    var g3, g4, g5 := GramCount(length, 3), GramCount(length, 4), GramCount(length, 5);
    (2 * 3 * g3 + 2 * 4 * g4 + 2 * 5 * g5 + ALL_CLASSES * (g3 + g4 + g5), g3 + g4 + g5)
  }

  /** The closed form counts what the loops execute. */
  lemma OpsAreClosedForm(length: nat)
    ensures OpsFor(length) == (HashOpsBelow(length, 6) + ALL_CLASSES * GramsBelow(length, 6), GramsBelow(length, 6))
  {
    assert HashOpsBelow(length, 4) == 2 * 3 * GramCount(length, 3);
    assert HashOpsBelow(length, 5) == HashOpsBelow(length, 4) + 2 * 4 * GramCount(length, 4);
    assert GramsBelow(length, 4) == GramCount(length, 3);
    assert GramsBelow(length, 5) == GramsBelow(length, 4) + GramCount(length, 4);
  }

  /** `ops_for` of a message, computed from the characters the trainer folds, counts what the
      device executes over the bytes it folds. */
  lemma OpsForMessage(text: string)
    ensures var length := |Fold.FoldBytes(Encode(text))|;
            && OpsFor(|Fold.FoldText(text)|).0 == HashOpsBelow(length, 6) + ALL_CLASSES * GramsBelow(length, 6)
            && OpsFor(|Fold.FoldText(text)|).1 == GramsBelow(length, 6)
  {
    Fold.FoldedLengthsAgree(text);
    OpsAreClosedForm(|Fold.FoldText(text)|);
  }

  function ClassesBelow(h: nat): nat
    requires h <= HEADS
  {
    if h == 0 then 0 else ClassesBelow(h - 1) + HEAD_CLASSES[h - 1]
  }

  // ------------------------------------------------------------------------ device

  /** The accumulators hold the per-head sums over `idx`. */
  ghost predicate Holds(acc: array2<int32>, weights: seq<seq<int8>>, buckets: nat, idx: seq<nat>)
    requires acc.Length0 == HEADS && acc.Length1 == ROW && WeightsFit(weights, buckets) && InBuckets(idx, buckets)
    reads acc
  {
    forall h, c :: 0 <= h < HEADS && 0 <= c < HEAD_CLASSES[h] ==>
      acc[h, c] == HeadSum(weights, buckets, h, idx, c)
  }

  class Device {
    const buckets: nat
    const weights: seq<seq<int8>>
    var opsHash: nat
    var opsAcc: nat

    constructor (buckets: nat, weights: seq<seq<int8>>)
      requires WeightsFit(weights, buckets)
      ensures this.buckets == buckets && this.weights == weights
      ensures opsHash == 0 && opsAcc == 0
    {
      this.buckets, this.weights := buckets, weights;
      opsHash, opsAcc := 0, 0;
    }

    /** One inference over a folded message: every accumulator is the trainer's sum, every
        index is in bounds, no `int32` overflows and both counters match the closed form. */
    method Infer(s: seq<byte>, acc: array2<int32>) returns (ngrams: uint32)
      requires WeightsFit(weights, buckets) && buckets < TWO_32
      requires acc.Length0 == HEADS && acc.Length1 == ROW
      requires 128 * GramsBelow(|s|, 6) < 0x8000_0000
      modifies this, acc
      ensures ngrams == |Features(s, buckets)| == OpsFor(|s|).1
      ensures Holds(acc, weights, buckets, Features(s, buckets))
      ensures opsHash == old(opsHash) + HashOpsBelow(|s|, 6)
      ensures opsAcc == old(opsAcc) + ALL_CLASSES * ngrams
    {
      Clear(acc);
      ngrams := 0;
      ghost var idx: seq<nat> := [];
      for n := 3 to 6
        invariant idx == FeaturesBelow(s, n, buckets) && ngrams == |idx| == GramsBelow(|s|, n)
        invariant Holds(acc, weights, buckets, idx)
        invariant opsHash == old(opsHash) + HashOpsBelow(|s|, n)
        invariant opsAcc == old(opsAcc) + ALL_CLASSES * ngrams
      {
        if |s| < n {
          AppendNothing(idx);
          continue;
        }
        var count := AddGrams(s, n, acc, idx);
        ngrams := ngrams + count;
        idx := idx + Grams(s, n, count, buckets);
      }
      OpsAreClosedForm(|s|);
    }

    /** The n-grams of one length. */
    method AddGrams(s: seq<byte>, n: nat, acc: array2<int32>, ghost idx: seq<nat>) returns (count: uint32)
      requires WeightsFit(weights, buckets) && buckets < TWO_32
      requires acc.Length0 == HEADS && acc.Length1 == ROW
      requires 3 <= n <= |s| && InBuckets(idx, buckets) && 128 * (|idx| + GramCount(|s|, n)) < 0x8000_0000
      requires Holds(acc, weights, buckets, idx)
      modifies this, acc
      ensures count == GramCount(|s|, n)
      ensures InBuckets(idx + Grams(s, n, count, buckets), buckets)
      ensures Holds(acc, weights, buckets, idx + Grams(s, n, count, buckets))
      ensures opsHash == old(opsHash) + 2 * n * count
      ensures opsAcc == old(opsAcc) + ALL_CLASSES * count
    {
      count := 0;
      ghost var all := idx;
      AppendNothing(idx);
      while count + n <= |s|
        invariant count <= GramCount(|s|, n)
        invariant all == idx + Grams(s, n, count, buckets) && InBuckets(all, buckets)
        invariant Holds(acc, weights, buckets, all)
        invariant opsHash == old(opsHash) + 2 * n * count
        invariant opsAcc == old(opsAcc) + ALL_CLASSES * count
      {
        var b := HashGram(s[count..count + n]);
        AddRow(b, acc, all);
        ConcatAssociative(idx, Grams(s, n, count, buckets), [b]);
        all := all + [b];
        Distribute(2 * n, count);
        count := count + 1;
      }
    }

    method Clear(acc: array2<int32>)
      requires acc.Length0 == HEADS && acc.Length1 == ROW
      modifies acc
      ensures forall h, c :: 0 <= h < HEADS && 0 <= c < HEAD_CLASSES[h] ==> acc[h, c] == 0
    {
      for h := 0 to HEADS
        invariant forall g, c :: 0 <= g < h && 0 <= c < HEAD_CLASSES[g] ==> acc[g, c] == 0
      {
        for c := 0 to HEAD_CLASSES[h]
          invariant forall g, d :: 0 <= g < h && 0 <= d < HEAD_CLASSES[g] ==> acc[g, d] == 0
          invariant forall d :: 0 <= d < c ==> acc[h, d] == 0
        {
          acc[h, c] := 0;
        }
      }
    }

    method HashGram(gram: seq<byte>) returns (b: nat)
      requires 0 < buckets < TWO_32
      modifies this`opsHash
      ensures b == Bucket(gram, buckets)
      ensures opsHash == old(opsHash) + 2 * |gram|
    {
      var hash: uint32 := FNV_OFFSET;
      for k := 0 to |gram|
        invariant hash == Hash(gram[..k])
        invariant opsHash == old(opsHash) + 2 * k
      {
        assert gram[..k + 1][..k] == gram[..k];
        hash := HashStep(hash, gram[k]);
        opsHash := opsHash + 2;
      }
      assert gram[..|gram|] == gram;
      b := hash % buckets;
    }

    /** The whole model: one int8 add per class. */
    method AddRow(b: nat, acc: array2<int32>, ghost idx: seq<nat>)
      requires WeightsFit(weights, buckets) && b < buckets && InBuckets(idx, buckets)
      requires acc.Length0 == HEADS && acc.Length1 == ROW
      requires Holds(acc, weights, buckets, idx) && 128 * (|idx| + 1) < 0x8000_0000
      modifies acc, this`opsAcc
      ensures InBuckets(idx + [b], buckets) && Holds(acc, weights, buckets, idx + [b])
      ensures opsAcc == old(opsAcc) + ALL_CLASSES
    {
      assert InBuckets(idx + [b], buckets);
      for h := 0 to HEADS
        invariant forall g, c :: 0 <= g < h && 0 <= c < HEAD_CLASSES[g] ==>
          acc[g, c] == HeadSum(weights, buckets, g, idx + [b], c)
        invariant forall g, c :: h <= g < HEADS && 0 <= c < HEAD_CLASSES[g] ==>
          acc[g, c] == HeadSum(weights, buckets, g, idx, c)
        invariant opsAcc == old(opsAcc) + ClassesBelow(h)
      {
        AddHead(h, b, acc, idx);
      }
      assert ClassesBelow(6) == ClassesBelow(4) + 4 + 5 && ClassesBelow(4) == ClassesBelow(2) + 5 + 4;
      assert ClassesBelow(2) == 2 + 3;
    }

    method AddHead(h: nat, b: nat, acc: array2<int32>, ghost idx: seq<nat>)
      requires WeightsFit(weights, buckets) && h < HEADS && b < buckets && InBuckets(idx, buckets)
      requires acc.Length0 == HEADS && acc.Length1 == ROW && 128 * (|idx| + 1) < 0x8000_0000
      requires forall c :: 0 <= c < HEAD_CLASSES[h] ==> acc[h, c] == HeadSum(weights, buckets, h, idx, c)
      modifies acc, this`opsAcc
      ensures InBuckets(idx + [b], buckets)
      ensures forall c :: 0 <= c < HEAD_CLASSES[h] ==> acc[h, c] == HeadSum(weights, buckets, h, idx + [b], c)
      ensures forall g, c :: 0 <= g < HEADS && g != h && 0 <= c < ROW ==> acc[g, c] == old(acc[g, c])
      ensures opsAcc == old(opsAcc) + HEAD_CLASSES[h]
    {
      assert InBuckets(idx + [b], buckets);
      for c := 0 to HEAD_CLASSES[h]
        invariant forall d :: 0 <= d < c ==> acc[h, d] == HeadSum(weights, buckets, h, idx + [b], d)
        invariant forall d :: c <= d < HEAD_CLASSES[h] ==> acc[h, d] == HeadSum(weights, buckets, h, idx, d)
        invariant forall g, d :: 0 <= g < HEADS && g != h && 0 <= d < ROW ==> acc[g, d] == old(acc[g, d])
        invariant opsAcc == old(opsAcc) + c
      {
        InRow(b, buckets, HEAD_CLASSES[h], c);
        HeadSumBound(weights, buckets, h, idx, c);
        acc[h, c] := acc[h, c] + weights[h][b * HEAD_CLASSES[h] + c];
        opsAcc := opsAcc + 1;
      }
    }
  }

  lemma Distribute(a: nat, k: nat)
    ensures a * (k + 1) == a * k + a
  {}

  // ------------------------------------------------------------------------ argmax

  /** `best` is the first class with the greatest score: the tie rule of all three programs. */
  predicate IsFirstMax(scores: seq<int>, best: nat) {
    && best < |scores|
    && (forall c :: 0 <= c < |scores| ==> scores[c] <= scores[best])
    && (forall c :: 0 <= c < best ==> scores[c] < scores[best])
  }

  method FirstMax(scores: seq<int>) returns (best: nat)
    requires scores != []
    ensures IsFirstMax(scores, best)
  {
    best := 0;
    for c := 1 to |scores|
      invariant best < c
      invariant forall d :: 0 <= d < c ==> scores[d] <= scores[best]
      invariant forall d :: 0 <= d < best ==> scores[d] < scores[best]
    {
      if scores[c] > scores[best] {
        best := c;
      }
    }
  }

  lemma FirstMaxIsUnique(scores: seq<int>, a: nat, b: nat)
    requires IsFirstMax(scores, a) && IsFirstMax(scores, b)
    ensures a == b
  {
    assert scores[a] == scores[b];
  }

  function Scores(weights: seq<seq<int8>>, buckets: nat, h: nat, idx: seq<nat>): (scores: seq<int>)
    requires WeightsFit(weights, buckets) && h < HEADS && InBuckets(idx, buckets)
    ensures |scores| == HEAD_CLASSES[h]
    ensures forall c :: 0 <= c < |scores| ==> scores[c] == HeadSum(weights, buckets, h, idx, c)
  {
    seq(HEAD_CLASSES[h], c requires 0 <= c < HEAD_CLASSES[h] => HeadSum(weights, buckets, h, idx, c))
  }

  // -------------------------------------------------------------------- end to end

  /** Sent over the wire, unescaped, folded and hashed on the device, message `i` of a batch
      gives exactly the trainer's feature list: the check the three programs are run for. */
  lemma DeviceSeesTrainerFeatures(messages: seq<string>, i: nat, buckets: nat)
    requires 1 <= |messages| <= Transport.MAX_MESSAGES && i < |messages| && buckets > 0
    requires forall k :: 0 <= k < |messages| ==> Transport.Deliverable(messages[k])
    ensures var held := Transport.ReceiveAll(Transport.Wire(messages), Transport.MAX_MESSAGES);
            && |held| == |messages|
            && Features(Fold.FoldBytes(held[i]), buckets) == Features(Encode(Fold.FoldText(messages[i])), buckets)
  {
    Transport.BatchArrives(messages);
    Fold.FoldsAgree(messages[i]);
  }

  /** The device's main loop for one held message: fold, accumulate, pick a class per head. */
  method Classify(device: Device, message: seq<byte>) returns (best: seq<nat>)
    requires WeightsFit(device.weights, device.buckets) && device.buckets < TWO_32
    requires |message| < Transport.LINE_BUFFER
    modifies device
    ensures |best| == HEADS
    ensures forall h :: 0 <= h < HEADS ==>
      IsFirstMax(Scores(device.weights, device.buckets, h, Features(Fold.FoldBytes(message), device.buckets)), best[h])
    ensures (device.opsHash - old(device.opsHash)) + (device.opsAcc - old(device.opsAcc))
         == OpsFor(|Fold.FoldBytes(message)|).0
  {
    var folded := new byte[1024](_ => 0);
    var l := Fold.FoldInto(message, folded);
    var acc := new int32[HEADS, ROW]((_, _) => 0);
    ShortMessagesFit(l);
    var ngrams := device.Infer(folded[..l], acc);
    OpsAreClosedForm(l);
    best := PickAll(acc, device.weights, device.buckets, Features(Fold.FoldBytes(message), device.buckets));
  }

  method PickAll(acc: array2<int32>, ghost weights: seq<seq<int8>>, ghost buckets: nat, ghost idx: seq<nat>)
      returns (best: seq<nat>)
    requires acc.Length0 == HEADS && acc.Length1 == ROW
    requires WeightsFit(weights, buckets) && InBuckets(idx, buckets) && Holds(acc, weights, buckets, idx)
    ensures |best| == HEADS
    ensures forall h :: 0 <= h < HEADS ==> IsFirstMax(Scores(weights, buckets, h, idx), best[h])
  {
    best := [];
    for h := 0 to HEADS
      invariant |best| == h
      invariant forall g :: 0 <= g < h ==> IsFirstMax(Scores(weights, buckets, g, idx), best[g])
    {
      var scores := ReadScores(acc, h, weights, buckets, idx);
      var b := FirstMax(scores);
      best := best + [b];
    }
  }

  method ReadScores(acc: array2<int32>, h: nat, ghost weights: seq<seq<int8>>, ghost buckets: nat, ghost idx: seq<nat>)
      returns (scores: seq<int>)
    requires acc.Length0 == HEADS && acc.Length1 == ROW && h < HEADS
    requires WeightsFit(weights, buckets) && InBuckets(idx, buckets) && Holds(acc, weights, buckets, idx)
    ensures scores == Scores(weights, buckets, h, idx)
  {
    scores := [];
    for c := 0 to HEAD_CLASSES[h]
      invariant scores == Scores(weights, buckets, h, idx)[..c]
    {
      scores := scores + [acc[h, c]];
    }
  }

  lemma ShortMessagesFit(length: nat)
    requires length <= 1024
    ensures 128 * GramsBelow(length, 6) < 0x8000_0000
  {
    assert GramsBelow(length, 5) == GramsBelow(length, 4) + GramCount(length, 4);
    assert GramsBelow(length, 4) == GramCount(length, 3);
  }
}
