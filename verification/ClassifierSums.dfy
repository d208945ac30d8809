/** What a head's sum means: rows of a table, added up in any order. */
module ClassifierSums {
  import opened Text
  import opened Classifier

  // ---------------------------------------------------------------------------- layout

  lemma {:induction false} RowAt(rows: seq<seq<int8>>, classes: nat, b: nat, c: nat)
    requires b < |rows| && c < classes && forall i :: 0 <= i < |rows| ==> |rows[i]| == classes
    ensures 0 <= b * classes + c < |Flatten(rows)| == |rows| * classes
    ensures Flatten(rows)[b * classes + c] == rows[b][c]
    decreases |rows|
  {
    FlattenedLength(rows, classes);
    FlattenedLength(rows[1..], classes);
    InRow(b, |rows|, classes, c);
    if b > 0 {
      RowAt(rows[1..], classes, b - 1, c);
      NextRow(b, classes, c);
    }
  }

  lemma {:induction false} FlattenedLength(rows: seq<seq<int8>>, classes: nat)
    requires forall i :: 0 <= i < |rows| ==> |rows[i]| == classes
    ensures |Flatten(rows)| == |rows| * classes
  {
    if rows != [] {
      FlattenedLength(rows[1..], classes);
      NextRow(|rows|, classes, 0);
    }
  }

  lemma NextRow(b: nat, classes: nat, c: nat)
    requires b > 0
    ensures b * classes + c == classes + ((b - 1) * classes + c)
  {}

  /** The weights of a head are its table, row after row: bucket `b` owns row `b`. */
  lemma WeightsAreRows(weights: seq<seq<int8>>, buckets: nat, h: nat, rows: seq<seq<int8>>, b: nat, c: nat)
    requires WeightsFit(weights, buckets) && h < HEADS && b < buckets && c < HEAD_CLASSES[h]
    requires |rows| == buckets && forall i :: 0 <= i < |rows| ==> |rows[i]| == HEAD_CLASSES[h]
    requires weights[h] == Flatten(rows)
    ensures Weight(weights, buckets, h, b, c) == rows[b][c]
  {
    RowAt(rows, HEAD_CLASSES[h], b, c);
  }

  // ------------------------------------------------------------------------------ sums

  lemma {:induction false} HeadSumConcat(
      weights: seq<seq<int8>>, buckets: nat, h: nat, c: nat, x: seq<nat>, y: seq<nat>)
    requires WeightsFit(weights, buckets) && h < HEADS && c < HEAD_CLASSES[h]
    requires InBuckets(x, buckets) && InBuckets(y, buckets)
    ensures InBuckets(x + y, buckets)
    ensures HeadSum(weights, buckets, h, x + y, c)
         == HeadSum(weights, buckets, h, x, c) + HeadSum(weights, buckets, h, y, c)
    decreases |y|
  {
    if y == [] {
      assert x + y == x;
    } else {
      HeadSumConcat(weights, buckets, h, c, x, y[..|y| - 1]);
      assert (x + y)[..|x + y| - 1] == x + y[..|y| - 1];
    }
  }

  /** One gram's sum is its bucket's row. */
  lemma OneGram(weights: seq<seq<int8>>, buckets: nat, h: nat, b: nat, c: nat)
    requires WeightsFit(weights, buckets) && h < HEADS && c < HEAD_CLASSES[h] && b < buckets
    ensures InBuckets([b], buckets) && HeadSum(weights, buckets, h, [b], c) == Weight(weights, buckets, h, b, c)
  {
    assert [b][..0] == [];
  }

  lemma TakeOut<T>(x: seq<T>, b: T) returns (before: seq<T>, after: seq<T>)
    requires b in x
    ensures x == before + [b] + after && multiset(before + after) == multiset(x) - multiset{b}
  {
    var i :| 0 <= i < |x| && x[i] == b;
    before, after := x[..i], x[i + 1..];
    assert x == before + [b] + after;
  }

  lemma PartsInBuckets(before: seq<nat>, b: nat, after: seq<nat>, buckets: nat)
    requires InBuckets(before + [b] + after, buckets)
    ensures InBuckets(before, buckets) && InBuckets(after, buckets) && b < buckets
    ensures InBuckets(before + after, buckets)
  {
    var all := before + [b] + after;
    assert all[|before|] == b;
    assert forall k :: 0 <= k < |before| ==> all[k] == before[k];
    assert forall k :: 0 <= k < |after| ==> all[|before| + 1 + k] == after[k];
  }

  /** The order of the grams does not matter: messages with the same grams get the same scores. */
  lemma {:induction false} HeadSumForgetsOrder(
      weights: seq<seq<int8>>, buckets: nat, h: nat, c: nat, x: seq<nat>, y: seq<nat>)
    requires WeightsFit(weights, buckets) && h < HEADS && c < HEAD_CLASSES[h]
    requires InBuckets(x, buckets) && InBuckets(y, buckets) && multiset(x) == multiset(y)
    ensures HeadSum(weights, buckets, h, x, c) == HeadSum(weights, buckets, h, y, c)
    decreases |x|
  {
    if x == [] {
      assert |multiset(y)| == 0;
    } else {
      var rest, b := x[..|x| - 1], x[|x| - 1];
      assert x == rest + [b];
      assert b in multiset(x);
      var before, after := TakeOut(y, b);
      PartsInBuckets(before, b, after, buckets);
      HeadSumForgetsOrder(weights, buckets, h, c, rest, before + after);
      SumWithOne(weights, buckets, h, c, before, b, after);
    }
  }

  lemma SumWithOne(
      weights: seq<seq<int8>>, buckets: nat, h: nat, c: nat, before: seq<nat>, b: nat, after: seq<nat>)
    requires WeightsFit(weights, buckets) && h < HEADS && c < HEAD_CLASSES[h]
    requires InBuckets(before, buckets) && InBuckets(after, buckets) && b < buckets
    ensures InBuckets(before + [b] + after, buckets) && InBuckets(before + after, buckets)
    ensures HeadSum(weights, buckets, h, before + [b] + after, c)
         == HeadSum(weights, buckets, h, before + after, c) + Weight(weights, buckets, h, b, c)
  {
    HeadSumConcat(weights, buckets, h, c, before, after);
    HeadSumConcat(weights, buckets, h, c, before, [b]);
    HeadSumConcat(weights, buckets, h, c, before + [b], after);
    OneGram(weights, buckets, h, b, c);
  }
}
