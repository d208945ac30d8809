/** What a feature says about the message: which bytes it depends on, and that it does. */
module ClassifierHash {
  import opened Bits
  import opened Utf8
  import opened Classifier

  /** The inverse of the prime modulo 2^32. */
  const FNV_RECIPROCAL: nat := 899433627

  // ----------------------------------------------------------------- one step of the hash

  /** Modulo a power of two the prime is invertible. */
  lemma PrimeIsInvertible(x: nat, y: nat, k: nat)
    requires k <= 32 && x < Pow2(k) && y < Pow2(k) && x * FNV_PRIME % Pow2(k) == y * FNV_PRIME % Pow2(k)
    ensures x == y
  {
    var m, t := Pow2(k), Pow2(32 - k) * 3513497;
    assert FNV_PRIME * FNV_RECIPROCAL == 1 + m * t by {
      PowersOfTwo();
      AddPowers(k, 32 - k);
      Nested(m, Pow2(32 - k), 3513497);
    }
    WrappingReciprocal(x, FNV_PRIME, FNV_RECIPROCAL, t, m);
    WrappingReciprocal(y, FNV_PRIME, FNV_RECIPROCAL, t, m);
  }

  /** The low bits of a step depend on the low bits of the state, and on the byte. */
  lemma StepModulo(h: uint32, b: byte, k: nat)
    requires 8 <= k <= 32
    ensures Xor(h % Pow2(k), b) < Pow2(k)
    ensures HashStep(h, b) % Pow2(k) == Xor(h % Pow2(k), b) * FNV_PRIME % Pow2(k)
  {
    var m, x := Pow2(k), Xor(h, b);
    ByteFits(b, k);
    XorModulo(h, b, k);
    XorBound(h % m, b, k);
    PowersOfTwo();
    AddPowers(k, 32 - k);
    ModuloTwice(x * FNV_PRIME, m, Pow2(32 - k));
    ModuloProduct(x, FNV_PRIME, m);
  }

  lemma ByteFits(b: byte, k: nat)
    requires k >= 8
    ensures b < Pow2(k) && b % Pow2(k) == b
  {
    assert Pow2(4) == 16 && Pow2(8) == 16 * Pow2(4);
    AddPowers(8, k - 8);
    assert 8 + (k - 8) == k;
    UniqueRemainder(b, Pow2(k), 0, b);
  }

  lemma XorTells(a: nat, b: nat, c: nat)
    ensures Xor(a, c) == Xor(b, c) ==> a == b
    ensures Xor(c, a) == Xor(c, b) ==> a == b
  {
    XorCancels(a, c);
    XorCancels(b, c);
    XorCommutes(c, a);
    XorCommutes(c, b);
  }

  /** A step forgets neither its state nor its byte, not even in its low bits. */
  lemma StepTells(g: uint32, h: uint32, a: byte, b: byte, k: nat)
    requires 8 <= k <= 32 && HashStep(g, a) % Pow2(k) == HashStep(h, b) % Pow2(k)
    ensures g % Pow2(k) == h % Pow2(k) <==> a == b
  {
    var m := Pow2(k);
    StepModulo(g, a, k);
    StepModulo(h, b, k);
    PrimeIsInvertible(Xor(g % m, a), Xor(h % m, b), k);
    XorTells(g % m, h % m, a);
    XorTells(a, b, g % m);
  }

  // ------------------------------------------------------------------------ whole grams

  /** The two differ at `q` and nowhere else. */
  predicate DifferAt(a: seq<byte>, b: seq<byte>, q: nat) {
    |a| == |b| && q < |a| && a[q] != b[q] && forall j :: 0 <= j < |a| && j != q ==> a[j] == b[j]
  }

  lemma {:induction false} OneByteChangesLowBits(a: seq<byte>, b: seq<byte>, q: nat, k: nat)
    requires DifferAt(a, b, q) && 8 <= k <= 32
    ensures Hash(a) % Pow2(k) != Hash(b) % Pow2(k)
    decreases |a|
  {
    var n := |a| - 1;
    if q == n {
      assert a[..n] == b[..n];
    } else {
      OneByteChangesLowBits(a[..n], b[..n], q, k);
    }
    if Hash(a) % Pow2(k) == Hash(b) % Pow2(k) {
      StepTells(Hash(a[..n]), Hash(b[..n]), a[n], b[n], k);
    }
  }

  /** One byte changed always changes the hash. */
  lemma OneByteChangesHash(a: seq<byte>, b: seq<byte>, q: nat)
    requires DifferAt(a, b, q)
    ensures Hash(a) != Hash(b)
  {
    OneByteChangesLowBits(a, b, q, 32);
  }

  /** A gram's bucket is its hash, less a multiple of the number of buckets. */
  lemma BucketIsHash(gram: seq<byte>, buckets: nat) returns (t: nat)
    requires buckets > 0
    ensures Hash(gram) == buckets * t + Bucket(gram, buckets) && Bucket(gram, buckets) < buckets
  {
    t := Hash(gram) / buckets;
  }

  /** With a power of two of buckets, at least one a byte, it always changes the bucket too. */
  lemma OneByteChangesBucket(a: seq<byte>, b: seq<byte>, q: nat, k: nat)
    requires DifferAt(a, b, q) && k >= 8
    ensures Bucket(a, Pow2(k)) != Bucket(b, Pow2(k))
  {
    if k <= 32 {
      OneByteChangesLowBits(a, b, q, k);
    } else {
      OneByteChangesHash(a, b, q);
      ManyBuckets(a, k);
      ManyBuckets(b, k);
    }
  }

  lemma ManyBuckets(gram: seq<byte>, k: nat)
    requires k > 32
    ensures Bucket(gram, Pow2(k)) == Hash(gram)
  {
    PowersOfTwo();
    AddPowers(32, k - 32);
    assert 32 + (k - 32) == k;
    UniqueRemainder(Hash(gram), Pow2(k), 0, Hash(gram));
  }

  // --------------------------------------------------------------------- whole messages

  lemma {:induction false} GramAt(s: seq<byte>, n: nat, count: nat, buckets: nat, i: nat)
    requires buckets > 0 && i < count <= GramCount(|s|, n)
    ensures i + n <= |s| && Grams(s, n, count, buckets)[i] == Bucket(s[i..i + n], buckets)
  {
    if i < count - 1 {
      GramAt(s, n, count - 1, buckets, i);
    }
  }

  /** Where gram `i` of length `n` stands in the feature list. */
  function Place(length: nat, n: nat, i: nat): nat
    requires 3 <= n
  {
    GramsBelow(length, n) + i
  }

  lemma {:induction false} FeatureBelowAt(s: seq<byte>, n: nat, top: nat, buckets: nat, i: nat)
    requires buckets > 0 && 3 <= n < top && i < GramCount(|s|, n)
    ensures i + n <= |s| && Place(|s|, n, i) < |FeaturesBelow(s, top, buckets)|
    ensures FeaturesBelow(s, top, buckets)[Place(|s|, n, i)] == Bucket(s[i..i + n], buckets)
    decreases top
  {
    FeatureCount(s, n, buckets);
    if n == top - 1 {
      GramAt(s, n, GramCount(|s|, n), buckets, i);
    } else {
      FeatureBelowAt(s, n, top - 1, buckets, i);
    }
  }

  /** The feature list holds, at its place, the bucket of every gram of three to five bytes. */
  lemma FeatureAt(s: seq<byte>, n: nat, buckets: nat, i: nat)
    requires buckets > 0 && 3 <= n <= 5 && i < GramCount(|s|, n)
    ensures i + n <= |s| && Place(|s|, n, i) < |Features(s, buckets)| == GramsBelow(|s|, 6)
    ensures Features(s, buckets)[Place(|s|, n, i)] == Bucket(s[i..i + n], buckets)
  {
    FeatureCount(s, 6, buckets);
    FeatureBelowAt(s, n, 6, buckets, i);
  }

  /** One byte of a folded message changed: exactly the features of the grams that hold it change. */
  lemma OneByteChangesItsFeatures(a: seq<byte>, b: seq<byte>, q: nat, k: nat, n: nat, i: nat)
    requires DifferAt(a, b, q) && k >= 8 && 3 <= n <= 5 && i < GramCount(|a|, n)
    ensures Place(|a|, n, i) < |Features(a, Pow2(k))| == |Features(b, Pow2(k))|
    ensures Features(a, Pow2(k))[Place(|a|, n, i)] != Features(b, Pow2(k))[Place(|a|, n, i)] <==> i <= q < i + n
  {
    FeatureAt(a, n, Pow2(k), i);
    FeatureAt(b, n, Pow2(k), i);
    var x, y := a[i..i + n], b[i..i + n];
    if i <= q < i + n {
      assert DifferAt(x, y, q - i);
      OneByteChangesBucket(x, y, q - i, k);
    } else {
      assert x == y;
    }
  }
}
