/** Machine arithmetic on non-negative integers.

    The bitwise operators work digit by digit, a shift is a division, and wrap-around is a
    remainder. Words are bounded integers: their arithmetic is that of the integers, reduced
    where the program's own arithmetic wraps.

    What the hash and the key mixer need of them stands at the end: a mask is a remainder, and a
    shift-xor and a multiplication by an odd constant can both be undone. */
module Bits {

  const TWO_32: nat := 0x1_0000_0000
  const TWO_64: nat := 0x1_0000_0000_0000_0000

  type uint32 = x: int | 0 <= x < 0x1_0000_0000
  type uint64 = x: int | 0 <= x < 0x1_0000_0000_0000_0000

  /** `a ^ b`. */
  function Xor(a: nat, b: nat): nat
    decreases a + b
  {
    if a == 0 && b == 0 then 0 else (a + b) % 2 + 2 * Xor(a / 2, b / 2)
  }

  /** `a & b`. */
  function And(a: nat, b: nat): nat {
    if a == 0 || b == 0 then 0 else (if a % 2 == 1 && b % 2 == 1 then 1 else 0) + 2 * And(a / 2, b / 2)
  }

  function Pow2(k: nat): (p: nat)
    ensures p >= 1
  {
    if k == 0 then 1 else 2 * Pow2(k - 1)
  }

  // ------------------------------------------------------------------- remainders

  lemma Widens(d: nat, k: nat)
    requires k >= 1
    ensures d * k >= d
  {}

  lemma UniqueRemainder(x: nat, d: nat, t: int, r: nat)
    requires d >= 1 && r < d && x == d * t + r
    ensures x % d == r && x / d == t
  {
    var q := x / d;
    assert d * q - d * t == r - x % d;
    if q > t {
      Widens(d, q - t);
    } else if q < t {
      Widens(d, t - q);
    }
  }

  lemma HalveModulo(x: nat, m: nat)
    requires m >= 1
    ensures x % (2 * m) == x % 2 + 2 * (x / 2 % m)
    ensures x / (2 * m) == x / 2 / m
  {
    var q := x / 2;
    var t, r := q / m, q % m;
    assert x == 2 * m * t + (2 * r + x % 2) by {
      assert q == m * t + r;
      assert x == 2 * q + x % 2;
    }
    UniqueRemainder(x, 2 * m, t, 2 * r + x % 2);
  }

  /** A mask of `k` ones is reduction modulo 2^k. */
  lemma {:induction false} MaskIsModulo(x: nat, k: nat)
    ensures And(x, Pow2(k) - 1) == x % Pow2(k)
    decreases k
  {
    if k > 0 {
      var m := Pow2(k - 1);
      HalveModulo(x, m);
      MaskIsModulo(x / 2, k - 1);
      assert (2 * m - 1) / 2 == m - 1 && (2 * m - 1) % 2 == 1;
    }
  }

  lemma PowersOfTwo()
    ensures Pow2(27) == 0x800_0000 && Pow2(30) == 0x4000_0000 && Pow2(31) == 0x8000_0000
    ensures Pow2(32) == TWO_32 && Pow2(64) == TWO_64
    ensures Pow2(81) >= TWO_64 && Pow2(90) >= TWO_64 && Pow2(93) >= TWO_64
  {
    assert Pow2(4) == 16 && Pow2(8) == 16 * Pow2(4) && Pow2(12) == 16 * Pow2(8) && Pow2(16) == 16 * Pow2(12);
    assert Pow2(20) == 16 * Pow2(16) && Pow2(24) == 16 * Pow2(20) && Pow2(28) == 16 * Pow2(24);
    AddPowers(32, 32);
    AddPowers(64, 17);
    AddPowers(64, 26);
    AddPowers(64, 29);
  }

  lemma {:induction false} AddPowers(a: nat, b: nat)
    ensures Pow2(a + b) == Pow2(a) * Pow2(b)
    ensures Pow2(a + b) >= Pow2(a)
  {
    if b > 0 {
      AddPowers(a, b - 1);
      assert a + b - 1 == a + (b - 1);
      DoubleProduct(Pow2(a), Pow2(b - 1));
    }
  }

  lemma DoubleProduct(p: nat, q: nat)
    ensures 2 * (p * q) == p * (2 * q)
  {}

  // ---------------------------------------------------------------- exclusive or

  lemma {:induction false} XorCommutes(a: nat, b: nat)
    ensures Xor(a, b) == Xor(b, a)
    decreases a + b
  {
    if a != 0 || b != 0 {
      XorCommutes(a / 2, b / 2);
    }
  }

  lemma {:induction false} XorZero(a: nat)
    ensures Xor(a, 0) == a
  {
    if a != 0 {
      XorZero(a / 2);
    }
  }

  lemma {:induction false} XorSelf(a: nat)
    ensures Xor(a, a) == 0
  {
    if a != 0 {
      XorSelf(a / 2);
    }
  }

  lemma {:induction false} XorAssociates(a: nat, b: nat, c: nat)
    ensures Xor(Xor(a, b), c) == Xor(a, Xor(b, c))
    decreases a + b + c
  {
    if a == 0 && b == 0 {
      XorCommutes(0, c);
      XorZero(c);
      XorCommutes(0, Xor(0, c));
    } else if b == 0 && c == 0 {
      XorZero(Xor(a, b));
      XorZero(a);
    } else {
      XorAssociates(a / 2, b / 2, c / 2);
      var ab, bc := Xor(a, b), Xor(b, c);
      XorDigits(a, b);
      XorDigits(b, c);
      XorDigits(ab, c);
      XorDigits(a, bc);
      Parity(a, b, c, ab, bc);
    }
  }

  lemma Parity(a: nat, b: nat, c: nat, ab: nat, bc: nat)
    requires ab % 2 == (a + b) % 2 && bc % 2 == (b + c) % 2
    ensures (ab + c) % 2 == (a + bc) % 2
  {
    SumParity(ab, c);
    SumParity(a, b);
    SumParity(b, c);
    SumParity(a, bc);
  }

  lemma SumParity(a: nat, b: nat)
    ensures (a + b) % 2 == if a % 2 == b % 2 then 0 else 1
  {}

  lemma Digit(v: nat, r: nat, x: nat)
    requires r < 2 && v == r + 2 * x
    ensures v % 2 == r && v / 2 == x
  {}

  lemma XorUnfolds(a: nat, b: nat)
    ensures Xor(a, b) == (a + b) % 2 + 2 * Xor(a / 2, b / 2)
  {
    assert Xor(0, 0) == 0;
  }

  lemma XorDigits(a: nat, b: nat)
    ensures Xor(a, b) == (a + b) % 2 + 2 * Xor(a / 2, b / 2)
    ensures Xor(a, b) % 2 == (a + b) % 2 && Xor(a, b) / 2 == Xor(a / 2, b / 2)
  {
    XorUnfolds(a, b);
    Digit(Xor(a, b), (a + b) % 2, Xor(a / 2, b / 2));
  }

  /** `(a ^ b) ^ b` is `a`. */
  lemma XorCancels(a: nat, b: nat)
    ensures Xor(Xor(a, b), b) == a
  {
    XorAssociates(a, b, b);
    XorSelf(b);
    XorZero(a);
  }

  lemma {:induction false} XorBound(a: nat, b: nat, k: nat)
    requires a < Pow2(k) && b < Pow2(k)
    ensures Xor(a, b) < Pow2(k)
    decreases k
  {
    if k > 0 {
      XorBound(a / 2, b / 2, k - 1);
      XorDigits(a, b);
    } else {
      XorDigits(a, b);
    }
  }

  lemma XorFits(a: uint64, b: uint64)
    ensures Xor(a, b) < TWO_64
  {
    PowersOfTwo();
    XorBound(a, b, 64);
  }

  function XorWord(a: uint64, b: uint64): uint64 {
    XorFits(a, b);
    Xor(a, b)
  }

  /** `x >> k`. */
  function Shift(x: nat, k: nat): (y: nat)
    ensures y <= x
  {
    if k == 0 then x else Shift(x / 2, k - 1)
  }

  lemma {:induction false} ShiftTwice(x: nat, j: nat, k: nat)
    ensures Shift(Shift(x, j), k) == Shift(x, j + k)
    decreases j
  {
    if j > 0 {
      ShiftTwice(x / 2, j - 1, k);
    }
  }

  lemma {:induction false} ShiftXor(a: nat, b: nat, k: nat)
    ensures Shift(Xor(a, b), k) == Xor(Shift(a, k), Shift(b, k))
    decreases k
  {
    if k > 0 {
      XorDigits(a, b);
      ShiftXor(a / 2, b / 2, k - 1);
    }
  }

  lemma {:induction false} ShiftOut(x: nat, k: nat)
    requires x < Pow2(k)
    ensures Shift(x, k) == 0
    decreases k
  {
    if k > 0 {
      ShiftOut(x / 2, k - 1);
    }
  }

  /** A shift is a division. */
  lemma {:induction false} ShiftIsDivision(x: nat, k: nat)
    ensures Shift(x, k) == x / Pow2(k)
    decreases k
  {
    if k > 0 {
      ShiftIsDivision(x / 2, k - 1);
      HalveModulo(x, Pow2(k - 1));
    }
  }

  /** An exclusive or sets the bits that exactly one of its parts sets. */
  lemma XorIsBitwise(a: nat, b: nat, k: nat)
    ensures Xor(a, b) / Pow2(k) % 2 == if a / Pow2(k) % 2 == b / Pow2(k) % 2 then 0 else 1
  {
    ShiftIsDivision(a, k);
    ShiftIsDivision(b, k);
    ShiftIsDivision(Xor(a, b), k);
    ShiftXor(a, b, k);
    XorDigits(Shift(a, k), Shift(b, k));
    SumParity(Shift(a, k), Shift(b, k));
  }

  /** `x ^ (x >> k)`. */
  function XorShift(x: nat, k: nat): nat {
    Xor(x, Shift(x, k))
  }

  /** `x ^ (x >> k) ^ (x >> 2k)`. */
  function UnxorShift(x: nat, k: nat): nat {
    Xor(Xor(x, Shift(x, k)), Shift(x, 2 * k))
  }

  /** Three shifts clear a word, so shifting once and shifting twice undo one another. */
  lemma XorShiftInverse(x: nat, k: nat)
    requires x < Pow2(3 * k)
    ensures UnxorShift(XorShift(x, k), k) == x
    ensures XorShift(UnxorShift(x, k), k) == x
  {
    var s1, s2 := Shift(x, k), Shift(x, 2 * k);
    ShiftTwice(x, k, k);
    ShiftTwice(x, 2 * k, k);
    ShiftTwice(x, k, 2 * k);
    ShiftOut(x, 3 * k);
    var y := Xor(x, s1);
    ShiftXor(x, s1, k);
    ShiftXor(x, s1, 2 * k);
    XorZero(s2);
    CancelPairs(x, s1, s2);
    var z := Xor(y, s2);
    ShiftXor(y, s2, k);
    XorZero(Xor(s1, s2));
    CancelTail(x, s1, s2);
  }

  /** (x ^ a) ^ (a ^ b) ^ b == x */
  lemma CancelPairs(x: nat, a: nat, b: nat)
    ensures Xor(Xor(Xor(x, a), Xor(a, b)), b) == x
  {
    XorAssociates(Xor(x, a), Xor(a, b), b);
    XorCancels(a, b);
    XorCancels(x, a);
  }

  /** (x ^ a ^ b) ^ (a ^ b) == x */
  lemma CancelTail(x: nat, a: nat, b: nat)
    ensures Xor(Xor(Xor(x, a), b), Xor(a, b)) == x
  {
    XorAssociates(x, a, b);
    XorCancels(x, Xor(a, b));
  }

  /** Multiplication by `c` that wraps at `m` is undone by its reciprocal `d`. */
  lemma WrappingReciprocal(x: nat, c: nat, d: nat, t: nat, m: nat)
    requires x < m && c * d == 1 + m * t
    ensures (x * c % m) * d % m == x
  {
    var q, r := x * c / m, x * c % m;
    assert x * c == m * q + r;
    calc {
      r * d;
      (x * c - m * q) * d;
      { Regroup(x * c, m * q, x, c, d); }
      x * (c * d) - m * q * d;
      x * (1 + m * t) - m * q * d;
      { Collect(x, t, q, d, m); }
      m * (x * t - q * d) + x;
    }
    UniqueRemainder(r * d, m, x * t - q * d, x);
  }

  lemma Regroup(xc: int, mq: int, x: int, c: int, d: int)
    requires xc == x * c
    ensures (xc - mq) * d == x * (c * d) - mq * d
  {}

  lemma Collect(x: int, t: int, q: int, d: int, m: int)
    ensures x * (1 + m * t) - m * q * d == m * (x * t - q * d) + x
  {}

  // ------------------------------------------------------------- the low bits of a word

  lemma LowDigits(a: nat, m: nat)
    requires m >= 1
    ensures (a % (2 * m)) % 2 == a % 2 && (a % (2 * m)) / 2 == a / 2 % m
  {
    HalveModulo(a, m);
    Digit(a % (2 * m), a % 2, a / 2 % m);
  }

  /** The low bits of an exclusive or are those of its parts. */
  lemma {:induction false} XorModulo(a: nat, b: nat, k: nat)
    ensures Xor(a, b) % Pow2(k) == Xor(a % Pow2(k), b % Pow2(k))
    decreases k
  {
    if k == 0 {
      XorZero(0);
    } else {
      XorModulo(a / 2, b / 2, k - 1);
      XorLowDigits(a, b, Pow2(k - 1));
    }
  }

  lemma XorLowDigits(a: nat, b: nat, m: nat)
    requires m >= 1 && Xor(a / 2, b / 2) % m == Xor(a / 2 % m, b / 2 % m)
    ensures Xor(a, b) % (2 * m) == Xor(a % (2 * m), b % (2 * m))
  {
    var x, y := a % (2 * m), b % (2 * m);
    LowDigits(a, m);
    LowDigits(b, m);
    XorDigits(a, b);
    XorUnfolds(x, y);
    HalveModulo(Xor(a, b), m);
    SumParity(a, b);
    SumParity(x, y);
  }

  /** Of a product only the low bits of a factor reach the low bits. */
  lemma ModuloProduct(x: nat, c: nat, m: nat)
    requires m >= 1
    ensures x * c % m == (x % m) * c % m
  {
    var q, r := x / m, x % m;
    Spread(m, q, r, c);
    var s := r * c;
    assert s == m * (s / m) + s % m;
    assert x * c == m * (q * c + s / m) + s % m by {
      Gather(m, q * c, s / m);
    }
    UniqueRemainder(x * c, m, q * c + s / m, s % m);
  }

  lemma Spread(m: int, q: int, r: int, c: int)
    ensures (m * q + r) * c == m * (q * c) + r * c
  {}

  lemma Gather(m: int, a: int, b: int)
    ensures m * (a + b) == m * a + m * b
  {}

  /** A remainder of a remainder, the second modulus dividing the first. */
  lemma ModuloTwice(x: nat, m: nat, f: nat)
    requires m >= 1 && f >= 1
    ensures m * f >= 1 && x % (m * f) % m == x % m
  {
    var n := m * f;
    assert n >= 1 by {
      Widens(m, f);
    }
    var q, r := x / n, x % n;
    assert x == n * q + r && r == m * (r / m) + r % m;
    Nested(m, f, q);
    Gather(m, f * q, r / m);
    UniqueRemainder(x, m, f * q + r / m, r % m);
  }

  lemma Nested(m: int, f: int, q: int)
    ensures (m * f) * q == m * (f * q)
  {}
}
