/** The key made when the operating system's pool cannot be read.

    Six source words are chained through SplitMix64's finaliser and printed as 64 hexadecimal
    digits. The finaliser is a bijection, so each source alone, the others fixed, decides the
    first word one to one. */
module FallbackKey {
  import opened Text
  import opened Bits

  type uint128 = x: int | 0 <= x < 0x1_0000_0000_0000_0000_0000_0000_0000_0000

  const SEED: uint64 := 0x243F_6A88_85A3_08D3
  const WORDS: nat := 4

  // ------------------------------------------------------------------------- mixer

  const FIRST_MULTIPLIER: uint64 := 0xBF58_476D_1CE4_E5B9
  const SECOND_MULTIPLIER: uint64 := 0x94D0_49BB_1331_11EB
  const FIRST_RECIPROCAL: uint64 := 0x96DE_1B17_3F11_9089
  const SECOND_RECIPROCAL: uint64 := 0x3196_42B2_D24D_8EC3

  function WrappingMul(x: uint64, c: uint64): uint64 {
    x * c % TWO_64
  }

  /** SplitMix64's finaliser. */
  function Mix(x: uint64): uint64 {
    var a := XorShiftWord(x, 30);
    var b := XorShiftWord(WrappingMul(a, FIRST_MULTIPLIER), 27);
    XorShiftWord(WrappingMul(b, SECOND_MULTIPLIER), 31)
  }

  /** Its inverse: each shift undone by repeating it, each multiplier by its reciprocal. */
  function Unmix(y: uint64): uint64 {
    var b := WrappingMul(UnxorShiftWord(y, 31), SECOND_RECIPROCAL);
    var a := WrappingMul(UnxorShiftWord(b, 27), FIRST_RECIPROCAL);
    UnxorShiftWord(a, 30)
  }

  function XorShiftWord(x: uint64, k: nat): uint64 {
    XorWord(x, Shift(x, k))
  }

  function UnxorShiftWord(x: uint64, k: nat): uint64 {
    XorWord(XorWord(x, Shift(x, k)), Shift(x, 2 * k))
  }

  lemma ShiftsInvert(x: uint64, k: nat)
    requires k == 27 || k == 30 || k == 31
    ensures UnxorShiftWord(XorShiftWord(x, k), k) == x && XorShiftWord(UnxorShiftWord(x, k), k) == x
  {
    PowersOfTwo();
    XorShiftInverse(x, k);
  }

  lemma MultipliersInvert(x: uint64)
    ensures WrappingMul(WrappingMul(x, FIRST_MULTIPLIER), FIRST_RECIPROCAL) == x
    ensures WrappingMul(WrappingMul(x, FIRST_RECIPROCAL), FIRST_MULTIPLIER) == x
    ensures WrappingMul(WrappingMul(x, SECOND_MULTIPLIER), SECOND_RECIPROCAL) == x
    ensures WrappingMul(WrappingMul(x, SECOND_RECIPROCAL), SECOND_MULTIPLIER) == x
  {
    WrappingReciprocal(x, FIRST_MULTIPLIER, FIRST_RECIPROCAL, 0x70C3_BCA7_8F27_F46C, TWO_64);
    WrappingReciprocal(x, FIRST_RECIPROCAL, FIRST_MULTIPLIER, 0x70C3_BCA7_8F27_F46C, TWO_64);
    WrappingReciprocal(x, SECOND_MULTIPLIER, SECOND_RECIPROCAL, 0x1CD3_36ED_A85F_1453, TWO_64);
    WrappingReciprocal(x, SECOND_RECIPROCAL, SECOND_MULTIPLIER, 0x1CD3_36ED_A85F_1453, TWO_64);
  }

  /** The finaliser is a bijection on 64-bit words. */
  lemma MixIsBijection(x: uint64)
    ensures Unmix(Mix(x)) == x && Mix(Unmix(x)) == x
  {
    UnmixMix(x);
    MixUnmix(x);
  }

  lemma UnmixMix(x: uint64)
    ensures Unmix(Mix(x)) == x
  {
    var a := XorShiftWord(x, 30);
    var b := WrappingMul(a, FIRST_MULTIPLIER);
    var c := XorShiftWord(b, 27);
    var d := WrappingMul(c, SECOND_MULTIPLIER);
    ShiftsInvert(d, 31);
    MultipliersInvert(c);
    ShiftsInvert(b, 27);
    MultipliersInvert(a);
    ShiftsInvert(x, 30);
  }

  lemma MixUnmix(y: uint64)
    ensures Mix(Unmix(y)) == y
  {
    var d := UnxorShiftWord(y, 31);
    var c := WrappingMul(d, SECOND_RECIPROCAL);
    var b := UnxorShiftWord(c, 27);
    var a := WrappingMul(b, FIRST_RECIPROCAL);
    ShiftsInvert(a, 30);
    MultipliersInvert(b);
    ShiftsInvert(c, 27);
    MultipliersInvert(d);
    ShiftsInvert(y, 31);
  }

  // ------------------------------------------------------------------------- chain

  /** One source word enters the state. */
  function Round(state: uint64, source: uint64): uint64 {
    Mix(XorWord(state, source))
  }

  function Absorb(state: uint64, sources: seq<uint64>): uint64
    decreases sources
  {
    if sources == [] then state else Absorb(Round(state, sources[0]), sources[1..])
  }

  function WordsFrom(state: uint64, sources: seq<uint64>, n: nat): (words: seq<uint64>)
    ensures |words| == n
    decreases n
  {
    if n == 0 then []
    else [Absorb(state, sources)] + WordsFrom(Absorb(state, sources), sources, n - 1)
  }

  /** The source that takes `state` to `word` in one round. */
  function RoundSource(state: uint64, word: uint64): uint64 {
    XorWord(Unmix(word), state)
  }

  /** In one round the state and the source are each worth exactly one word. */
  lemma RoundIsBijection(state: uint64, source: uint64, word: uint64)
    ensures Round(state, source) == word <==> source == RoundSource(state, word)
    ensures Round(state, source) == word <==> state == RoundSource(source, word)
  {
    var mixed, unmixed := XorWord(state, source), Unmix(word);
    MixIsBijection(mixed);
    MixIsBijection(word);
    XorSolves(state, source, unmixed);
  }

  lemma XorSolves(a: uint64, b: uint64, c: uint64)
    ensures XorWord(a, b) == c <==> b == XorWord(c, a)
    ensures XorWord(a, b) == c <==> a == XorWord(c, b)
  {
    XorCommutes(a, b);
    XorCancels(a, b);
    XorCancels(b, a);
    XorCancels(c, a);
    XorCancels(c, b);
    XorCommutes(XorWord(c, a), a);
    XorCommutes(XorWord(c, b), b);
  }

  /** The state that `sources` turn into `word`. */
  function Unabsorb(word: uint64, sources: seq<uint64>): uint64
    decreases sources
  {
    if sources == [] then word else RoundSource(sources[0], Unabsorb(word, sources[1..]))
  }

  lemma {:induction false} AbsorbIsBijection(state: uint64, sources: seq<uint64>, word: uint64)
    ensures Absorb(state, sources) == word <==> state == Unabsorb(word, sources)
    decreases sources
  {
    if sources != [] {
      AbsorbIsBijection(Round(state, sources[0]), sources[1..], word);
      RoundIsBijection(state, sources[0], Unabsorb(word, sources[1..]));
    }
  }

  lemma {:induction false} AbsorbConcat(state: uint64, a: seq<uint64>, b: seq<uint64>)
    ensures Absorb(state, a + b) == Absorb(Absorb(state, a), b)
    decreases a
  {
    if a == [] {
      assert a + b == b;
    } else {
      assert (a + b)[1..] == a[1..] + b;
      AbsorbConcat(Round(state, a[0]), a[1..], b);
    }
  }

  /** The first word of the key, as a function of source `i` alone. */
  function FirstWord(sources: seq<uint64>, i: nat, v: uint64): uint64
    requires i < |sources|
  {
    Absorb(SEED, sources[i := v])
  }

  lemma SolveSource(sources: seq<uint64>, i: nat, v: uint64, word: uint64)
    requires i < |sources|
    ensures FirstWord(sources, i, v) == word
       <==> v == RoundSource(Absorb(SEED, sources[..i]), Unabsorb(word, sources[i + 1..]))
  {
    var before, after := Absorb(SEED, sources[..i]), sources[i + 1..];
    assert sources[i := v] == sources[..i] + ([v] + after);
    AbsorbConcat(SEED, sources[..i], [v] + after);
    assert ([v] + after)[1..] == after;
    AbsorbIsBijection(Round(before, v), after, word);
    RoundIsBijection(before, v, Unabsorb(word, after));
  }

  /** With the other five sources fixed, each one is worth exactly one first word: every
      word is reached, and by no second value. */
  lemma SourceIsBijection(sources: seq<uint64>, i: nat, word: uint64)
    requires i < |sources|
    ensures exists v: uint64 :: FirstWord(sources, i, v) == word
    ensures forall u: uint64, v: uint64 ::
              FirstWord(sources, i, u) == word && FirstWord(sources, i, v) == word ==> u == v
  {
    var solution := RoundSource(Absorb(SEED, sources[..i]), Unabsorb(word, sources[i + 1..]));
    forall v: uint64
      ensures FirstWord(sources, i, v) == word <==> v == solution
    {
      SolveSource(sources, i, v, word);
    }
    assert FirstWord(sources, i, solution) == word;
  }

  // --------------------------------------------------------------------- hex digits

  predicate IsHexDigit(c: char) {
    '0' <= c <= '9' || 'a' <= c <= 'f'
  }

  function HexDigit(n: nat): (c: char)
    requires n < 16
    ensures IsHexDigit(c)
  {
    if n < 10 then ('0' as int + n) as char else ('a' as int + n - 10) as char
  }

  function HexValue(c: char): nat
    requires IsHexDigit(c)
  {
    if c <= '9' then c as int - '0' as int else c as int - 'a' as int + 10
  }

  /** The low `n` hexadecimal digits of a word, zero-padded. */
  function Hex(w: nat, n: nat): (s: string)
    ensures |s| == n && forall i :: 0 <= i < n ==> IsHexDigit(s[i])
    decreases n
  {
    if n == 0 then "" else Hex(w / 16, n - 1) + [HexDigit(w % 16)]
  }

  function Unhex(s: string): nat
    requires forall i :: 0 <= i < |s| ==> IsHexDigit(s[i])
  {
    if s == "" then 0 else 16 * Unhex(s[..|s| - 1]) + HexValue(s[|s| - 1])
  }

  function Pow16(n: nat): nat {
    if n == 0 then 1 else 16 * Pow16(n - 1)
  }

  lemma {:induction false} UnhexHex(w: nat, n: nat)
    requires w < Pow16(n)
    ensures Unhex(Hex(w, n)) == w
    decreases n
  {
    if n > 0 {
      UnhexHex(w / 16, n - 1);
      assert Hex(w, n)[..n - 1] == Hex(w / 16, n - 1);
    }
  }

  /** Sixteen digits say everything about a word. */
  lemma WordFromHex(w: uint64)
    ensures Unhex(Hex(w, 16)) == w
  {
    assert Pow16(4) == 0x1_0000 && Pow16(8) == 0x1_0000 * Pow16(4);
    assert Pow16(12) == 0x1_0000 * Pow16(8) && Pow16(16) == 0x1_0000 * Pow16(12);
    UnhexHex(w, 16);
  }

  // --------------------------------------------------------------------------- key

  function HexAll(words: seq<uint64>): (s: string)
    ensures |s| == 16 * |words| && forall i :: 0 <= i < |s| ==> IsHexDigit(s[i])
  {
    if words == [] then "" else Hex(words[0], 16) + HexAll(words[1..])
  }

  /** What the program mixes: the halves of the clock, the low halves of the rest, and the
      address of a static. */
  function Sources(now: uint128, pid: uint128, stack: uint128, heap: uint128, anchor: uint64): (sources: seq<uint64>)
    ensures |sources| == 6
  {
    [now % TWO_64, now / TWO_64, pid % TWO_64, stack % TWO_64, heap % TWO_64, anchor]
  }

  function Key(sources: seq<uint64>): string {
    HexAll(WordsFrom(SEED, sources, WORDS))
  }

  /** The program's nested loops. */
  method MakeKey(now: uint128, pid: uint128, stack: uint128, heap: uint128, anchor: uint64) returns (key: string)
    ensures key == Key(Sources(now, pid, stack, heap, anchor))
    ensures |key| == 64 && forall i :: 0 <= i < 64 ==> IsHexDigit(key[i])
  {
    var sources := Sources(now, pid, stack, heap, anchor);
    var words := MixWords(sources);
    key := "";
    for k := 0 to WORDS
      invariant words[..] == WordsFrom(SEED, sources, WORDS)
      invariant key + HexAll(words[k..]) == Key(sources)
    {
      assert words[k..][1..] == words[k + 1..];
      ConcatAssociative(key, Hex(words[k], 16), HexAll(words[k + 1..]));
      key := key + Hex(words[k], 16);
    }
    assert key + "" == key;
  }

  method MixWords(sources: seq<uint64>) returns (words: array<uint64>)
    ensures fresh(words) && words[..] == WordsFrom(SEED, sources, WORDS)
  {
    var state := SEED;
    words := new uint64[WORDS](_ => 0);
    for k := 0 to WORDS
      invariant words[..k] + WordsFrom(state, sources, WORDS - k) == WordsFrom(SEED, sources, WORDS)
    {
      ghost var before, done := state, words[..k];
      for i := 0 to |sources|
        invariant Absorb(state, sources[i..]) == Absorb(before, sources)
        invariant words[..k] == done
      {
        assert sources[i..][1..] == sources[i + 1..];
        state := Round(state, sources[i]);
      }
      words[k] := state;
      assert words[..k + 1] == done + [state];
      ConcatAssociative(done, [state], WordsFrom(state, sources, WORDS - k - 1));
    }
    assert words[..] == words[..WORDS] + [];
  }

  /** With five sources fixed, two values of the sixth give the same key only if they are the
      same value: the keys differ in their first sixteen digits already. */
  lemma OneSourceChangesKey(sources: seq<uint64>, i: nat, v: uint64)
    requires i < |sources|
    ensures Key(sources[i := v]) == Key(sources) <==> v == sources[i]
    ensures v != sources[i] ==> Key(sources[i := v])[..16] != Key(sources)[..16]
  {
    assert sources[i := sources[i]] == sources;
    KeyStartsWithFirstWord(sources);
    KeyStartsWithFirstWord(sources[i := v]);
    SourceIsBijection(sources, i, FirstWord(sources, i, v));
    WordFromHex(FirstWord(sources, i, v));
    WordFromHex(FirstWord(sources, i, sources[i]));
  }

  lemma KeyStartsWithFirstWord(sources: seq<uint64>)
    ensures |Key(sources)| == 64 && Key(sources)[..16] == Hex(Absorb(SEED, sources), 16)
  {
    var words := WordsFrom(SEED, sources, WORDS);
    assert words[0] == Absorb(SEED, sources);
  }

  /** The printed words can be read back, so distinct words never share a key. */
  lemma {:induction false} HexAllIsInjective(a: seq<uint64>, b: seq<uint64>)
    requires HexAll(a) == HexAll(b)
    ensures a == b
    decreases a
  {
    if a != [] && b != [] {
      FirstFromHex(a, b);
      HexAllIsInjective(a[1..], b[1..]);
      SameParts(a, b);
    }
  }

  lemma FirstFromHex(a: seq<uint64>, b: seq<uint64>)
    requires a != [] && b != [] && HexAll(a) == HexAll(b)
    ensures a[0] == b[0] && HexAll(a[1..]) == HexAll(b[1..])
  {
    HexAllParts(a);
    HexAllParts(b);
    WordFromHex(a[0]);
    WordFromHex(b[0]);
  }

  lemma SameParts(a: seq<uint64>, b: seq<uint64>)
    requires a != [] && b != [] && a[0] == b[0] && a[1..] == b[1..]
    ensures a == b
  {
    assert a == [a[0]] + a[1..] && b == [b[0]] + b[1..];
  }

  lemma HexAllParts(words: seq<uint64>)
    requires words != []
    ensures HexAll(words)[..16] == Hex(words[0], 16) && HexAll(words)[16..] == HexAll(words[1..])
  {}

  // --------------------------------------------------------------- the program's readings

  /** What the program reads before it makes the key. */
  datatype Readings = Readings(now: uint128, pid: uint128, stack: uint128, heap: uint128, anchor: uint64)

  function KeyOf(r: Readings): (key: string)
    ensures |key| == 64
  {
    KeyStartsWithFirstWord(Sources(r.now, r.pid, r.stack, r.heap, r.anchor));
    Key(Sources(r.now, r.pid, r.stack, r.heap, r.anchor))
  }

  /** Both readings give the same word at place `i`: the halves of the clock, the low halves of
      the process number and of two addresses, and a third address. */
  predicate Agree(a: Readings, b: Readings, i: nat)
    requires i < 6
  {
    match i
    case 0 => a.now % TWO_64 == b.now % TWO_64
    case 1 => a.now / TWO_64 == b.now / TWO_64
    case 2 => a.pid % TWO_64 == b.pid % TWO_64
    case 3 => a.stack % TWO_64 == b.stack % TWO_64
    case 4 => a.heap % TWO_64 == b.heap % TWO_64
    case 5 => a.anchor == b.anchor
  }

  /** Two installations that differ in one word of what they read differ in their keys, in the
      first sixteen digits already; those that differ in none have the same key. */
  lemma OneReadingChangesKey(a: Readings, b: Readings, i: nat)
    requires i < 6 && forall j :: 0 <= j < 6 && j != i ==> Agree(a, b, j)
    ensures KeyOf(a) == KeyOf(b) <==> Agree(a, b, i)
    ensures !Agree(a, b, i) ==> KeyOf(a)[..16] != KeyOf(b)[..16]
  {
    var x := Sources(a.now, a.pid, a.stack, a.heap, a.anchor);
    var y := Sources(b.now, b.pid, b.stack, b.heap, b.anchor);
    forall j | 0 <= j < 6
      ensures Agree(a, b, j) <==> x[j] == y[j]
    {
      SourceWords(a, b, j);
    }
    assert y == x[i := y[i]];
    OneSourceChangesKey(x, i, y[i]);
  }

  lemma SourceWords(a: Readings, b: Readings, j: nat)
    requires j < 6
    ensures Agree(a, b, j) <==> Sources(a.now, a.pid, a.stack, a.heap, a.anchor)[j]
                                == Sources(b.now, b.pid, b.stack, b.heap, b.anchor)[j]
  {}

  // --------------------------------------------------------------------- the four words

  function Repeated(sources: seq<uint64>, k: nat): seq<uint64> {
    if k == 0 then [] else sources + Repeated(sources, k - 1)
  }

  /** Word `k` is what the sources come to, absorbed `k + 1` times over from the seed: no word
      starts afresh, and none is skipped. */
  lemma {:induction false} WordsGoOn(state: uint64, sources: seq<uint64>, n: nat, k: nat)
    requires k < n
    ensures WordsFrom(state, sources, n)[k] == Absorb(state, Repeated(sources, k + 1))
    decreases k
  {
    AbsorbConcat(state, sources, Repeated(sources, k));
    if k > 0 {
      WordsGoOn(Absorb(state, sources), sources, n - 1, k - 1);
    }
  }
}
