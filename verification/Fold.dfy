/** The two folds of the slot classifier: the device's, over bytes, and the trainer's, over
    characters. They must hash the same n-grams, so they must agree on every message. */
module Fold {
  import opened Text
  import opened Utf8

  const SPACE: byte := 0x20

  /** The ten whitespace bytes: the six of C and the four ASCII separators. */
  predicate IsSpace(m: byte) {
    m == 0x20 || 0x09 <= m <= 0x0D || 0x1C <= m <= 0x1F
  }

  // ----------------------------------------------------------------- device, bytes

  function Lower(c: byte): byte {
    if 'A' as int <= c <= 'Z' as int then c + 32 else c
  }

  /** A sequence's length, read off its lead byte. */
  function SequenceLength(c: byte): (n: nat)
    ensures 1 <= n <= 4
  {
    if c >= 0xF0 then 4 else if c >= 0xE0 then 3 else if c >= 0xC0 then 2 else 1
  }

  /** The Turkish letters, keyed by their two bytes; 0 for anything else. */
  function TwoBytes(c: byte, d: byte): byte {
    var w := c * 256 + d;
    if w == 0xC4B1 || w == 0xC4B0 then 'i' as int
    else if w == 0xC49F || w == 0xC49E then 'g' as int
    else if w == 0xC3BC || w == 0xC39C then 'u' as int
    else if w == 0xC59F || w == 0xC59E then 's' as int
    else if w == 0xC3B6 || w == 0xC396 then 'o' as int
    else if w == 0xC3A7 || w == 0xC387 then 'c' as int
    else if w == 0xC3A2 || w == 0xC382 then 'a' as int
    else if w == 0xC3AE || w == 0xC38E then 'i' as int
    else 0
  }

  function Tail(space: bool): seq<byte> {
    if space then [] else [SPACE]
  }

  /** What is written for `input` after a byte that was (`space`) or was not a space. */
  function FoldFrom(input: seq<byte>, space: bool): seq<byte>
    decreases |input|, 0
  {
    if input == [] then Tail(space)
    else if input[0] < 0x80 then Emit(Lower(input[0]), input[1..], space)
    else
      var n := SequenceLength(input[0]);
      if n > |input| then Tail(space)
      else if n != 2 then FoldFrom(input[n..], space)
      else
        var m := TwoBytes(input[0], input[1]);
        if m == 0 then FoldFrom(input[2..], space) else Emit(m, input[2..], space)
  }

  function Emit(m: byte, rest: seq<byte>, space: bool): seq<byte>
    decreases |rest|, 1
  {
    if IsSpace(m) then (if space then [] else [SPACE]) + FoldFrom(rest, true)
    else [m] + FoldFrom(rest, false)
  }

  /** The device's fold. */
  function FoldBytes(input: seq<byte>): seq<byte> {
    [SPACE] + FoldFrom(input, true)
  }

  /** The device's loop, writing into the caller's buffer. */
  method FoldInto(input: seq<byte>, out: array<byte>) returns (j: nat)
    requires out.Length >= |input| + 2
    modifies out
    ensures j <= |input| + 2
    ensures out[..j] == FoldBytes(input)
    ensures forall k :: j <= k < out.Length ==> out[k] == old(out[k])
  {
    out[0] := SPACE;
    j := 1;
    var space := true;
    var i := 0;
    while i < |input|
      invariant 0 <= i <= |input| && 1 <= j <= i + 1
      invariant space <==> out[j - 1] == SPACE
      invariant out[..j] + FoldFrom(input[i..], space) == FoldBytes(input)
      invariant forall k :: j <= k < out.Length ==> out[k] == old(out[k])
    {
      ghost var rest := input[i..];
      var c := input[i];
      var m: byte := 0;
      if c < 0x80 {
        m := if 'A' as int <= c <= 'Z' as int then c + 32 else c;
        i := i + 1;
      } else {
        var sequence := if c >= 0xF0 then 4 else if c >= 0xE0 then 3 else if c >= 0xC0 then 2 else 1;
        if i + sequence > |input| {
          break;
        }
        assert input[i + sequence..] == rest[sequence..];
        if sequence != 2 {
          i := i + sequence;
          continue;
        }
        m := TwoBytes(c, input[i + 1]);
        i := i + 2;
        if m == 0 {
          continue;
        }
      }
      KeptByte(input, rest, i, m, space);
      ConcatAssociative(out[..j], Written(m, space), FoldFrom(input[i..], IsSpace(m)));
      j, space := Put(m, out, j, space);
    }
    j := Close(out, j, space);
  }

  /** The closing space. */
  method Close(out: array<byte>, j: nat, space: bool) returns (k: nat)
    requires 1 <= j < out.Length && (space <==> out[j - 1] == SPACE)
    modifies out
    ensures j <= k <= j + 1 && out[..k] == old(out[..j]) + Tail(space)
    ensures forall i :: k <= i < out.Length ==> out[i] == old(out[i])
  {
    k := j;
    if !space {
      out[k] := SPACE;
      k := k + 1;
    } else if j > 1 && out[j - 1] != SPACE {
      // the flag always agrees with the last byte, so this second tail is never taken
      assert false;
    }
  }

  /** A kept byte `m`, read from the front of `rest`; `i` is where reading goes on. */
  lemma KeptByte(input: seq<byte>, rest: seq<byte>, i: nat, m: byte, space: bool)
    requires i <= |input| && rest != [] && |rest| > |input| - i && input[i..] == rest[|rest| - (|input| - i)..]
    requires if rest[0] < 0x80 then |rest| == |input| - i + 1 && m == Lower(rest[0])
             else |rest| == |input| - i + 2 && SequenceLength(rest[0]) == 2
                  && m == TwoBytes(rest[0], rest[1]) && m != 0
    ensures FoldFrom(rest, space) == Written(m, space) + FoldFrom(input[i..], IsSpace(m))
  {
    assert FoldFrom(rest, space) == Emit(m, input[i..], space);
    assert [] + FoldFrom(input[i..], true) == FoldFrom(input[i..], true);
  }

  /** What one kept byte writes. */
  function Written(m: byte, space: bool): seq<byte> {
    if !IsSpace(m) then [m] else if space then [] else [SPACE]
  }

  method Put(m: byte, out: array<byte>, j: nat, space: bool) returns (k: nat, after: bool)
    requires 1 <= j < out.Length && (space <==> out[j - 1] == SPACE)
    modifies out
    ensures j <= k <= j + 1 && out[..k] == old(out[..j]) + Written(m, space)
    ensures after == IsSpace(m) && (after <==> out[k - 1] == SPACE)
    ensures forall i :: k <= i < out.Length ==> out[i] == old(out[i])
  {
    k := j;
    after := space;
    if IsSpace(m) {
      if !space {
        out[k] := SPACE;
        k := k + 1;
        after := true;
      }
    } else {
      out[k] := m;
      k := k + 1;
      after := false;
    }
  }

  // ------------------------------------------------------------ trainer, characters

  function Mapped(ch: char): char {
    match ch
    case '\U{130}' => 'i' case 'I' => 'i' case '\U{11E}' => 'g' case '\U{DC}' => 'u' case '\U{15E}' => 's'
    case '\U{D6}' => 'o' case '\U{C7}' => 'c' case '\U{C2}' => 'a' case '\U{CE}' => 'i'
    case _ => LowerLetter(ch)
  }

  function LowerLetter(ch: char): char {
    match ch
    case '\U{131}' => 'i' case '\U{11F}' => 'g' case '\U{FC}' => 'u' case '\U{15F}' => 's'
    case '\U{F6}' => 'o' case '\U{E7}' => 'c' case '\U{E2}' => 'a' case '\U{EE}' => 'i'
    case _ => ch
  }

  /** The mapping tables, then explicit ASCII lowercasing. */
  function FoldChar(ch: char): char {
    var mapped := Mapped(ch);
    if 'A' <= mapped <= 'Z' then (mapped as int + 32) as char else mapped
  }

  predicate IsAscii(ch: char) {
    ch as int < 0x80
  }

  function FoldTextFrom(t: string, space: bool): string {
    if t == "" then if space then "" else " "
    else
      var ch := FoldChar(t[0]);
      if !IsAscii(ch) then FoldTextFrom(t[1..], space)
      else if IsSpace(ch as int) then (if space then "" else " ") + FoldTextFrom(t[1..], true)
      else [ch] + FoldTextFrom(t[1..], false)
  }

  function FoldText(t: string): string {
    " " + FoldTextFrom(t, true)
  }

  /** The trainer's loop. */
  method FoldMessage(text: string) returns (out: string)
    ensures out == FoldText(text)
  {
    var space := true;
    out := " ";
    for i := 0 to |text|
      invariant out + FoldTextFrom(text[i..], space) == FoldText(text)
    {
      FoldTextStep(out, text, i, space);
      var ch := FoldChar(text[i]);
      if !IsAscii(ch) {
        continue;
      }
      if IsSpace(ch as int) {
        if !space {
          out := out + " ";
          space := true;
        }
      } else {
        out := out + [ch];
        space := false;
      }
    }
    if !space {
      out := out + " ";
    }
  }

  lemma FoldTextStep(out: string, text: string, i: nat, space: bool)
    requires i < |text|
    ensures var ch := FoldChar(text[i]);
            var blank := IsAscii(ch) && IsSpace(ch as int);
            var kept := if !IsAscii(ch) || (blank && space) then "" else if blank then " " else [ch];
            && out + FoldTextFrom(text[i..], space)
               == (out + kept) + FoldTextFrom(text[i + 1..], if IsAscii(ch) then blank else space)
            && out + "" == out
  {
    assert text[i..][1..] == text[i + 1..];
  }

  // --------------------------------------------------------------------- agreement

  /** A two-byte sequence is one of the mapped letters on both sides, or dropped on both. */
  lemma TwoByteLetters(c: char)
    requires 0x80 <= c as int < 0x800
    ensures var m := TwoBytes(0xC0 + c as int / 64, 0x80 + c as int % 64);
            if m == 0 then !IsAscii(FoldChar(c)) else FoldChar(c) as int == m && !IsSpace(m)
  {}

  lemma NarrowCharactersFoldAlike(c: char)
    requires IsAscii(c)
    ensures FoldChar(c) as int == Lower(c as int)
  {}

  lemma {:induction false} FoldsAgreeFrom(t: string, space: bool)
    ensures FoldFrom(Encode(t), space) == Encode(FoldTextFrom(t, space))
    decreases t
  {
    if t == "" {
      assert Encode(" ") == [SPACE] + Encode("");
    } else {
      var c, rest := t[0], t[1..];
      var bytes := EncodeChar(c) + Encode(rest);
      assert [c] + rest == t;
      FoldsAgreeFrom(rest, space);
      FoldsAgreeFrom(rest, true);
      FoldsAgreeFrom(rest, false);
      if IsAscii(c) {
        NarrowAgrees(bytes, c, rest, space);
      } else if c as int < 0x800 {
        LetterAgrees(bytes, c, rest, space);
      } else {
        WideAgrees(bytes, c, rest, space);
      }
    }
  }

  lemma NarrowAgrees(bytes: seq<byte>, c: char, rest: string, space: bool)
    requires IsAscii(c) && bytes == EncodeChar(c) + Encode(rest)
    requires FoldFrom(Encode(rest), true) == Encode(FoldTextFrom(rest, true))
    requires FoldFrom(Encode(rest), false) == Encode(FoldTextFrom(rest, false))
    ensures FoldFrom(bytes, space) == Encode(FoldTextFrom([c] + rest, space))
  {
    assert ([c] + rest)[1..] == rest;
    assert bytes[0] == c as int && bytes[1..] == Encode(rest);
    NarrowCharactersFoldAlike(c);
    EmitAgrees(FoldChar(c), rest, space);
  }

  lemma WideAgrees(bytes: seq<byte>, c: char, rest: string, space: bool)
    requires c as int >= 0x800 && bytes == EncodeChar(c) + Encode(rest)
    requires FoldFrom(Encode(rest), space) == Encode(FoldTextFrom(rest, space))
    ensures FoldFrom(bytes, space) == Encode(FoldTextFrom([c] + rest, space))
  {
    assert ([c] + rest)[1..] == rest;
    WideSkips(bytes, c, rest, space);
  }

  lemma LetterAgrees(bytes: seq<byte>, c: char, rest: string, space: bool)
    requires 0x80 <= c as int < 0x800 && bytes == EncodeChar(c) + Encode(rest)
    requires FoldFrom(Encode(rest), space) == Encode(FoldTextFrom(rest, space))
    requires FoldFrom(Encode(rest), true) == Encode(FoldTextFrom(rest, true))
    requires FoldFrom(Encode(rest), false) == Encode(FoldTextFrom(rest, false))
    ensures FoldFrom(bytes, space) == Encode(FoldTextFrom([c] + rest, space))
  {
    assert ([c] + rest)[1..] == rest;
    assert bytes[..2] == [0xC0 + c as int / 64, 0x80 + c as int % 64] && bytes[2..] == Encode(rest);
    assert bytes[0] == bytes[..2][0] && bytes[1] == bytes[..2][1];
    TwoByteLetters(c);
    if IsAscii(FoldChar(c)) {
      EmitAgrees(FoldChar(c), rest, space);
    }
  }

  lemma WideSkips(bytes: seq<byte>, c: char, rest: string, space: bool)
    requires c as int >= 0x800 && bytes == EncodeChar(c) + Encode(rest)
    ensures FoldFrom(bytes, space) == FoldFrom(Encode(rest), space)
  {
    var n := |EncodeChar(c)|;
    assert bytes[0] == EncodeChar(c)[0] && bytes[n..] == Encode(rest);
    assert SequenceLength(bytes[0]) == n;
  }

  lemma EmitAgrees(ch: char, rest: string, space: bool)
    requires IsAscii(ch)
    requires FoldFrom(Encode(rest), true) == Encode(FoldTextFrom(rest, true))
    requires FoldFrom(Encode(rest), false) == Encode(FoldTextFrom(rest, false))
    ensures Emit(ch as int, Encode(rest), space)
         == Encode(if IsSpace(ch as int) then (if space then "" else " ") + FoldTextFrom(rest, true)
                   else [ch] + FoldTextFrom(rest, false))
  {
    EncodeConcat("", FoldTextFrom(rest, true));
    EncodeConcat(" ", FoldTextFrom(rest, true));
    EncodeConcat([ch], FoldTextFrom(rest, false));
    assert Encode(" ") == [SPACE] + Encode("");
    assert Encode([ch]) == [ch as int] + Encode("");
  }

  /** On every message the device folds the bytes of what the trainer folds. */
  lemma FoldsAgree(t: string)
    ensures FoldBytes(Encode(t)) == Encode(FoldText(t))
  {
    FoldsAgreeFrom(t, true);
    EncodeConcat(" ", FoldTextFrom(t, true));
    assert Encode(" ") == [SPACE] + Encode("");
  }

  // ------------------------------------------------------------------------ length

  lemma {:induction false} FoldTextIsAscii(t: string, space: bool)
    ensures forall i :: 0 <= i < |FoldTextFrom(t, space)| ==> IsAscii(FoldTextFrom(t, space)[i])
    decreases t
  {
    if t != "" {
      FoldTextIsAscii(t[1..], space);
      FoldTextIsAscii(t[1..], true);
      FoldTextIsAscii(t[1..], false);
    }
  }

  lemma {:induction false} AsciiSize(s: string)
    requires forall i :: 0 <= i < |s| ==> IsAscii(s[i])
    ensures Utf8Size(s) == |s|
  {
    if s != "" {
      AsciiSize(s[1..]);
    }
  }

  /** The trainer's folded characters are as many as the device's folded bytes. */
  lemma FoldedLengthsAgree(t: string)
    ensures |FoldText(t)| == |FoldBytes(Encode(t))|
  {
    FoldsAgree(t);
    FoldTextIsAscii(t, true);
    AsciiSize(FoldText(t));
    EncodeSize(FoldText(t));
  }

  // -------------------------------------------------------------------- normal form

  /** A byte a folded message may hold. */
  predicate Legal(b: byte) {
    b < 0x80 && !('A' as int <= b <= 'Z' as int) && (IsSpace(b) ==> b == SPACE)
  }

  /** ASCII, no upper case, opening and closing with a space, and no whitespace but single
      spaces in between. */
  predicate IsFolded(x: seq<byte>) {
    && |x| > 0 && x[0] == SPACE && x[|x| - 1] == SPACE
    && (forall i :: 0 <= i < |x| ==> Legal(x[i]))
    && (forall i :: 0 < i < |x| ==> !(x[i - 1] == SPACE && x[i] == SPACE))
  }

  /** `y` continues a folded message after a byte that was or was not a space. */
  predicate Continues(space: bool, y: seq<byte>)
    decreases y
  {
    if y == [] then space
    else Legal(y[0]) && !(space && y[0] == SPACE) && Continues(y[0] == SPACE, y[1..])
  }

  lemma {:induction false} FoldFromContinues(input: seq<byte>, space: bool)
    ensures Continues(space, FoldFrom(input, space))
    ensures |FoldFrom(input, space)| <= |input| + 1
    decreases |input|, 0
  {
    if input != [] {
      if input[0] < 0x80 {
        EmitContinues(Lower(input[0]), input[1..], space);
      } else {
        var n := SequenceLength(input[0]);
        if n <= |input| {
          if n != 2 {
            FoldFromContinues(input[n..], space);
          } else {
            var m := TwoBytes(input[0], input[1]);
            if m == 0 {
              FoldFromContinues(input[2..], space);
            } else {
              EmitContinues(m, input[2..], space);
            }
          }
        }
      }
    }
  }

  lemma {:induction false} EmitContinues(m: byte, rest: seq<byte>, space: bool)
    requires m < 0x80 && !('A' as int <= m <= 'Z' as int)
    ensures Continues(space, Emit(m, rest, space))
    ensures |Emit(m, rest, space)| <= |rest| + 2
    decreases |rest|, 1
  {
    FoldFromContinues(rest, true);
    FoldFromContinues(rest, false);
    var out := Emit(m, rest, space);
    if !(IsSpace(m) && space) {
      assert out[1..] == FoldFrom(rest, IsSpace(m));
    } else {
      assert out == FoldFrom(rest, true);
    }
  }

  lemma {:induction false} ContinuesIsFolded(x: seq<byte>)
    requires x != [] && Legal(x[0])
    ensures Continues(x[0] == SPACE, x[1..])
       <==> x[|x| - 1] == SPACE && (forall i :: 0 <= i < |x| ==> Legal(x[i]))
            && (forall i :: 0 < i < |x| ==> !(x[i - 1] == SPACE && x[i] == SPACE))
  {
    var y := x[1..];
    if y != [] {
      if Legal(y[0]) {
        ContinuesIsFolded(y);
        assert forall i :: 0 < i < |x| ==> x[i] == y[i - 1];
        assert forall i :: 0 < i < |y| ==> y[i - 1] == x[i] && y[i] == x[i + 1];
        assert y[|y| - 1] == x[|x| - 1];
        assert forall i :: 1 < i < |x| ==> x[i] == y[i - 1];
      } else {
        assert x[1] == y[0];
      }
    }
  }

  /** Whatever bytes come in, valid UTF-8 or not, a folded message of at most two bytes more
      comes out. */
  lemma FoldIsFolded(input: seq<byte>)
    ensures IsFolded(FoldBytes(input)) && |FoldBytes(input)| <= |input| + 2
  {
    FoldFromContinues(input, true);
    var x := FoldBytes(input);
    assert x[1..] == FoldFrom(input, true);
    ContinuesIsFolded(x);
  }

  lemma {:induction false} FoldedIsFixed(y: seq<byte>, space: bool)
    requires Continues(space, y)
    ensures FoldFrom(y, space) == y
    decreases y
  {
    if y != [] {
      FoldedIsFixed(y[1..], y[0] == SPACE);
    }
  }

  /** The folded messages are exactly the fixed points of the fold. */
  lemma FixedIffFolded(x: seq<byte>)
    ensures FoldBytes(x) == x <==> IsFolded(x)
  {
    FoldIsFolded(x);
    if IsFolded(x) {
      ContinuesIsFolded(x);
      FoldedIsFixed(x[1..], true);
      assert FoldFrom(x, true) == FoldFrom(x[1..], true);
    }
  }

  lemma FoldIsIdempotent(input: seq<byte>)
    ensures FoldBytes(FoldBytes(input)) == FoldBytes(input)
  {
    FoldIsFolded(input);
    FixedIffFolded(FoldBytes(input));
  }
}
