/** What a folded message says: the words of the message, in order, one space around each. */
module FoldWords {
  import opened Text
  import opened Utf8
  import opened Fold

  /** The whitespace of both programs, by number: tab to carriage return, the four separators of
      ASCII, and the space. */
  predicate IsWhite(c: char) {
    var n := c as int;
    n == 9 || n == 10 || n == 11 || n == 12 || n == 13 || n == 28 || n == 29 || n == 30 || n == 31 || n == 32
  }

  /** What one character leaves: itself, its lower case, its plain letter, or nothing. */
  function Letter(c: char): string {
    if 'A' <= c <= 'Z' then [(c as int + 32) as char]
    else if c as int < 0x80 then [c]
    else match c
      case '\U{131}' => "i" case '\U{130}' => "i" case '\U{EE}' => "i" case '\U{CE}' => "i"
      case '\U{11F}' => "g" case '\U{11E}' => "g"
      case '\U{FC}' => "u" case '\U{DC}' => "u"
      case '\U{15F}' => "s" case '\U{15E}' => "s"
      case '\U{F6}' => "o" case '\U{D6}' => "o"
      case '\U{E7}' => "c" case '\U{C7}' => "c"
      case '\U{E2}' => "a" case '\U{C2}' => "a"
      case _ => ""
  }

  function Letters(t: string): string {
    if t == "" then "" else Letter(t[0]) + Letters(t[1..])
  }

  /** The word a text begins with. */
  function FirstWord(s: string): (w: string)
    ensures w <= s
  {
    if s == "" || IsWhite(s[0]) then "" else [s[0]] + FirstWord(s[1..])
  }

  function Words(s: string): seq<string>
    decreases |s|
  {
    if s == "" then []
    else if IsWhite(s[0]) then Words(s[1..])
    else [FirstWord(s)] + Words(s[|FirstWord(s)|..])
  }

  /** Each word and a space behind it. */
  function Spaced(words: seq<string>): string {
    if words == [] then "" else (words[0] + " ") + Spaced(words[1..])
  }

  lemma LetterIsFold(c: char)
    ensures Letter(c) == if IsAscii(FoldChar(c)) then [FoldChar(c)] else ""
  {}

  lemma WhiteIsSpace(c: char)
    requires IsAscii(c)
    ensures IsWhite(c) <==> IsSpace(c as int)
  {}

  /** What is still to come after a word was begun, or was not. */
  function Rest(s: string, begun: bool): string {
    if begun then (FirstWord(s) + " ") + Spaced(Words(s[|FirstWord(s)|..])) else Spaced(Words(s))
  }

  lemma RestStep(c: char, s: string, begun: bool)
    ensures Rest([c] + s, begun)
         == if IsWhite(c) then (if begun then " " else "") + Rest(s, false) else [c] + Rest(s, true)
  {
    var all := [c] + s;
    assert all[1..] == s;
    if IsWhite(c) {
      assert "" + Spaced(Words(s)) == Spaced(Words(s));
      assert all[0..] == all && "" + " " == " ";
    } else {
      var w := FirstWord(s);
      assert FirstWord(all) == [c] + w && all[|[c] + w|..] == s[|w|..];
      assert ([c] + w) + " " == [c] + (w + " ");
      ConcatAssociative([c], w + " ", Spaced(Words(s[|w|..])));
      OneMoreWord([c] + w, Words(s[|w|..]));
    }
  }

  lemma OneMoreWord(w: string, words: seq<string>)
    ensures Spaced([w] + words) == (w + " ") + Spaced(words)
  {
    assert ([w] + words)[1..] == words;
  }

  lemma {:induction false} FoldFromWords(t: string, space: bool)
    ensures FoldTextFrom(t, space) == Rest(Letters(t), !space)
    decreases t
  {
    if t == "" {
      assert Rest("", false) == "";
      assert Rest("", true) == " ";
    } else {
      var ch := FoldChar(t[0]);
      LetterIsFold(t[0]);
      if IsAscii(ch) {
        WhiteIsSpace(ch);
        FoldFromWords(t[1..], IsSpace(ch as int));
        RestStep(ch, Letters(t[1..]), !space);
      } else {
        FoldFromWords(t[1..], space);
        assert "" + Letters(t[1..]) == Letters(t[1..]);
      }
    }
  }

  /** A message folds to a space and then each of its words, spelled in its plain lower-case
      letters, with a space behind it: on the trainer's side and, as bytes, on the device's. */
  lemma FoldIsItsWords(t: string)
    ensures FoldText(t) == " " + Spaced(Words(Letters(t)))
    ensures FoldBytes(Encode(t)) == Encode(" " + Spaced(Words(Letters(t))))
  {
    FoldFromWords(t, true);
    FoldsAgree(t);
  }

  /** The bytes a folded message may hold, by number: the space, and of ASCII all but the other
      whitespace and the capitals. */
  lemma LegalByNumber(b: byte)
    ensures Legal(b) <==> b == 32 || b <= 8 || 14 <= b <= 27 || 33 <= b <= 64 || 91 <= b <= 127
  {}

  /** Whatever bytes come in, no others come out. */
  lemma FoldHoldsLegalBytes(input: seq<byte>, i: nat)
    requires i < |FoldBytes(input)|
    ensures var b := FoldBytes(input)[i]; b == 32 || b <= 8 || 14 <= b <= 27 || 33 <= b <= 64 || 91 <= b <= 127
  {
    FoldIsFolded(input);
    LegalByNumber(FoldBytes(input)[i]);
  }
}
