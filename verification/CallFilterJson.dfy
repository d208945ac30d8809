/** Every call whose argument is a JSON text is swallowed whole. The grammar is that of
    RFC 8259, sections 2 to 7, as a concrete syntax tree that keeps every blank. */
module CallFilterJson {
  import opened Text
  import opened CallFilter

  datatype Piece = Plain(c: char) | Escaped(c: char) | Unicode(hex: string)

  datatype Exponent = Exponent(e: char, sign: string, digits: string)

  datatype Value =
    | Null
    | True
    | False
    | Number(minus: bool, integer: string, fraction: Option<string>, exponent: Option<Exponent>)
    | String(pieces: seq<Piece>)
    | Array(blank: string, items: Items)
    | Object(blank: string, members: Members)

  datatype Items = NoItem | Item(before: string, value: Value, after: string, rest: Items)

  datatype Members =
    | NoMember
    | Member(before: string, key: seq<Piece>, beforeColon: string, afterColon: string,
             value: Value, after: string, rest: Members)

  // -------------------------------------------------------------------- grammar

  /** Section 2: insignificant whitespace. */
  predicate IsWs(s: string) {
    forall i :: 0 <= i < |s| ==> s[i] == ' ' || s[i] == '\t' || s[i] == '\n' || s[i] == '\r'
  }

  predicate IsDigits(s: string) {
    s != "" && forall i :: 0 <= i < |s| ==> IsDigit(s[i])
  }

  predicate IsHex(c: char) {
    IsDigit(c) || 'a' <= c <= 'f' || 'A' <= c <= 'F'
  }

  /** Section 7: what may stand between the quotes. */
  predicate PieceOk(p: Piece) {
    match p
    case Plain(c) => c as int >= 0x20 && c != '"' && c != '\\'
    case Escaped(c) => c in "\"\\/bfnrt"
    case Unicode(hex) => |hex| == 4 && forall i :: 0 <= i < 4 ==> IsHex(hex[i])
  }

  predicate PiecesOk(ps: seq<Piece>) {
    forall i :: 0 <= i < |ps| ==> PieceOk(ps[i])
  }

  predicate ValueOk(v: Value) {
    match v
    case Null => true
    case True => true
    case False => true
    case Number(_, integer, fraction, exponent) =>
      && IsDigits(integer) && (integer[0] == '0' ==> |integer| == 1)
      && (fraction.Some? ==> IsDigits(fraction.value))
      && (exponent.Some? ==>
            && exponent.value.e in "eE" && exponent.value.sign in ["", "+", "-"]
            && IsDigits(exponent.value.digits))
    case String(ps) => PiecesOk(ps)
    case Array(blank, items) => IsWs(blank) && ItemsOk(items)
    case Object(blank, members) => IsWs(blank) && MembersOk(members)
  }

  predicate ItemsOk(items: Items) {
    match items
    case NoItem => true
    case Item(before, v, after, rest) => IsWs(before) && ValueOk(v) && IsWs(after) && ItemsOk(rest)
  }

  predicate MembersOk(members: Members) {
    match members
    case NoMember => true
    case Member(before, key, beforeColon, afterColon, v, after, rest) =>
      && IsWs(before) && PiecesOk(key) && IsWs(beforeColon) && IsWs(afterColon)
      && ValueOk(v) && IsWs(after) && MembersOk(rest)
  }

  // ----------------------------------------------------------------------- text

  function PieceText(p: Piece): string {
    match p
    case Plain(c) => [c]
    case Escaped(c) => ['\\', c]
    case Unicode(hex) => "\\u" + hex
  }

  function PiecesText(ps: seq<Piece>): string {
    if ps == [] then "" else PieceText(ps[0]) + PiecesText(ps[1..])
  }

  function StringText(ps: seq<Piece>): string {
    ['"'] + (PiecesText(ps) + ['"'])
  }

  function NumberText(v: Value): string
    requires v.Number?
  {
    (if v.minus then "-" else "") + v.integer
    + (if v.fraction.Some? then "." + v.fraction.value else "")
    + (if v.exponent.Some? then [v.exponent.value.e] + v.exponent.value.sign + v.exponent.value.digits else "")
  }

  function ValueText(v: Value): string {
    match v
    case Null => "null"
    case True => "true"
    case False => "false"
    case Number(_, _, _, _) => NumberText(v)
    case String(ps) => StringText(ps)
    case Array(blank, items) => ['['] + ((blank + ItemsText(items)) + [']'])
    case Object(blank, members) => ['{'] + ((blank + MembersText(members)) + ['}'])
  }

  function ItemsText(items: Items): string {
    match items
    case NoItem => ""
    case Item(before, v, after, rest) =>
      before + (ValueText(v) + Followed(after, rest.Item?, ItemsText(rest)))
  }

  function MembersText(members: Members): string {
    match members
    case NoMember => ""
    case Member(before, key, beforeColon, afterColon, v, after, rest) =>
      before + (StringText(key) + (Colon(beforeColon, afterColon)
      + (ValueText(v) + Followed(after, rest.Member?, MembersText(rest)))))
  }

  /** What follows an element: blanks, then a comma if there is another. */
  function Followed(after: string, more: bool, rest: string): string {
    after + ((if more then "," else "") + rest)
  }

  function Colon(before: string, after: string): string {
    before + (":" + after)
  }

  // ------------------------------------------------------------ what JSON does to a lexer

  function Outside(d: int): Lexer {
    Lexer(d, false, false)
  }

  /** Reading `s` at depth `d` comes back to `d` and never dips below it. */
  predicate Neutral(d: int, s: string) {
    && LexAll(Outside(d), s) == Outside(d)
    && forall k :: 0 <= k <= |s| ==> LexAll(Outside(d), s[..k]).depth >= d
  }

  lemma {:induction false} LexAllConcat(l: Lexer, a: string, b: string)
    ensures LexAll(l, a + b) == LexAll(LexAll(l, a), b)
    decreases a
  {
    if a == [] {
      assert a + b == b;
    } else {
      assert (a + b)[1..] == a[1..] + b;
      LexAllConcat(Lex(l, a[0]), a[1..], b);
    }
  }

  lemma NeutralConcat(d: int, a: string, b: string)
    requires Neutral(d, a) && Neutral(d, b)
    ensures Neutral(d, a + b)
  {
    LexAllConcat(Outside(d), a, b);
    forall k | 0 <= k <= |a + b|
      ensures LexAll(Outside(d), (a + b)[..k]).depth >= d
    {
      if k <= |a| {
        assert (a + b)[..k] == a[..k];
      } else {
        assert (a + b)[..k] == a + b[..k - |a|];
        LexAllConcat(Outside(d), a, b[..k - |a|]);
      }
    }
  }

  predicate IsInert(c: char) {
    c !in "\"(){}[]"
  }

  lemma {:induction false} InertIsNeutral(d: int, s: string)
    requires forall i :: 0 <= i < |s| ==> IsInert(s[i])
    ensures Neutral(d, s)
  {
    if s != [] {
      InertIsNeutral(d, s[1..]);
      forall k | 0 < k <= |s|
        ensures LexAll(Outside(d), s[..k]).depth >= d
      {
        assert s[..k][1..] == s[1..][..k - 1];
      }
    }
  }

  /** Brackets around a neutral text one level deeper are neutral. */
  lemma NeutralBrackets(d: int, open: char, s: string, close: char)
    requires (open == '[' && close == ']') || (open == '{' && close == '}')
    requires Neutral(d + 1, s)
    ensures Neutral(d, [open] + (s + [close]))
  {
    var text := [open] + (s + [close]);
    assert text[1..] == s + [close];
    LexAllConcat(Outside(d + 1), s, [close]);
    forall k | 0 < k <= |text|
      ensures LexAll(Outside(d), text[..k]).depth >= d
    {
      assert text[..k][1..] == (s + [close])[..k - 1];
      if k <= |s| + 1 {
        assert (s + [close])[..k - 1] == s[..k - 1];
      } else {
        assert text[..k] == text;
      }
    }
  }

  /** Inside the quotes the depth stands still and no piece leaves the string. */
  lemma {:induction false} PiecesStayInside(d: int, ps: seq<Piece>)
    requires PiecesOk(ps)
    ensures LexAll(Lexer(d, true, false), PiecesText(ps)) == Lexer(d, true, false)
    ensures forall k :: 0 <= k <= |PiecesText(ps)| ==> LexAll(Lexer(d, true, false), PiecesText(ps)[..k]).depth >= d
  {
    var inside := Lexer(d, true, false);
    if ps != [] {
      var a, b := PieceText(ps[0]), PiecesText(ps[1..]);
      PieceStaysInside(d, ps[0]);
      PiecesStayInside(d, ps[1..]);
      LexAllConcat(inside, a, b);
      forall k | 0 <= k <= |a + b|
        ensures LexAll(inside, (a + b)[..k]).depth >= d
      {
        if k <= |a| {
          assert (a + b)[..k] == a[..k];
        } else {
          assert (a + b)[..k] == a + b[..k - |a|];
          LexAllConcat(inside, a, b[..k - |a|]);
        }
      }
    }
  }

  lemma PieceStaysInside(d: int, p: Piece)
    requires PieceOk(p)
    ensures LexAll(Lexer(d, true, false), PieceText(p)) == Lexer(d, true, false)
    ensures forall k :: 0 <= k <= |PieceText(p)| ==> LexAll(Lexer(d, true, false), PieceText(p)[..k]).depth >= d
  {
    var inside, text := Lexer(d, true, false), PieceText(p);
    StringDepth(inside, text, match p case Plain(_) => false case Escaped(_) => true case Unicode(_) => true);
  }

  /** A text whose only special character is a leading backslash leaves a string as it was. */
  lemma StringDepth(inside: Lexer, text: string, escaped: bool)
    requires inside.inString && !inside.escape
    requires escaped ==> |text| >= 2 && text[0] == '\\'
    requires forall i :: (if escaped then 2 else 0) <= i < |text| ==> text[i] != '\\' && text[i] != '"'
    ensures LexAll(inside, text) == inside
    ensures forall k :: 0 <= k <= |text| ==> LexAll(inside, text[..k]).depth == inside.depth
  {
    if escaped {
      assert text == text[..2] + text[2..];
      LexAllConcat(inside, text[..2], text[2..]);
      assert text[..2] == text[..1] + [text[1]];
      assert text[..1][1..] == [];
      LexAllSnoc(inside, text[..1], text[1]);
      assert LexAll(inside, text[..2]) == inside;
      OrdinaryInString(inside, text[2..]);
      forall k | 0 <= k <= |text|
        ensures LexAll(inside, text[..k]).depth == inside.depth
      {
        if k > 2 {
          assert text[..k] == text[..2] + text[2..][..k - 2];
          LexAllConcat(inside, text[..2], text[2..][..k - 2]);
          OrdinaryInString(inside, text[2..][..k - 2]);
        }
      }
    } else {
      OrdinaryInString(inside, text);
      forall k | 0 <= k <= |text|
        ensures LexAll(inside, text[..k]).depth == inside.depth
      {
        OrdinaryInString(inside, text[..k]);
      }
    }
  }

  lemma {:induction false} OrdinaryInString(inside: Lexer, s: string)
    requires inside.inString && !inside.escape
    requires forall i :: 0 <= i < |s| ==> s[i] != '\\' && s[i] != '"'
    ensures LexAll(inside, s) == inside
    decreases s
  {
    if s != [] {
      OrdinaryInString(inside, s[1..]);
    }
  }

  lemma StringIsNeutral(d: int, ps: seq<Piece>)
    requires PiecesOk(ps)
    ensures Neutral(d, StringText(ps))
  {
    var body := PiecesText(ps);
    var text := StringText(ps);
    PiecesStayInside(d, ps);
    assert text[1..] == body + ['"'];
    LexAllConcat(Lexer(d, true, false), body, ['"']);
    forall k | 0 < k <= |text|
      ensures LexAll(Outside(d), text[..k]).depth >= d
    {
      assert text[..k][1..] == (body + ['"'])[..k - 1];
      if k <= |body| + 1 {
        assert (body + ['"'])[..k - 1] == body[..k - 1];
      } else {
        assert text[..k] == text;
      }
    }
  }

  lemma {:induction false} ValueIsNeutral(d: int, v: Value)
    requires ValueOk(v)
    ensures Neutral(d, ValueText(v))
    decreases v
  {
    match v {
      case Null => LiteralsAreNeutral(d);
      case True => LiteralsAreNeutral(d);
      case False => LiteralsAreNeutral(d);
      case Number(_, _, _, _) => NumberIsNeutral(d, v);
      case String(ps) => StringIsNeutral(d, ps);
      case Array(blank, items) =>
        ItemsAreNeutral(d + 1, items);
        BracketedIsNeutral(d, '[', blank, ItemsText(items), ']');
      case Object(blank, members) =>
        MembersAreNeutral(d + 1, members);
        BracketedIsNeutral(d, '{', blank, MembersText(members), '}');
    }
  }

  lemma LiteralsAreNeutral(d: int)
    ensures Neutral(d, "null") && Neutral(d, "true") && Neutral(d, "false")
  {
    InertIsNeutral(d, "null");
    InertIsNeutral(d, "true");
    InertIsNeutral(d, "false");
  }

  lemma NumberIsNeutral(d: int, v: Value)
    requires v.Number? && ValueOk(v)
    ensures Neutral(d, NumberText(v))
  {
    InertIsNeutral(d, NumberText(v));
  }

  lemma BracketedIsNeutral(d: int, open: char, blank: string, s: string, close: char)
    requires (open == '[' && close == ']') || (open == '{' && close == '}')
    requires IsWs(blank) && Neutral(d + 1, s)
    ensures Neutral(d, [open] + ((blank + s) + [close]))
  {
    InertIsNeutral(d + 1, blank);
    NeutralConcat(d + 1, blank, s);
    NeutralBrackets(d, open, blank + s, close);
  }

  lemma FollowedIsNeutral(d: int, after: string, more: bool, rest: string)
    requires IsWs(after) && Neutral(d, rest)
    ensures Neutral(d, Followed(after, more, rest))
  {
    var comma := if more then "," else "";
    InertIsNeutral(d, after);
    InertIsNeutral(d, comma);
    NeutralConcat(d, comma, rest);
    NeutralConcat(d, after, comma + rest);
  }

  lemma {:induction false} ItemsAreNeutral(d: int, items: Items)
    requires ItemsOk(items)
    ensures Neutral(d, ItemsText(items))
    decreases items
  {
    match items {
      case NoItem => InertIsNeutral(d, "");
      case Item(before, v, after, rest) =>
        ItemsAreNeutral(d, rest);
        var tail := Followed(after, rest.Item?, ItemsText(rest));
        FollowedIsNeutral(d, after, rest.Item?, ItemsText(rest));
        ValueIsNeutral(d, v);
        NeutralConcat(d, ValueText(v), tail);
        InertIsNeutral(d, before);
        NeutralConcat(d, before, ValueText(v) + tail);
    }
  }

  lemma ColonIsNeutral(d: int, before: string, after: string)
    requires IsWs(before) && IsWs(after)
    ensures Neutral(d, Colon(before, after))
  {
    InertIsNeutral(d, before);
    InertIsNeutral(d, ":");
    InertIsNeutral(d, after);
    NeutralConcat(d, ":", after);
    NeutralConcat(d, before, ":" + after);
  }

  lemma MemberIsNeutral(d: int, before: string, key: seq<Piece>, colon: string, value: string, tail: string)
    requires IsWs(before) && PiecesOk(key) && Neutral(d, colon) && Neutral(d, value) && Neutral(d, tail)
    ensures Neutral(d, before + (StringText(key) + (colon + (value + tail))))
  {
    NeutralConcat(d, value, tail);
    NeutralConcat(d, colon, value + tail);
    StringIsNeutral(d, key);
    NeutralConcat(d, StringText(key), colon + (value + tail));
    InertIsNeutral(d, before);
    NeutralConcat(d, before, StringText(key) + (colon + (value + tail)));
  }

  lemma {:induction false} MembersAreNeutral(d: int, members: Members)
    requires MembersOk(members)
    ensures Neutral(d, MembersText(members))
    decreases members
  {
    if members.NoMember? {
      InertIsNeutral(d, "");
    } else {
      MembersAreNeutral(d, members.rest);
      FollowedIsNeutral(d, members.after, members.rest.Member?, MembersText(members.rest));
      ValueIsNeutral(d, members.value);
      ColonIsNeutral(d, members.beforeColon, members.afterColon);
      MemberIsNeutral(d, members.before, members.key, Colon(members.beforeColon, members.afterColon),
                      ValueText(members.value),
                      Followed(members.after, members.rest.Member?, MembersText(members.rest)));
    }
  }

  // --------------------------------------------------------------------- results

  /** A JSON text: a value with insignificant whitespace around it. */
  function JsonText(before: string, v: Value, after: string): string {
    before + (ValueText(v) + after)
  }

  lemma JsonIsNeutral(before: string, v: Value, after: string)
    requires IsWs(before) && ValueOk(v) && IsWs(after)
    ensures Neutral(1, JsonText(before, v, after))
  {
    InertIsNeutral(1, before);
    InertIsNeutral(1, after);
    ValueIsNeutral(1, v);
    NeutralConcat(1, ValueText(v), after);
    NeutralConcat(1, before, ValueText(v) + after);
  }

  lemma {:induction false} SizeGrows(s: string, i: nat, j: nat)
    requires i <= j <= |s|
    ensures Utf8Size(s[..i]) <= Utf8Size(s[..j])
  {
    assert s[..j] == s[..i] + s[i..j];
    Utf8SizeConcat(s[..i], s[i..j]);
  }

  /** The body of a neutral argument ends at its parenthesis if it fits the cap. */
  lemma {:induction false} NeutralBodyEnds(body: string, rest: string, k: nat)
    requires Neutral(1, body) && k <= |body| && Utf8Size(body) <= CALL_CAP
    ensures EndFrom(body + ([')'] + rest), k) == Closed(|body| + 1)
    decreases |body| - k
  {
    var whole := body + ([')'] + rest);
    if k == |body| {
      assert whole[..k + 1] == body + [')'];
      LexAllConcat(OPENED, body, [')']);
    } else {
      assert whole[..k + 1] == body[..k + 1];
      SizeGrows(body, k + 1, |body|);
      assert body[..|body|] == body;
      NeutralBodyEnds(body, rest, k + 1);
    }
  }

  /** Past the cap the body is given up on, at a place inside the argument. */
  lemma {:induction false} NeutralBodyOverflows(body: string, rest: string, k: nat)
    requires Neutral(1, body) && k <= |body|
    requires Utf8Size(body) > CALL_CAP && Utf8Size(body[..k]) <= CALL_CAP
    ensures EndFrom(body + rest, k).Overflow? && EndFrom(body + rest, k).at <= |body|
    decreases |body| - k
  {
    assert body[..|body|] == body;
    assert (body + rest)[..k + 1] == body[..k + 1];
    if Utf8Size(body[..k + 1]) <= CALL_CAP {
      NeutralBodyOverflows(body, rest, k + 1);
    }
  }

  /** The line that opens a call: blanks, a catalog name, a parenthesis. */
  function CallLine(blanks: string, name: string, body: string): string {
    blanks + (name + (['('] + body))
  }

  predicate IsCallOpening(names: seq<string>, blanks: string, name: string) {
    && (forall i :: 0 <= i < |blanks| ==> IsBlank(blanks[i]))
    && (forall i :: 0 <= i < |name| ==> IsWordChar(name[i]))
    && name in names
  }

  /** Such a line shows what its body shows. */
  lemma CallLineShowsItsBody(names: seq<string>, blanks: string, name: string, body: string)
    requires IsCallOpening(names, blanks, name)
    ensures Visible(names, CallLine(blanks, name, body)) == AfterOpening(names, body)
  {
    var line := CallLine(blanks, name, body);
    HeadOf(names, blanks, name, '(', body);
    assert line[|blanks| + |name| + 1..] == body;
  }

  /** A call with a JSON argument within the cap vanishes together with the whitespace after
      it: the swallow ends exactly at its parenthesis, whatever its strings hold. */
  lemma JsonCallIsSwallowed(
      names: seq<string>, blanks: string, name: string, before: string, v: Value, after: string, rest: string)
    requires IsCallOpening(names, blanks, name)
    requires IsWs(before) && ValueOk(v) && IsWs(after)
    requires Utf8Size(JsonText(before, v, after)) <= CALL_CAP
    ensures var json := JsonText(before, v, after);
            && EndFrom(json + ([')'] + rest), 0) == Closed(|json| + 1)
            && Visible(names, CallLine(blanks, name, json + ([')'] + rest))) == AtLineStart(names, SkipWhitespace(rest))
  {
    var json := JsonText(before, v, after);
    JsonIsNeutral(before, v, after);
    CallLineShowsItsBody(names, blanks, name, json + ([')'] + rest));
    NeutralBodyEnds(json, rest, 0);
    ClosedBodyShows(names, json, rest);
  }

  lemma ClosedBodyShows(names: seq<string>, json: string, rest: string)
    requires EndFrom(json + ([')'] + rest), 0) == Closed(|json| + 1)
    ensures AfterOpening(names, json + ([')'] + rest)) == AtLineStart(names, SkipWhitespace(rest))
  {
    assert (json + ([')'] + rest))[|json| + 1..] == rest;
  }

  /** A longer one is released as text from the first character past the cap on; only
      `name(` and the blanks in front of it stay hidden. */
  lemma LongJsonCallIsReleased(
      names: seq<string>, blanks: string, name: string, before: string, v: Value, after: string, rest: string)
    requires IsCallOpening(names, blanks, name)
    requires IsWs(before) && ValueOk(v) && IsWs(after)
    requires Utf8Size(JsonText(before, v, after)) > CALL_CAP
    ensures var json := JsonText(before, v, after);
            exists k :: 0 < k <= |json| && Overruns(json, k) && !Overruns(json, k - 1)
              && Visible(names, CallLine(blanks, name, json + rest)) == json[..k] + MidLine(names, json[k..] + rest)
  {
    var json := JsonText(before, v, after);
    var body := json + rest;
    JsonIsNeutral(before, v, after);
    CallLineShowsItsBody(names, blanks, name, body);
    NeutralBodyOverflows(json, rest, 0);
    var k := EndFrom(body, 0).at;
    assert body[..k] == json[..k] && body[k..] == json[k..] + rest;
    assert body[..k - 1] == json[..k - 1];
    assert Overruns(json, k);
    assert Utf8Size(json[..0]) == 0;
    assert k > 1 ==> !Overruns(body, k - 1);
    assert !Overruns(json, k - 1);
  }
}
