/** How messages reach the device: one escaped line each, read back through a 512-byte buffer. */
module Transport {
  import opened Text
  import opened Utf8

  const LINE_BUFFER: nat := 512
  const MAX_MESSAGES: nat := 4096

  const NUL: byte := 0
  const NEWLINE: byte := 0x0A
  const RETURN: byte := 0x0D
  const BACKSLASH: byte := 0x5C

  // ------------------------------------------------------------------------ sender

  /** `str.replace` of one character. */
  function Replace(s: string, c: char, sub: string): string {
    if s == "" then "" else (if s[0] == c then sub else [s[0]]) + Replace(s[1..], c, sub)
  }

  /** The chain of sequential replaces: the backslash first. */
  function Escape(t: string): string {
    Replace(Replace(Replace(Replace(Replace(Replace(t,
      '\\', "\\\\"), '\n', "\\n"), '\r', "\\r"), '\t', "\\t"), '\U{0B}', "\\v"), '\U{0C}', "\\f")
  }

  function EscapeChar(c: char): string {
    if c == '\\' then "\\\\"
    else if c == '\n' then "\\n"
    else if c == '\r' then "\\r"
    else if c == '\t' then "\\t"
    else if c == '\U{0B}' then "\\v"
    else if c == '\U{0C}' then "\\f"
    else [c]
  }

  function EscapeEach(t: string): string {
    if t == "" then "" else EscapeChar(t[0]) + EscapeEach(t[1..])
  }

  lemma {:induction false} ReplaceConcat(a: string, b: string, c: char, sub: string)
    ensures Replace(a + b, c, sub) == Replace(a, c, sub) + Replace(b, c, sub)
  {
    if a == "" {
      assert a + b == b;
    } else {
      assert (a + b)[1..] == a[1..] + b;
      ReplaceConcat(a[1..], b, c, sub);
      ConcatAssociative(if a[0] == c then sub else [a[0]], Replace(a[1..], c, sub), Replace(b, c, sub));
    }
  }

  lemma EscapeConcat(a: string, b: string)
    ensures Escape(a + b) == Escape(a) + Escape(b)
  {
    ReplaceConcat(a, b, '\\', "\\\\");
    var a1, b1 := Replace(a, '\\', "\\\\"), Replace(b, '\\', "\\\\");
    ReplaceConcat(a1, b1, '\n', "\\n");
    var a2, b2 := Replace(a1, '\n', "\\n"), Replace(b1, '\n', "\\n");
    ReplaceConcat(a2, b2, '\r', "\\r");
    var a3, b3 := Replace(a2, '\r', "\\r"), Replace(b2, '\r', "\\r");
    ReplaceConcat(a3, b3, '\t', "\\t");
    var a4, b4 := Replace(a3, '\t', "\\t"), Replace(b3, '\t', "\\t");
    ReplaceConcat(a4, b4, '\U{0B}', "\\v");
    ReplaceConcat(Replace(a4, '\U{0B}', "\\v"), Replace(b4, '\U{0B}', "\\v"), '\U{0C}', "\\f");
  }

  lemma ReplaceOne(x: char, c: char, sub: string)
    ensures Replace([x], c, sub) == if x == c then sub else [x]
  {
    assert [x][1..] == "";
    assert sub + "" == sub && [x] + "" == [x];
  }

  lemma ReplaceTwo(x: char, y: char, c: char, sub: string)
    requires x != c && y != c
    ensures Replace([x, y], c, sub) == [x, y]
  {
    assert [x, y][1..] == [y];
    ReplaceOne(y, c, sub);
  }

  /** A character the first `k` replaces left alone, or the pair one of them made. */
  lemma EscapeOne(x: char)
    ensures Escape([x]) == EscapeChar(x)
  {
    ReplaceOne(x, '\\', "\\\\");
    ReplaceOne(x, '\n', "\\n");
    ReplaceOne(x, '\r', "\\r");
    ReplaceOne(x, '\t', "\\t");
    ReplaceOne(x, '\U{0B}', "\\v");
    ReplaceOne(x, '\U{0C}', "\\f");
    if |EscapeChar(x)| == 2 {
      var mark := EscapeChar(x)[1];
      assert EscapeChar(x) == ['\\', mark];
      ReplaceTwo('\\', mark, '\n', "\\n");
      ReplaceTwo('\\', mark, '\r', "\\r");
      ReplaceTwo('\\', mark, '\t', "\\t");
      ReplaceTwo('\\', mark, '\U{0B}', "\\v");
      ReplaceTwo('\\', mark, '\U{0C}', "\\f");
    }
  }

  /** The chain is a map: no replace ever touches what an earlier one wrote. */
  lemma {:induction false} EscapeIsPerCharacter(t: string)
    ensures Escape(t) == EscapeEach(t)
  {
    if t != "" {
      assert t == [t[0]] + t[1..];
      EscapeConcat([t[0]], t[1..]);
      EscapeOne(t[0]);
      EscapeIsPerCharacter(t[1..]);
    }
  }

  function Join(lines: seq<string>): string {
    if lines == [] then ""
    else if |lines| == 1 then lines[0]
    else lines[0] + "\n" + Join(lines[1..])
  }

  function EscapeAll(messages: seq<string>): (lines: seq<string>)
    ensures |lines| == |messages|
    ensures forall i :: 0 <= i < |lines| ==> lines[i] == Escape(messages[i])
  {
    seq(|messages|, i requires 0 <= i < |messages| => Escape(messages[i]))
  }

  /** What check.py writes to the device's standard input. */
  function Wire(messages: seq<string>): seq<byte> {
    Encode(Join(EscapeAll(messages)) + "\n")
  }

  // ---------------------------------------------------------------------- receiver

  /** How far one `fgets` reads: through a newline, or a full buffer less its NUL. */
  function ReadLength(input: seq<byte>, room: nat): (n: nat)
    ensures n <= |input| && n <= room
    ensures input != [] && room > 0 ==> n > 0
  {
    if input == [] || room == 0 then 0
    else if input[0] == NEWLINE then 1
    else 1 + ReadLength(input[1..], room - 1)
  }

  /** `strlen`: everything from the first NUL on is lost. */
  function CString(line: seq<byte>): seq<byte> {
    if line == [] || line[0] == NUL then [] else [line[0]] + CString(line[1..])
  }

  function StripEnd(line: seq<byte>): seq<byte> {
    if line != [] && (line[|line| - 1] == NEWLINE || line[|line| - 1] == RETURN)
    then StripEnd(line[..|line| - 1]) else line
  }

  function UnescapeByte(n: byte): byte {
    if n == 'n' as int then NEWLINE
    else if n == 'r' as int then RETURN
    else if n == 't' as int then 0x09
    else if n == 'v' as int then 0x0B
    else if n == 'f' as int then 0x0C
    else n
  }

  function UnescapeBytes(line: seq<byte>): seq<byte> {
    if line == [] then []
    else if line[0] == BACKSLASH && |line| > 1 then [UnescapeByte(line[1])] + UnescapeBytes(line[2..])
    else [line[0]] + UnescapeBytes(line[1..])
  }

  function Received(line: seq<byte>): seq<byte> {
    UnescapeBytes(StripEnd(CString(line)))
  }

  /** The messages held after reading `input` with room for `slots` more. */
  function ReceiveAll(input: seq<byte>, slots: nat): seq<seq<byte>>
    decreases slots
  {
    if slots == 0 || input == [] then []
    else
      var n := ReadLength(input, LINE_BUFFER - 1);
      [Received(input[..n])] + ReceiveAll(input[n..], slots - 1)
  }

  /** The device's read loop. */
  method ReadMessages(input: seq<byte>) returns (buf: seq<seq<byte>>)
    ensures buf == ReceiveAll(input, MAX_MESSAGES)
  {
    buf := [];
    var rest := input;
    while |buf| < MAX_MESSAGES && rest != []
      invariant |buf| <= MAX_MESSAGES
      invariant buf + ReceiveAll(rest, MAX_MESSAGES - |buf|) == ReceiveAll(input, MAX_MESSAGES)
      decreases |rest|
    {
      var n := ReadLength(rest, LINE_BUFFER - 1);
      var d := ReadLine(rest[..n]);
      ghost var slots := MAX_MESSAGES - |buf|;
      ConcatAssociative(buf, [d], ReceiveAll(rest[n..], slots - 1));
      buf := buf + [d];
      rest := rest[n..];
    }
    assert buf + [] == buf;
  }

  /** One line: its end stripped, its escapes undone. */
  method ReadLine(line: seq<byte>) returns (d: seq<byte>)
    ensures d == Received(line)
  {
    var l := CString(line);
    while l != [] && (l[|l| - 1] == NEWLINE || l[|l| - 1] == RETURN)
      invariant StripEnd(l) == StripEnd(CString(line))
      decreases |l|
    {
      l := l[..|l| - 1];
    }
    d := UnescapeLine(l);
  }

  method UnescapeLine(l: seq<byte>) returns (d: seq<byte>)
    ensures d == UnescapeBytes(l)
  {
    d := [];
    var i := 0;
    while i < |l|
      invariant 0 <= i <= |l|
      invariant d + UnescapeBytes(l[i..]) == UnescapeBytes(l)
    {
      UnescapeStep(d, l, i);
      if l[i] == BACKSLASH && i + 1 < |l| {
        i := i + 1;
        d := d + [UnescapeByte(l[i])];
      } else {
        d := d + [l[i]];
      }
      i := i + 1;
    }
    assert d + [] == d;
  }

  lemma UnescapeStep(d: seq<byte>, l: seq<byte>, i: nat)
    requires i < |l|
    ensures d + UnescapeBytes(l[i..])
         == if l[i] == BACKSLASH && i + 1 < |l| then d + [UnescapeByte(l[i + 1])] + UnescapeBytes(l[i + 2..])
            else d + [l[i]] + UnescapeBytes(l[i + 1..])
  {
    var tail := l[i..];
    assert tail[1..] == l[i + 1..];
    if |tail| > 1 {
      assert tail[2..] == l[i + 2..];
    }
  }

  // ------------------------------------------------------------- one line, both ways

  /** One message on the wire: its escape, as bytes. */
  function Line(message: string): seq<byte> {
    Encode(Escape(message))
  }

  predicate HasNul(message: string) {
    '\0' in message
  }

  lemma EncodeOne(c: char)
    ensures Encode([c]) == EncodeChar(c)
  {
    assert [c][1..] == "";
    assert EncodeChar(c) + [] == EncodeChar(c);
  }

  /** The bytes of one escaped character: no line end, and a NUL only for a NUL. */
  lemma EscapedCharBytes(c: char)
    ensures var bytes := Encode(EscapeChar(c));
            && NEWLINE !in bytes && RETURN !in bytes && (NUL in bytes <==> c == '\0')
            && (|EscapeChar(c)| == 2 ==>
                  |bytes| == 2 && bytes[0] == BACKSLASH && EncodeChar(c) == [UnescapeByte(bytes[1])])
            && (|EscapeChar(c)| == 1 ==> bytes == EncodeChar(c) && BACKSLASH !in bytes)
  {
    if |EscapeChar(c)| == 2 {
      var mark := EscapeChar(c)[1];
      assert EscapeChar(c) == ['\\', mark] && ['\\', mark][1..] == [mark];
      EncodeOne(mark);
      assert Encode(['\\', mark]) == [BACKSLASH, mark as int];
    } else {
      EncodeOne(c);
    }
  }

  lemma LineCons(t: string)
    requires t != ""
    ensures Line(t) == Encode(EscapeChar(t[0])) + Line(t[1..])
  {
    EscapeIsPerCharacter(t);
    EscapeIsPerCharacter(t[1..]);
    EncodeConcat(EscapeChar(t[0]), EscapeEach(t[1..]));
  }

  lemma {:induction false} LineBytes(t: string)
    ensures NEWLINE !in Line(t) && RETURN !in Line(t)
    ensures NUL in Line(t) <==> HasNul(t)
  {
    if t == "" {
      assert Line(t) == [];
    } else {
      LineCons(t);
      LineBytes(t[1..]);
      EscapedCharBytes(t[0]);
      assert t == [t[0]] + t[1..];
    }
  }

  lemma {:induction false} UnescapePlain(a: seq<byte>, b: seq<byte>)
    requires BACKSLASH !in a
    ensures UnescapeBytes(a + b) == a + UnescapeBytes(b)
  {
    if a == [] {
      assert a + b == b;
    } else {
      assert (a + b)[1..] == a[1..] + b;
      UnescapePlain(a[1..], b);
    }
  }

  /** Undoing the escapes gives the message's own bytes. */
  lemma {:induction false} UnescapeUndoesEscape(t: string)
    ensures UnescapeBytes(Line(t)) == Encode(t)
  {
    if t != "" {
      var head, tail := Encode(EscapeChar(t[0])), Line(t[1..]);
      LineCons(t);
      EscapedCharBytes(t[0]);
      UnescapeUndoesEscape(t[1..]);
      if |EscapeChar(t[0])| == 2 {
        assert (head + tail)[2..] == tail;
      } else {
        UnescapePlain(head, tail);
      }
    }
  }

  lemma {:induction false} CStringOf(a: seq<byte>)
    requires NUL !in a
    ensures CString(a) == a
  {
    if a != [] {
      CStringOf(a[1..]);
    }
  }

  /** A NUL-free line is received as the message that was sent. */
  lemma LineIsReceived(t: string)
    requires !HasNul(t)
    ensures Received(Line(t) + [NEWLINE]) == Encode(t)
  {
    var line := Line(t) + [NEWLINE];
    LineBytes(t);
    CStringOf(line);
    assert line[..|line| - 1] == Line(t);
    assert StripEnd(Line(t)) == Line(t);
    UnescapeUndoesEscape(t);
  }

  // --------------------------------------------------------------------- the batch

  function Terminated(lines: seq<seq<byte>>): seq<byte> {
    if lines == [] then [] else (lines[0] + [NEWLINE]) + Terminated(lines[1..])
  }

  function LineAll(messages: seq<string>): (lines: seq<seq<byte>>)
    ensures |lines| == |messages|
    ensures forall i :: 0 <= i < |lines| ==> lines[i] == Line(messages[i])
  {
    seq(|messages|, i requires 0 <= i < |messages| => Line(messages[i]))
  }

  /** The lines as bytes, each with its newline. */
  function Lines(messages: seq<string>): seq<byte> {
    Terminated(LineAll(messages))
  }

  lemma FirstLine(messages: seq<string>)
    requires messages != []
    ensures Lines(messages) == (Line(messages[0]) + [NEWLINE]) + Lines(messages[1..])
  {
    assert LineAll(messages)[1..] == LineAll(messages[1..]);
  }

  lemma {:induction false} WireIsLines(messages: seq<string>)
    requires messages != []
    ensures Wire(messages) == Lines(messages)
  {
    var lines, rest := EscapeAll(messages), messages[1..];
    EncodeOne('\n');
    EncodeConcat(Join(lines), "\n");
    FirstLine(messages);
    if |messages| == 1 {
      assert Lines(rest) == [];
    } else {
      assert lines[1..] == EscapeAll(rest);
      WireIsLines(rest);
      EncodeConcat(lines[0] + "\n", Join(EscapeAll(rest)));
      EncodeConcat(lines[0], "\n");
      EncodeConcat(Join(EscapeAll(rest)), "\n");
      ConcatAssociative(Encode(lines[0] + "\n"), Encode(Join(EscapeAll(rest))), [NEWLINE]);
    }
  }

  lemma {:induction false} ReadsOneLine(line: seq<byte>, rest: seq<byte>, room: nat)
    requires NEWLINE !in line
    ensures ReadLength(line + ([NEWLINE] + rest), room) == if |line| < room then |line| + 1 else room
    decreases line
  {
    var input := line + ([NEWLINE] + rest);
    if line == [] {
      assert input[0] == NEWLINE;
    } else if room > 0 {
      assert input[1..] == line[1..] + ([NEWLINE] + rest);
      ReadsOneLine(line[1..], rest, room - 1);
    }
  }

  /** Escaped, the message and its newline fit one read. */
  predicate FitsLine(message: string) {
    |Line(message)| + 2 <= LINE_BUFFER
  }

  predicate Deliverable(message: string) {
    FitsLine(message) && !HasNul(message)
  }

  function EncodeAll(messages: seq<string>): (bytes: seq<seq<byte>>)
    ensures |bytes| == |messages|
    ensures forall i :: 0 <= i < |bytes| ==> bytes[i] == Encode(messages[i])
  {
    seq(|messages|, i requires 0 <= i < |messages| => Encode(messages[i]))
  }

  /** The device ends up holding exactly the messages that were sent. */
  predicate Arrives(messages: seq<string>) {
    ReceiveAll(Wire(messages), MAX_MESSAGES) == EncodeAll(messages)
  }

  /** A line that fits takes one read. */
  lemma FittingLineIsRead(line: seq<byte>, rest: seq<byte>, slots: nat)
    requires NEWLINE !in line && |line| + 2 <= LINE_BUFFER && slots > 0
    ensures ReceiveAll(line + ([NEWLINE] + rest), slots)
         == [Received(line + [NEWLINE])] + ReceiveAll(rest, slots - 1)
  {
    var input := line + ([NEWLINE] + rest);
    ReadsOneLine(line, rest, LINE_BUFFER - 1);
    assert input[..|line| + 1] == line + [NEWLINE] && input[|line| + 1..] == rest;
  }

  /** `line` takes one read and is understood as `held`. */
  predicate Carries(line: seq<byte>, held: seq<byte>) {
    NEWLINE !in line && |line| + 2 <= LINE_BUFFER && Received(line + [NEWLINE]) == held
  }

  lemma {:induction false} LinesAreReceived(lines: seq<seq<byte>>, held: seq<seq<byte>>, slots: nat)
    requires |lines| == |held| <= slots && forall i :: 0 <= i < |lines| ==> Carries(lines[i], held[i])
    ensures ReceiveAll(Terminated(lines), slots) == held
    decreases slots
  {
    if lines != [] {
      assert Carries(lines[0], held[0]);
      ConcatAssociative(lines[0], [NEWLINE], Terminated(lines[1..]));
      FittingLineIsRead(lines[0], Terminated(lines[1..]), slots);
      LinesAreReceived(lines[1..], held[1..], slots - 1);
    }
  }

  lemma DeliverableCarries(message: string)
    requires Deliverable(message)
    ensures Carries(Line(message), Encode(message))
  {
    LineBytes(message);
    LineIsReceived(message);
  }

  /** Any batch of at least one and at most 4096 deliverable messages survives the wire. */
  lemma BatchArrives(messages: seq<string>)
    requires 1 <= |messages| <= MAX_MESSAGES
    requires forall i :: 0 <= i < |messages| ==> Deliverable(messages[i])
    ensures Arrives(messages)
  {
    WireIsLines(messages);
    forall i | 0 <= i < |messages|
      ensures Carries(LineAll(messages)[i], EncodeAll(messages)[i])
    {
      DeliverableCarries(messages[i]);
    }
    LinesAreReceived(LineAll(messages), EncodeAll(messages), MAX_MESSAGES);
  }

  // ---------------------------------------------------------- and only those batches

  lemma {:induction false} UnescapeAddsNoNul(line: seq<byte>)
    requires NUL !in line
    ensures NUL !in UnescapeBytes(line)
  {
    if line != [] {
      if line[0] == BACKSLASH && |line| > 1 {
        UnescapeAddsNoNul(line[2..]);
      } else {
        UnescapeAddsNoNul(line[1..]);
      }
    }
  }

  lemma {:induction false} CStringHasNoNul(line: seq<byte>)
    ensures NUL !in CString(line)
  {
    if line != [] {
      CStringHasNoNul(line[1..]);
    }
  }

  lemma {:induction false} StripEndHasNoNul(line: seq<byte>)
    requires NUL !in line
    ensures NUL !in StripEnd(line)
  {
    if line != [] {
      StripEndHasNoNul(line[..|line| - 1]);
    }
  }

  lemma {:induction false} ReceivedHasNoNul(input: seq<byte>, slots: nat)
    ensures forall i :: 0 <= i < |ReceiveAll(input, slots)| ==> NUL !in ReceiveAll(input, slots)[i]
    decreases slots
  {
    if slots > 0 && input != [] {
      var n := ReadLength(input, LINE_BUFFER - 1);
      CStringHasNoNul(input[..n]);
      StripEndHasNoNul(CString(input[..n]));
      UnescapeAddsNoNul(StripEnd(CString(input[..n])));
      ReceivedHasNoNul(input[n..], slots - 1);
    }
  }

  lemma {:induction false} EncodedNul(t: string)
    requires HasNul(t)
    ensures NUL in Encode(t)
  {
    assert t == [t[0]] + t[1..];
    if t[0] == '\0' {
      assert Encode(t)[0] == NUL;
    } else {
      EncodedNul(t[1..]);
    }
  }

  /** Reads that a line of `n` bytes takes. */
  function Reads(n: nat): (k: nat)
    ensures k >= 1 && (k == 1 <==> n + 2 <= LINE_BUFFER)
  {
    if n + 2 <= LINE_BUFFER then 1 else 1 + Reads(n - (LINE_BUFFER - 1))
  }

  function AllReads(lines: seq<seq<byte>>): nat {
    if lines == [] then 0 else Reads(|lines[0]|) + AllReads(lines[1..])
  }

  function Min(a: nat, b: nat): nat {
    if a < b then a else b
  }

  lemma {:induction false} LineTakesReads(line: seq<byte>, rest: seq<byte>, slots: nat)
    requires NEWLINE !in line
    ensures |ReceiveAll(line + ([NEWLINE] + rest), slots)|
         == if slots <= Reads(|line|) then slots
            else Reads(|line|) + |ReceiveAll(rest, slots - Reads(|line|))|
    decreases slots
  {
    var input := line + ([NEWLINE] + rest);
    if slots > 0 {
      if |line| + 2 <= LINE_BUFFER {
        FittingLineIsRead(line, rest, slots);
      } else {
        var left := line[LINE_BUFFER - 1..];
        ReadsOneLine(line, rest, LINE_BUFFER - 1);
        assert input[LINE_BUFFER - 1..] == left + ([NEWLINE] + rest);
        LineTakesReads(left, rest, slots - 1);
      }
    }
  }

  lemma {:induction false} LinesHeld(lines: seq<seq<byte>>, slots: nat)
    requires forall i :: 0 <= i < |lines| ==> NEWLINE !in lines[i]
    ensures |ReceiveAll(Terminated(lines), slots)| == Min(slots, AllReads(lines))
    decreases lines
  {
    if lines != [] {
      var rest, k := Terminated(lines[1..]), Reads(|lines[0]|);
      ConcatAssociative(lines[0], [NEWLINE], rest);
      LineTakesReads(lines[0], rest, slots);
      if slots > k {
        LinesHeld(lines[1..], slots - k);
      }
    }
  }

  /** The device holds as many messages as the lines take reads, up to its limit. */
  lemma MessagesHeld(messages: seq<string>, slots: nat)
    ensures |ReceiveAll(Lines(messages), slots)| == Min(slots, AllReads(LineAll(messages)))
  {
    forall i | 0 <= i < |messages|
      ensures NEWLINE !in LineAll(messages)[i]
    {
      LineBytes(messages[i]);
    }
    LinesHeld(LineAll(messages), slots);
  }

  lemma {:induction false} ReadsBound(lines: seq<seq<byte>>)
    ensures AllReads(lines) >= |lines|
    ensures (exists i :: 0 <= i < |lines| && |lines[i]| + 2 > LINE_BUFFER) ==> AllReads(lines) > |lines|
  {
    if lines != [] {
      ReadsBound(lines[1..]);
      assert forall i :: 0 < i < |lines| ==> lines[i] == lines[1..][i - 1];
    }
  }

  /** No NUL reaches the device. */
  lemma NulIsLost(messages: seq<string>)
    requires Arrives(messages)
    ensures forall i :: 0 <= i < |messages| ==> !HasNul(messages[i])
  {
    forall i | 0 <= i < |messages|
      ensures !HasNul(messages[i])
    {
      ReceivedHasNoNul(Wire(messages), MAX_MESSAGES);
      if HasNul(messages[i]) {
        EncodedNul(messages[i]);
      }
    }
  }

  /** Below the device's limit: not the empty batch, which arrives as one empty message, and
      otherwise those whose every message is NUL-free and fits one read. */
  lemma ArrivesIffDeliverable(messages: seq<string>)
    requires |messages| != MAX_MESSAGES
    ensures Arrives(messages)
       <==> 1 <= |messages| < MAX_MESSAGES && forall i :: 0 <= i < |messages| ==> Deliverable(messages[i])
  {
    if messages == [] {
      EmptyBatchArrivesAsOne();
    } else {
      WireIsLines(messages);
      MessagesHeld(messages, MAX_MESSAGES);
      ReadsBound(LineAll(messages));
      if forall i :: 0 <= i < |messages| ==> Deliverable(messages[i]) {
        if |messages| < MAX_MESSAGES {
          BatchArrives(messages);
        }
      } else if Arrives(messages) {
        NulIsLost(messages);
      }
    }
  }

  /** No message is still one line on the wire. */
  lemma EmptyBatchArrivesAsOne()
    ensures ReceiveAll(Wire([]), MAX_MESSAGES) == [[]]
  {
    EncodeOne('\n');
    assert Join(EscapeAll([])) + "\n" == "\n";
    assert [] + ([NEWLINE] + []) == [NEWLINE];
    FittingLineIsRead([], [], MAX_MESSAGES);
    assert Escape("") == "";
    LineIsReceived("");
    assert Line("") + [NEWLINE] == [] + [NEWLINE];
  }
}
