/** Exactly which batches survive the wire, the device's limit of 4096 messages included. With
    the last slot filled nothing more is read, so a line cut short can go unnoticed. */
module TransportLimit {
  import opened Text
  import opened Utf8
  import opened Transport

  predicate EndsInBackslash(t: string) {
    t != "" && t[|t| - 1] == '\\'
  }

  lemma {:induction false} UnescapeIsNoLonger(line: seq<byte>)
    ensures |UnescapeBytes(line)| <= |line|
  {
    if line != [] {
      if line[0] == BACKSLASH && |line| > 1 {
        UnescapeIsNoLonger(line[2..]);
      } else {
        UnescapeIsNoLonger(line[1..]);
      }
    }
  }

  lemma EncodesOneBackslash(t: string)
    ensures Encode(t) == [BACKSLASH] <==> t == "\\"
  {
    if t != "" {
      assert t == [t[0]] + t[1..];
      assert Encode(t) == EncodeChar(t[0]) + Encode(t[1..]);
      if t[1..] == "" {
        assert Encode(t) == EncodeChar(t[0]);
      } else {
        assert |Encode(t[1..])| >= Utf8Width(t[1]);
      }
    }
  }

  /** The cut falls inside the first character, `head`. */
  lemma CutInFirst(t: string, head: seq<byte>, tail: seq<byte>, k: nat)
    requires t != "" && head == Encode(EscapeChar(t[0])) && k < |head|
    requires tail == [] <==> t[1..] == ""
    ensures UnescapeBytes((head + tail)[..k]) == Encode(t) <==> k + 1 == |head + tail| && EndsInBackslash(t)
  {
    EscapedCharBytes(t[0]);
    assert (head + tail)[..k] == head[..k];
    if |EscapeChar(t[0])| == 2 {
      CutEscaped(t, head, tail, k);
    } else {
      CutPlain(t, head, tail, k);
    }
  }

  lemma CutEscaped(t: string, head: seq<byte>, tail: seq<byte>, k: nat)
    requires t != "" && |head| == 2 && head[0] == BACKSLASH && k < 2
    requires tail == [] <==> t[1..] == ""
    ensures UnescapeBytes(head[..k]) == Encode(t) <==> k + 1 == |head + tail| && EndsInBackslash(t)
  {
    assert t == [t[0]] + t[1..];
    assert head[..k] == if k == 0 then [] else [BACKSLASH];
    CutPair(t, head[..k]);
  }

  lemma CutPair(t: string, half: seq<byte>)
    requires t != "" && (half == [] || half == [BACKSLASH])
    ensures UnescapeBytes(half) == Encode(t) <==> half == [BACKSLASH] && t == "\\"
  {
    EncodesOneBackslash(t);
    assert [BACKSLASH][1..] == [];
    assert Encode(t) != [];
  }

  lemma CutPlain(t: string, head: seq<byte>, tail: seq<byte>, k: nat)
    requires t != "" && t[0] != '\\' && head == EncodeChar(t[0]) && k < |head|
    requires tail == [] <==> t[1..] == ""
    ensures UnescapeBytes(head[..k]) != Encode(t) && !(k + 1 == |head + tail| && EndsInBackslash(t))
  {
    UnescapeIsNoLonger(head[..k]);
    assert |Encode(t)| >= |head|;
  }

  /** A line cut short is understood as the whole message in one case only: the byte cut off is
      the second half of an escaped backslash. */
  lemma {:induction false} CutLine(t: string, k: nat)
    requires k < |Line(t)|
    ensures UnescapeBytes(Line(t)[..k]) == Encode(t) <==> k + 1 == |Line(t)| && EndsInBackslash(t)
    decreases t
  {
    var head, tail := Encode(EscapeChar(t[0])), Line(t[1..]);
    LineCons(t);
    if k < |head| {
      CutInFirst(t, head, tail, k);
    } else {
      var left := tail[..k - |head|];
      assert Line(t)[..k] == head + left;
      UnescapeHead(t[0], left);
      CutLine(t[1..], k - |head|);
      Cancel(EncodeChar(t[0]), UnescapeBytes(left), Encode(t[1..]));
    }
  }

  lemma UnescapeHead(c: char, left: seq<byte>)
    ensures UnescapeBytes(Encode(EscapeChar(c)) + left) == EncodeChar(c) + UnescapeBytes(left)
  {
    var head := Encode(EscapeChar(c));
    EscapedCharBytes(c);
    if |EscapeChar(c)| == 2 {
      assert (head + left)[2..] == left;
    } else {
      UnescapePlain(head, left);
    }
  }

  lemma Cancel<T>(a: seq<T>, b: seq<T>, c: seq<T>)
    ensures a + b == a + c <==> b == c
  {
    assert (a + b)[|a|..] == b && (a + c)[|a|..] == c;
  }

  // ------------------------------------------------------------- lines and what they send

  predicate Ends(text: seq<byte>) {
    text != [] && text[|text| - 1] == BACKSLASH
  }

  /** `line` goes over the wire whole as `text`, and cut by the buffer as `text` only when the byte
      lost is the second half of an escaped backslash. */
  predicate Sends(line: seq<byte>, text: seq<byte>) {
    && NEWLINE !in line && RETURN !in line && NUL !in line
    && UnescapeBytes(line) == text
    && (Ends(text) ==> line != [] && line[|line| - 1] == BACKSLASH)
    && (|line| >= LINE_BUFFER ==>
          (UnescapeBytes(line[..LINE_BUFFER - 1]) == text <==> |line| == LINE_BUFFER && Ends(text)))
  }

  predicate SendAll(lines: seq<seq<byte>>, texts: seq<seq<byte>>) {
    |lines| == |texts| && forall i :: 0 <= i < |lines| ==> Sends(lines[i], texts[i])
  }

  predicate AllText(texts: seq<seq<byte>>, x: seq<byte>) {
    forall i :: 0 <= i < |texts| ==> texts[i] == x
  }

  /** A line over-long by so little that the rest of it stands for the next, and so on to the end:
      511 bytes and then only empty texts, or 512 bytes ending in a backslash and then only
      backslashes. */
  predicate CutPasses(line: seq<byte>, text: seq<byte>, later: seq<seq<byte>>) {
    || (|line| == LINE_BUFFER - 1 && AllText(later, []))
    || (|line| == LINE_BUFFER && Ends(text) && AllText(later, [BACKSLASH]))
  }

  predicate FullFits(lines: seq<seq<byte>>, texts: seq<seq<byte>>)
    requires |lines| == |texts|
  {
    lines == [] ||
      if |lines[0]| + 2 <= LINE_BUFFER then FullFits(lines[1..], texts[1..])
      else CutPasses(lines[0], texts[0], texts[1..])
  }

  lemma FittingIsCarried(line: seq<byte>, text: seq<byte>)
    requires Sends(line, text) && |line| + 2 <= LINE_BUFFER
    ensures Carries(line, text)
  {
    var whole := line + [NEWLINE];
    CStringOf(whole);
    assert whole[..|whole| - 1] == line;
    assert StripEnd(line) == line;
  }

  lemma {:induction false} UnescapeIsAtLeastHalf(line: seq<byte>)
    ensures |line| <= 2 * |UnescapeBytes(line)|
  {
    if line != [] {
      if line[0] == BACKSLASH && |line| > 1 {
        UnescapeIsAtLeastHalf(line[2..]);
      } else {
        UnescapeIsAtLeastHalf(line[1..]);
      }
    }
  }

  /** What is held is moved down by one, `x` filling the gap: that goes unnoticed only if it is
      `x` all the way. */
  lemma {:induction false} Shifted(lines: seq<seq<byte>>, held: seq<seq<byte>>, x: seq<byte>)
    requires |lines| == |held| > 0
    requires forall i :: 0 <= i < |held| && held[i] == x ==> Carries(lines[i], x)
    ensures [x] + ReceiveAll(Terminated(lines), |lines| - 1) == held <==> forall i :: 0 <= i < |held| ==> held[i] == x
    decreases lines
  {
    var got, rest := ReceiveAll(Terminated(lines), |lines| - 1), lines[1..];
    assert held == [held[0]] + held[1..];
    if |lines| == 1 {
      assert got == [] && [x] + got == [x];
    } else if held[0] == x {
      assert Carries(lines[0], x);
      ConcatAssociative(lines[0], [NEWLINE], Terminated(rest));
      FittingLineIsRead(lines[0], Terminated(rest), |lines| - 1);
      assert got == [x] + ReceiveAll(Terminated(rest), |rest| - 1);
      Shifted(rest, held[1..], x);
      Cancel([x], got, held[1..]);
      assert forall i :: 0 < i < |held| ==> held[i] == held[1..][i - 1];
    } else {
      assert ([x] + got)[0] == x;
    }
  }

  /** A line of which one read leaves `left` over. */
  lemma {:induction false} CutRead(line: seq<byte>, rest: seq<byte>, slots: nat)
    requires NEWLINE !in line && NUL !in line && RETURN !in line && |line| >= LINE_BUFFER - 1 && slots > 0
    ensures ReceiveAll(line + ([NEWLINE] + rest), slots)
         == [UnescapeBytes(line[..LINE_BUFFER - 1])]
            + ReceiveAll(line[LINE_BUFFER - 1..] + ([NEWLINE] + rest), slots - 1)
  {
    var input, n := line + ([NEWLINE] + rest), LINE_BUFFER - 1;
    ReadsOneLine(line, rest, n);
    assert input[..n] == line[..n];
    assert input[n..] == line[n..] + ([NEWLINE] + rest);
    CStringOf(line[..n]);
    assert line[..n][n - 1] == line[n - 1];
  }

  /** `left` of a cut line is read as one more `x`; the rest of the batch follows. */
  lemma LeftOver(left: seq<byte>, x: seq<byte>, lines: seq<seq<byte>>, held: seq<seq<byte>>)
    requires Carries(left, x) && |lines| == |held|
    requires forall i :: 0 <= i < |held| && held[i] == x ==> Carries(lines[i], x)
    ensures ReceiveAll(left + ([NEWLINE] + Terminated(lines)), |lines|) == held
       <==> forall i :: 0 <= i < |held| ==> held[i] == x
  {
    if lines != [] {
      FittingLineIsRead(left, Terminated(lines), |lines|);
      Shifted(lines, held, x);
    }
  }

  /** What a rest of a line can be, and what it is then read as. */
  lemma RestIsCarried(x: seq<byte>)
    requires x == [] || x == [BACKSLASH]
    ensures Carries(x, x)
  {
    assert [BACKSLASH][1..] == [];
    FittingIsCarried(x, x);
  }

  lemma RestOfBatch(x: seq<byte>, lines: seq<seq<byte>>, texts: seq<seq<byte>>)
    requires (x == [] || x == [BACKSLASH]) && SendAll(lines, texts)
    ensures ReceiveAll(x + ([NEWLINE] + Terminated(lines)), |lines|) == texts <==> AllText(texts, x)
  {
    RestIsCarried(x);
    forall i | 0 <= i < |texts| && texts[i] == x
      ensures Carries(lines[i], x)
    {
      UnescapeIsAtLeastHalf(lines[i]);
      FittingIsCarried(lines[i], x);
    }
    LeftOver(x, x, lines, texts);
  }

  lemma SameHead<T>(a: T, x: seq<T>, b: T, y: seq<T>)
    ensures [a] + x == [b] + y <==> a == b && x == y
  {
    assert ([a] + x)[0] == a && ([b] + y)[0] == b;
    assert ([a] + x)[1..] == x && ([b] + y)[1..] == y;
  }

  /** What a first over-long line does to a batch that fills the device. */
  lemma FirstIsCut(line: seq<byte>, text: seq<byte>, lines: seq<seq<byte>>, texts: seq<seq<byte>>,
                   held: seq<seq<byte>>)
    requires Sends(line, text) && |line| + 2 > LINE_BUFFER && SendAll(lines, texts)
    requires held == ReceiveAll(line + ([NEWLINE] + Terminated(lines)), |lines| + 1)
    ensures held == [text] + texts <==> CutPasses(line, text, texts)
  {
    var n := LINE_BUFFER - 1;
    CutRead(line, Terminated(lines), |lines| + 1);
    var first, more := UnescapeBytes(line[..n]), ReceiveAll(line[n..] + ([NEWLINE] + Terminated(lines)), |lines|);
    assert held == [first] + more;
    SameHead(first, more, text, texts);
    CutRests(line, text, lines, texts);
  }

  /** What the rest of a cut line and the lines after it come to. */
  lemma CutRests(line: seq<byte>, text: seq<byte>, lines: seq<seq<byte>>, texts: seq<seq<byte>>)
    requires Sends(line, text) && |line| + 2 > LINE_BUFFER && SendAll(lines, texts)
    ensures UnescapeBytes(line[..LINE_BUFFER - 1]) == text
            && ReceiveAll(line[LINE_BUFFER - 1..] + ([NEWLINE] + Terminated(lines)), |lines|) == texts
       <==> CutPasses(line, text, texts)
  {
    var n := LINE_BUFFER - 1;
    if |line| == n {
      assert line[..n] == line && line[n..] == [];
      RestOfBatch([], lines, texts);
    } else if |line| == LINE_BUFFER && Ends(text) {
      assert line[n..] == [BACKSLASH];
      RestOfBatch([BACKSLASH], lines, texts);
    }
  }

  lemma FirstFits(line: seq<byte>, text: seq<byte>, lines: seq<seq<byte>>, texts: seq<seq<byte>>,
                  held: seq<seq<byte>>)
    requires Carries(line, text)
    requires held == ReceiveAll(line + ([NEWLINE] + Terminated(lines)), |lines| + 1)
    ensures held == [text] + texts <==> ReceiveAll(Terminated(lines), |lines|) == texts
  {
    var later := ReceiveAll(Terminated(lines), |lines|);
    FittingLineIsRead(line, Terminated(lines), |lines| + 1);
    assert held == [text] + later;
    SameHead(text, later, text, texts);
  }

  lemma {:induction false} FullLines(lines: seq<seq<byte>>, texts: seq<seq<byte>>)
    requires SendAll(lines, texts)
    ensures ReceiveAll(Terminated(lines), |lines|) == texts <==> FullFits(lines, texts)
  {
    if lines == [] {
      assert texts == [];
    } else {
      var line, text, later, more := lines[0], texts[0], lines[1..], texts[1..];
      assert texts == [text] + more;
      assert Sends(line, text);
      ConcatAssociative(line, [NEWLINE], Terminated(later));
      var held := ReceiveAll(line + ([NEWLINE] + Terminated(later)), |later| + 1);
      if |line| + 2 <= LINE_BUFFER {
        FullLines(later, more);
        FittingIsCarried(line, text);
        FirstFits(line, text, later, more, held);
      } else {
        FirstIsCut(line, text, later, more, held);
      }
    }
  }

  // ----------------------------------------------------------------- the full batch

  predicate AllAre(messages: seq<string>, x: string) {
    forall i :: 0 <= i < |messages| ==> messages[i] == x
  }

  predicate NulFree(messages: seq<string>) {
    forall i :: 0 <= i < |messages| ==> !HasNul(messages[i])
  }

  predicate AllFit(messages: seq<string>) {
    forall i :: 0 <= i < |messages| ==> FitsLine(messages[i])
  }

  /** The first message over-long by so little that the rest of its line stands for the next
      message, and so on to the end: 511 bytes and then only empty messages, or 512 bytes ending
      in a backslash and then only backslashes. */
  predicate CutUnnoticed(messages: seq<string>)
    requires messages != []
  {
    || (|Line(messages[0])| == LINE_BUFFER - 1 && AllAre(messages[1..], ""))
    || (|Line(messages[0])| == LINE_BUFFER && EndsInBackslash(messages[0]) && AllAre(messages[1..], "\\"))
  }

  /** Every message fits its line up to the last, or up to one whose cut goes unnoticed. */
  predicate FitsWhenFull(messages: seq<string>) {
    messages == [] || if FitsLine(messages[0]) then FitsWhenFull(messages[1..]) else CutUnnoticed(messages)
  }

  lemma EscapedBackslash()
    ensures Encode(Escape("\\")) == [BACKSLASH, BACKSLASH]
  {
    EscapeOne('\\');
    EscapedCharBytes('\\');
    assert EscapeChar('\\')[1..] == ['\\'];
    EncodeOne('\\');
  }

  lemma LastByte(t: string)
    requires EndsInBackslash(t)
    ensures Line(t) != [] && Line(t)[|Line(t)| - 1] == BACKSLASH
  {
    var init := t[..|t| - 1];
    assert t == init + "\\";
    EscapeConcat(init, "\\");
    EncodeConcat(Escape(init), Escape("\\"));
    EscapedBackslash();
  }

  lemma {:induction false} EndsAlike(t: string)
    ensures Ends(Encode(t)) <==> EndsInBackslash(t)
  {
    if t != "" {
      if |t| == 1 {
        assert t[1..] == "";
        assert Encode(t) == EncodeChar(t[0]);
      } else {
        EndsAlike(t[1..]);
        assert Encode(t[1..]) != [];
      }
    }
  }

  lemma MessageSends(t: string)
    requires !HasNul(t)
    ensures Sends(Line(t), Encode(t))
  {
    LineBytes(t);
    UnescapeUndoesEscape(t);
    EndsAlike(t);
    if EndsInBackslash(t) {
      LastByte(t);
    }
    if |Line(t)| >= LINE_BUFFER {
      CutLine(t, LINE_BUFFER - 1);
    }
  }

  lemma TextsAlike(messages: seq<string>)
    ensures AllText(EncodeAll(messages), []) <==> AllAre(messages, "")
    ensures AllText(EncodeAll(messages), [BACKSLASH]) <==> AllAre(messages, "\\")
  {
    forall i | 0 <= i < |messages|
      ensures EncodeAll(messages)[i] == [] <==> messages[i] == ""
      ensures EncodeAll(messages)[i] == [BACKSLASH] <==> messages[i] == "\\"
    {
      EncodesOneBackslash(messages[i]);
    }
  }

  lemma {:induction false} FitsAlike(messages: seq<string>, lines: seq<seq<byte>>, texts: seq<seq<byte>>)
    requires lines == LineAll(messages) && texts == EncodeAll(messages)
    ensures FullFits(lines, texts) <==> FitsWhenFull(messages)
    decreases messages
  {
    if messages != [] {
      assert lines[1..] == LineAll(messages[1..]) && texts[1..] == EncodeAll(messages[1..]);
      if FitsLine(messages[0]) {
        FitsAlike(messages[1..], lines[1..], texts[1..]);
      } else {
        EndsAlike(messages[0]);
        TextsAlike(messages[1..]);
      }
    }
  }

  /** Which batches of as many messages as the device holds are held as sent. */
  lemma FullBatch(messages: seq<string>)
    requires NulFree(messages)
    ensures ReceiveAll(Lines(messages), |messages|) == EncodeAll(messages) <==> FitsWhenFull(messages)
  {
    forall i | 0 <= i < |messages|
      ensures Sends(LineAll(messages)[i], EncodeAll(messages)[i])
    {
      MessageSends(messages[i]);
    }
    FullLines(LineAll(messages), EncodeAll(messages));
    FitsAlike(messages, LineAll(messages), EncodeAll(messages));
  }

  /** Exactly which batches the device ends up holding. */
  lemma ArrivesExactly(messages: seq<string>)
    ensures Arrives(messages)
       <==> 1 <= |messages| <= MAX_MESSAGES && NulFree(messages)
            && (if |messages| < MAX_MESSAGES then AllFit(messages) else FitsWhenFull(messages))
  {
    if |messages| != MAX_MESSAGES {
      ArrivesIffDeliverable(messages);
    } else {
      WireIsLines(messages);
      if Arrives(messages) {
        NulIsLost(messages);
      }
      if NulFree(messages) {
        FullBatch(messages);
      }
    }
  }
}
