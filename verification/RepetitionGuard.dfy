/** Stopping an answer whose last 240 characters, whitespace collapsed, occur before. */
module RepetitionGuard {
  import opened Text

  const WINDOW: nat := 240
  const STRIDE: nat := 160

  // -------------------------------------------------------------- collapsed whitespace

  /** `split_whitespace`: the maximal runs of other characters. */
  function Words(s: string): seq<string> {
    if s == "" then []
    else
      var before, c := s[..|s| - 1], s[|s| - 1];
      var words := Words(before);
      if IsWhitespace(c) then words
      else if words == [] || IsWhitespace(before[|before| - 1]) then words + [[c]]
      else words[..|words| - 1] + [words[|words| - 1] + [c]]
  }

  /** `join(" ")`. */
  function Join(words: seq<string>): string {
    if words == [] then ""
    else if |words| == 1 then words[0]
    else Join(words[..|words| - 1]) + " " + words[|words| - 1]
  }

  function Flat(s: string): string {
    Join(Words(s))
  }

  /** The text ends between words. */
  predicate AtGap(s: string) {
    s != "" && IsWhitespace(s[|s| - 1])
  }

  lemma {:induction false} WordsAreNonEmpty(s: string)
    ensures forall i :: 0 <= i < |Words(s)| ==> Words(s)[i] != ""
    ensures s != "" && !AtGap(s) ==> Words(s) != []
  {
    if s != "" {
      WordsAreNonEmpty(s[..|s| - 1]);
    }
  }

  /** One more character: nothing, itself, or a space and itself. */
  lemma FlatSnoc(s: string, c: char)
    ensures Flat(s + [c])
         == if IsWhitespace(c) then Flat(s)
            else if Flat(s) != "" && AtGap(s) then Flat(s) + [' ', c]
            else Flat(s) + [c]
  {
    var t := s + [c];
    assert t[..|t| - 1] == s;
    WordsAreNonEmpty(s);
    var words := Words(s);
    if !IsWhitespace(c) && (words == [] || AtGap(s)) {
      assert words != [] ==> Join(words) + " " + [c] == Join(words) + [' ', c];
      assert "" + [c] == [c];
    }
  }

  /** Collapsing a longer text keeps what was there and adds at most a character per character,
      and one for a gap that was open. */
  lemma {:induction false} FlatGrows(a: string, b: string)
    ensures Flat(a) <= Flat(a + b)
    ensures |Flat(a + b)| + (if AtGap(a + b) then 1 else 0) <= |Flat(a)| + |b| + 1
    decreases b
  {
    if b == "" {
      assert a + b == a;
    } else {
      var init, c := b[..|b| - 1], b[|b| - 1];
      assert a + b == (a + init) + [c];
      FlatGrows(a, init);
      FlatSnoc(a + init, c);
    }
  }

  // ------------------------------------------------------------------------- the guard

  /** `contains`. */
  predicate Occurs(text: string, part: string) {
    exists i :: 0 <= i <= |text| && StandsAt(text, part, i)
  }

  /** The collapsed text is long enough and ends in a passage it already holds, whole, before. */
  predicate Repeats(text: string) {
    var flat := Flat(text);
    |flat| > 2 * WINDOW && Occurs(flat[..|flat| - WINDOW], flat[|flat| - WINDOW..])
  }

  datatype State = State(seen: string, checkedAt: nat, stop: bool)

  const START := State("", 0, false)

  function Heard(s: State, visible: string): State {
    var seen := s.seen + visible;
    if Utf8Size(seen) >= s.checkedAt + STRIDE then
      State(seen, Utf8Size(seen), s.stop || Repeats(seen))
    else State(seen, s.checkedAt, s.stop)
  }

  function HeardAll(chunks: seq<string>): State {
    if chunks == [] then START else Heard(HeardAll(chunks[..|chunks| - 1]), chunks[|chunks| - 1])
  }

  class Guard {
    var seen: string
    var checkedAt: nat
    var stop: bool

    constructor ()
      ensures Snapshot() == START
    {
      seen, checkedAt, stop := "", 0, false;
    }

    function Snapshot(): State
      reads this
    {
      State(seen, checkedAt, stop)
    }

    /** The listener's part of one visible fragment. */
    method Listen(visible: string)
      modifies this
      ensures Snapshot() == Heard(old(Snapshot()), visible)
    {
      seen := seen + visible;
      if Utf8Size(seen) >= checkedAt + STRIDE {
        checkedAt := Utf8Size(seen);
        var flat := Join(Words(seen));
        if |flat| > WINDOW * 2 {
          var tail := flat[|flat| - WINDOW..];
          var head := flat[..|flat| - WINDOW];
          if Occurs(head, tail) {
            stop := true;
          }
        }
      }
    }
  }

  /** One answer, fragment by fragment. */
  method Watch(chunks: seq<string>) returns (stopped: bool)
    ensures stopped == HeardAll(chunks).stop
  {
    var guard := new Guard();
    for i := 0 to |chunks|
      invariant guard.Snapshot() == HeardAll(chunks[..i])
    {
      assert chunks[..i + 1][..i] == chunks[..i];
      guard.Listen(chunks[i]);
    }
    assert chunks[..|chunks|] == chunks;
    stopped := guard.stop;
  }

  // -------------------------------------------------------------------------- soundness

  /** The guard stops an answer only at a moment when its text really repeats: two equal
      stretches of 240 characters, the second at the very end, that do not overlap. */
  lemma StopsOnlyOnRepeats(chunks: seq<string>) returns (k: nat)
    requires HeardAll(chunks).stop
    ensures k <= |chunks| && EndsInARepeat(Flat(Flatten(chunks[..k])))
  {
    k := FiringMoment(chunks);
    OccurrenceIsARepeat(Flat(Flatten(chunks[..k])));
  }

  lemma OccurrenceIsARepeat(flat: string)
    requires |flat| > 2 * WINDOW && Occurs(flat[..|flat| - WINDOW], flat[|flat| - WINDOW..])
    ensures EndsInARepeat(flat)
  {
    var head, tail := flat[..|flat| - WINDOW], flat[|flat| - WINDOW..];
    var i :| 0 <= i <= |head| && StandsAt(head, tail, i);
    assert head[i..i + WINDOW] == flat[i..i + WINDOW];
    assert WindowsMatch(flat, i);
  }

  /** The window at `i` is the last one, and ends before it. */
  predicate WindowsMatch(flat: string, i: nat) {
    i + 2 * WINDOW <= |flat| && flat[i..i + WINDOW] == flat[|flat| - WINDOW..]
  }

  ghost predicate EndsInARepeat(flat: string) {
    exists i: nat :: WindowsMatch(flat, i)
  }

  lemma {:induction false} SeenIsFlattened(chunks: seq<string>)
    ensures HeardAll(chunks).seen == Flatten(chunks)
  {
    if chunks != [] {
      var before, last := chunks[..|chunks| - 1], chunks[|chunks| - 1];
      assert chunks == before + [last];
      SeenIsFlattened(before);
      FlattenSnoc(before, last);
    }
  }

  lemma {:induction false} FiringMoment(chunks: seq<string>) returns (k: nat)
    requires HeardAll(chunks).stop
    ensures k <= |chunks| && Repeats(Flatten(chunks[..k]))
  {
    var before := chunks[..|chunks| - 1];
    if HeardAll(before).stop {
      k := FiringMoment(before);
      assert before[..k] == chunks[..k];
    } else {
      k := |chunks|;
      assert chunks[..k] == chunks;
      SeenIsFlattened(chunks);
    }
  }

  /** Fragment `k` brings a check, the text having grown by a stride since the last, and the text
      then repeats. */
  predicate Fires(chunks: seq<string>, k: nat)
    requires 0 < k <= |chunks|
  {
    && Utf8Size(Flatten(chunks[..k])) >= HeardAll(chunks[..k - 1]).checkedAt + STRIDE
    && Repeats(Flatten(chunks[..k]))
  }

  /** An answer has been stopped if and only if some check fired: a later check that does not
      takes nothing back. */
  lemma {:induction false} StopsIffFired(chunks: seq<string>)
    ensures HeardAll(chunks).stop <==> exists k :: 0 < k <= |chunks| && Fires(chunks, k)
  {
    if chunks != [] {
      var before := chunks[..|chunks| - 1];
      StopsIffFired(before);
      SeenIsFlattened(chunks);
      assert chunks[..|chunks|] == chunks;
      forall k | 0 < k <= |before|
        ensures Fires(before, k) <==> Fires(chunks, k)
      {
        assert before[..k] == chunks[..k] && before[..k - 1] == chunks[..k - 1];
      }
      assert HeardAll(chunks).stop <==> HeardAll(before).stop || Fires(chunks, |chunks|);
    }
  }

  // ----------------------------------------------------------------------- completeness

  /** From `start` on, `s` repeats with period `p`. */
  predicate Periodic(s: string, start: nat, p: nat) {
    forall i :: start + p <= i < |s| ==> s[i] == s[i - p]
  }

  lemma {:induction false} PeriodsBack(s: string, start: nat, p: nat, i: nat, m: nat)
    requires Periodic(s, start, p) && start + m * p <= i < |s|
    ensures 0 <= i - m * p && s[i] == s[i - m * p]
    decreases m
  {
    if m > 0 {
      PeriodsBack(s, start, p, i, m - 1);
      assert s[i - (m - 1) * p] == s[i - (m - 1) * p - p];
    }
  }

  /** The smallest whole number of periods that reaches over a window. */
  lemma PeriodsOverWindow(p: nat) returns (m: nat, q: nat)
    requires p >= 1
    ensures q == m * p && WINDOW <= q < WINDOW + p
  {
    m := (WINDOW + p - 1) / p;
    q := m * p;
    var r := (WINDOW + p - 1) % p;
    assert WINDOW + p - 1 == p * m + r && r < p;
  }

  /** A check must stop a looping answer: once a periodic end of the collapsed text covers two
      windows and a period. */
  lemma LoopsAreRepeats(text: string, start: nat, p: nat)
    requires p >= 1 && start + 2 * WINDOW + p <= |Flat(text)| && Periodic(Flat(text), start, p)
    ensures Repeats(text)
  {
    PeriodicTextRepeats(Flat(text), start, p);
  }

  lemma PeriodicTextRepeats(flat: string, start: nat, p: nat)
    requires p >= 1 && start + 2 * WINDOW + p <= |flat| && Periodic(flat, start, p)
    ensures Occurs(flat[..|flat| - WINDOW], flat[|flat| - WINDOW..])
  {
    var m, q := PeriodsOverWindow(p);
    var a := |flat| - WINDOW;
    var i := a - q;
    forall k | a <= k < |flat|
      ensures flat[k - q] == flat[k]
    {
      PeriodsBack(flat, start, p, k, m);
    }
    assert flat[i..i + WINDOW] == flat[a..];
    assert flat[..a][i..i + WINDOW] == flat[i..i + WINDOW];
    assert StandsAt(flat[..a], flat[a..], i);
  }

  /** A prefix was checked, and the text has grown by less than one stride since. */
  ghost predicate RecentlyChecked(s: State, checked: string) {
    && checked <= s.seen && Utf8Size(checked) == s.checkedAt
    && Utf8Size(s.seen) < s.checkedAt + STRIDE
    && (checked != "" && Repeats(checked) ==> s.stop)
  }

  lemma {:induction false} LastCheck(chunks: seq<string>) returns (checked: string)
    ensures RecentlyChecked(HeardAll(chunks), checked)
  {
    if chunks == [] {
      checked := "";
    } else {
      var before := HeardAll(chunks[..|chunks| - 1]);
      var now := HeardAll(chunks);
      checked := LastCheck(chunks[..|chunks| - 1]);
      if Utf8Size(now.seen) >= before.checkedAt + STRIDE {
        checked := now.seen;
      }
    }
  }

  /** However the answer was cut into fragments, and however rarely the guard looks: an answer
      whose collapsed text ends in a loop that covers two windows, a period and a stride has
      been stopped. */
  lemma LoopingAnswerIsStopped(chunks: seq<string>, start: nat, p: nat)
    requires p >= 1 && Periodic(Flat(Flatten(chunks)), start, p)
    requires start + 2 * WINDOW + p + STRIDE <= |Flat(Flatten(chunks))|
    ensures HeardAll(chunks).stop
  {
    var checked := LastCheck(chunks);
    var text := HeardAll(chunks).seen;
    SeenIsFlattened(chunks);
    var since := text[|checked|..];
    assert text == checked + since;
    Utf8SizeConcat(checked, since);
    Utf8SizeBounds(since);
    FlatGrows(checked, since);
    var flat, all := Flat(checked), Flat(text);
    assert |flat| >= start + 2 * WINDOW + p;
    assert forall i :: 0 <= i < |flat| ==> flat[i] == all[i];
    LoopsAreRepeats(checked, start, p);
  }
}
