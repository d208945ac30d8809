/** One user turn of the chat shell: up to four passes; engine, executor and prompts are oracles. */
module TurnLoop {
  import opened Text

  const MAX_TURNS: nat := 4

  datatype Turn = User(text: string) | Assistant(text: string) | Tool(text: string)

  datatype StopReason = Token | ConstraintDone | Length | CallTooLong | StopString | Cancelled | Loop {
    predicate IsComplete() {
      this != Length && this != CallTooLong && this != Cancelled
    }
  }

  datatype ExecutionReason =
    Ok | UnknownTool | InvalidArguments | ToolFailed | ApprovalDenied | ExecutionCancelled | RepeatedCall {
    predicate IsError() {
      this == UnknownTool || this == InvalidArguments || this == ToolFailed
    }
  }

  datatype Outcome = Outcome(reason: ExecutionReason, toModel: string, retryable: bool)

  /** What the oracles answer on one pass. `called` is the text as the history keeps a call, its
      whitespace trimmed; `cancelled` and `repeated` are the two flags as read after generation;
      `outcome` is what executing the text would return. */
  datatype Pass =
    | Refused(reason: string)
    | EngineError(reason: string)
    | Generated(text: string, called: string, stop: StopReason, executable: bool, cancelled: bool, repeated: bool,
                outcome: Option<Outcome>)

  /** What one pass shows the model. */
  datatype Prompt = Prompt(question: string, previous: seq<Turn>, toolsOffered: bool) {
    /** The conversation as the model reads it: the question, if any, comes last. */
    function Conversation(): seq<Turn> {
      previous + if question == "" then [] else [User(question)]
    }
  }

  datatype Result = Result(
    tools: seq<Turn>, answer: string, error: Option<string>, settled: bool,
    prompts: seq<Prompt>, executed: seq<nat>)

  predicate CutOffCanBeRetried(stop: StopReason, pass: nat) {
    (stop == Length || stop == CallTooLong) && pass + 1 < MAX_TURNS
  }

  const PARTLY_DONE: string := "The operation partly went through; I did not retry."

  const BUDGET_RAN_OUT: string := "the turn budget ran out"

  // -------------------------------------------------------------- the passes, as a value

  function PromptFor(history: seq<Turn>, asked: string, tools: seq<Turn>, pass: nat, mustAnswer: bool): Prompt {
    var finalTurn := pass + 1 == MAX_TURNS || mustAnswer;
    if tools == [] then Prompt(asked, history, !finalTurn)
    else Prompt("", history + [User(asked)] + tools, !finalTurn)
  }

  function Ended(tools: seq<Turn>, answer: string, error: Option<string>): Result {
    Result(tools, answer, error, true, [], [])
  }

  function Preceded(prompt: Prompt, executed: seq<nat>, r: Result): Result {
    r.(prompts := [prompt] + r.prompts, executed := executed + r.executed)
  }

  /** How one pass leaves the loop: with an ending, or with more to show the next pass. */
  datatype Verdict =
    | Ends(ran: seq<nat>, tools: seq<Turn>, answer: string, error: Option<string>)
    | Goes(ran: seq<nat>, tools: seq<Turn>, mustAnswer: bool)

  function Call(called: string, toModel: string): seq<Turn> {
    [Assistant(called), Tool(toModel)]
  }

  function Judge(p: Pass, pass: nat, tools: seq<Turn>, mustAnswer: bool): Verdict {
    match p
    case Refused(reason) => Ends([], tools, "", Some(reason))
    case EngineError(reason) => Ends([], tools, "", Some(reason))
    case Generated(text, called, stop, executable, cancelled, repeated, outcome) =>
      if cancelled then Ends([], tools, if repeated then text else "", None)
      else if !stop.IsComplete() then
        if CutOffCanBeRetried(stop, pass) then Goes([], tools, true) else Ends([], tools, "", None)
      else JudgeText(text, called, executable, outcome, pass, tools, mustAnswer)
  }

  /** A completed text: it runs unless the pass is the last one or it is no call. */
  function JudgeText(
      text: string, called: string, executable: bool, outcome: Option<Outcome>,
      pass: nat, tools: seq<Turn>, mustAnswer: bool): Verdict
  {
    if pass + 1 == MAX_TURNS || !executable then Ends([], tools, text, None)
    else
      match outcome
      case None => Ends([pass], tools, text, None)
      case Some(o) =>
        if o.reason.IsError() && !o.retryable then Ends([pass], tools + Call(called, o.toModel), PARTLY_DONE, None)
        else Goes([pass], tools + Call(called, o.toModel), mustAnswer || o.reason == RepeatedCall)
  }

  /** The turn from pass `pass` on, with the tool results of the passes before it. */
  function PassesFrom(
      history: seq<Turn>, asked: string, passes: seq<Pass>, pass: nat, tools: seq<Turn>, mustAnswer: bool): Result
    requires |passes| == MAX_TURNS && pass <= MAX_TURNS
    decreases MAX_TURNS - pass
  {
    if pass == MAX_TURNS then Result(tools, "", Some(BUDGET_RAN_OUT), false, [], [])
    else
      var prompt := PromptFor(history, asked, tools, pass, mustAnswer);
      match Judge(passes[pass], pass, tools, mustAnswer)
      case Ends(ran, all, answer, error) => Preceded(prompt, ran, Ended(all, answer, error))
      case Goes(ran, all, must) => Preceded(prompt, ran, PassesFrom(history, asked, passes, pass + 1, all, must))
  }

  function TurnOf(history: seq<Turn>, asked: string, passes: seq<Pass>): Result
    requires |passes| == MAX_TURNS
  {
    PassesFrom(history, asked, passes, 0, [], false)
  }

  // ---------------------------------------------------------- the same, pass after pass

  /** What a pass starts from. */
  datatype Held = Held(tools: seq<Turn>, mustAnswer: bool)

  const NOTHING_HELD: Held := Held([], false)

  /** What a pass leaves. */
  function After(p: Pass, pass: nat, h: Held): Held {
    match Judge(p, pass, h.tools, h.mustAnswer)
    case Ends(_, tools, _, _) => Held(tools, h.mustAnswer)
    case Goes(_, tools, mustAnswer) => Held(tools, mustAnswer)
  }

  /** What pass `i` of a turn starts from, if the turn gets that far. */
  function HeldAt(passes: seq<Pass>, i: nat): Held
    requires |passes| == MAX_TURNS && i <= MAX_TURNS
  {
    if i == 0 then NOTHING_HELD else After(passes[i - 1], i - 1, HeldAt(passes, i - 1))
  }

  /** What a turn adds to the history. */
  function Block(asked: string, r: Result): seq<Turn> {
    [User(asked)] + r.tools + if r.answer == "" then [] else [Assistant(r.answer)]
  }

  /** The question as asked: the imported summary once, the pipe, the user's words. */
  function Asked(seed: Option<string>, pipe: Option<string>, message: string, suffix: string): string {
    (if seed.Some? then seed.value + "\n\n" else "")
    + (if pipe.Some? then pipe.value + "\n\n" else "") + message + suffix
  }

  // ------------------------------------------------------------------------ the session

  class Session {
    const pipe: Option<string>
    var history: seq<Turn>
    var seed: Option<string>

    constructor (resumed: seq<Turn>, pipe: Option<string>, seed: Option<string>)
      ensures history == resumed && this.pipe == pipe && this.seed == seed
    {
      history, this.pipe, this.seed := resumed, pipe, seed;
    }

    method Clear()
      modifies this`history
      ensures history == []
    {
      history := [];
    }

    method ResumeFrom(summary: string)
      modifies this`seed
      ensures seed == Some(summary)
    {
      seed := Some(summary);
    }

    /** One message: the passes, then the history, written only now. An empty message is
        no turn. */
    method Ask(message: string, suffix: string, passes: seq<Pass>) returns (result: Result)
      requires |passes| == MAX_TURNS
      modifies this
      ensures message == "" ==> history == old(history) && seed == old(seed)
      ensures message != "" ==>
        var asked := Asked(old(seed), pipe, message, suffix);
        && result == TurnOf(old(history), asked, passes)
        && history == old(history) + Block(asked, result)
        && seed == None
    {
      if message == "" {
        return Ended([], "", None);
      }
      var asked := Piped(pipe, message);
      asked := SeedQuestion(asked);
      asked := asked + suffix;
      AskedInOrder(old(seed), pipe, message, suffix);
      result := RunPasses(asked, passes);
      history := history + [User(asked)];
      history := history + result.tools;
      if result.answer != "" {
        history := history + [Assistant(result.answer)];
      }
      BlockInOrder(old(history), asked, result);
    }

    method SeedQuestion(asked: string) returns (seeded: string)
      modifies this`seed
      ensures seed == None
      ensures seeded == if old(seed).Some? then old(seed).value + "\n\n" + asked else asked
    {
      seeded := asked;
      if seed.Some? {
        seeded := seed.value + "\n\n" + asked;
        seed := None;
      }
    }

    method RunPasses(asked: string, passes: seq<Pass>) returns (result: Result)
      requires |passes| == MAX_TURNS
      ensures result == TurnOf(history, asked, passes)
    {
      var tools: seq<Turn>, answer, error: Option<string>, settled, mustAnswer := [], "", None, false, false;
      var prompts: seq<Prompt>, executed: seq<nat> := [], [];
      AtFirstPass(history, asked, passes);
      NeverPastTheLast(history, asked, passes);
      for pass := 0 to MAX_TURNS
        invariant !settled && answer == "" && error == None
        invariant AtPass(history, asked, passes, pass, tools, mustAnswer, prompts, executed)
      {
        ghost var h := Held(tools, mustAnswer);
        var finalTurn := pass + 1 == MAX_TURNS || mustAnswer;
        var firstTurn := tools == [];
        var prompt := if firstTurn then Prompt(asked, history, !finalTurn)
                      else Prompt("", history + [User(asked)] + tools, !finalTurn);
        assert prompt == PromptFor(history, asked, tools, pass, mustAnswer);
        var ran;
        ran, tools, answer, error, settled, mustAnswer := RunPass(passes[pass], pass, tools, mustAnswer);
        if settled {
          PassEnds(history, asked, passes, pass, h, prompts, executed);
        } else {
          PassGoes(history, asked, passes, pass, h, prompts, executed);
        }
        prompts := prompts + [prompt];
        executed := executed + ran;
        if settled {
          break;
        }
      }
      if !settled {
        error := Some(BUDGET_RAN_OUT);
        // every turn settles, so the budget never runs out here
        assert false;
      }
      result := Result(tools, answer, error, settled, prompts, executed);
    }
  }

  /** One pass after its prompt was sent. */
  method RunPass(p: Pass, pass: nat, before: seq<Turn>, must: bool)
      returns (ran: seq<nat>, tools: seq<Turn>, answer: string, error: Option<string>, settled: bool, mustAnswer: bool)
    ensures Judge(p, pass, before, must)
         == if settled then Ends(ran, tools, answer, error) else Goes(ran, tools, mustAnswer)
    ensures !settled ==> answer == "" && error == None
  {
    ran, tools, answer, error, settled, mustAnswer := [], before, "", None, true, must;
    match p {
      case Refused(reason) =>
        error := Some(reason);
      case EngineError(reason) =>
        error := Some(reason);
      case Generated(text, called, stop, executable, cancelled, repeated, outcome) =>
        if cancelled {
          if repeated {
            answer := text;
          }
          return;
        }
        if !stop.IsComplete() {
          if CutOffCanBeRetried(stop, pass) {
            mustAnswer, settled := true, false;
          }
          return;
        }
        ran, tools, answer, settled, mustAnswer := Execute(text, called, executable, outcome, pass, before, must);
    }
  }

  /** The end of a pass that generated a whole text. */
  method Execute(
      text: string, called: string, executable: bool, outcome: Option<Outcome>,
      pass: nat, before: seq<Turn>, must: bool)
      returns (ran: seq<nat>, tools: seq<Turn>, answer: string, settled: bool, mustAnswer: bool)
    ensures JudgeText(text, called, executable, outcome, pass, before, must)
         == if settled then Ends(ran, tools, answer, None) else Goes(ran, tools, mustAnswer)
    ensures !settled ==> answer == ""
  {
    ran, tools, answer, settled, mustAnswer := [], before, "", false, must;
    var lastPass := pass + 1 == MAX_TURNS;
    if !lastPass && executable {
      ran := [pass];
    }
    if lastPass || !executable || outcome.None? {
      answer := text;
      settled := true;
      return;
    }
    var o := outcome.value;
    if o.reason == RepeatedCall {
      mustAnswer := true;
    }
    tools := tools + Call(called, o.toModel);
    if o.reason.IsError() && !o.retryable {
      answer := PARTLY_DONE;
      settled := true;
    }
  }

  function Piped(pipe: Option<string>, message: string): string {
    if pipe.Some? then pipe.value + "\n\n" + message else message
  }

  lemma AskedInOrder(seed: Option<string>, pipe: Option<string>, message: string, suffix: string)
    ensures Asked(seed, pipe, message, suffix)
         == (if seed.Some? then seed.value + "\n\n" + Piped(pipe, message) else Piped(pipe, message)) + suffix
  {}

  /** `x` ends in `y`. */
  predicate EndsIn(x: string, y: string) {
    |y| <= |x| && x[|x| - |y|..] == y
  }

  /** The question ends in the user's own words, right behind the pipe's text, if there is one; it
      begins with the imported summary, if there is one; and there is nothing else in it. */
  lemma QuestionHoldsItsParts(seed: Option<string>, pipe: Option<string>, message: string, suffix: string)
    ensures var asked := Asked(seed, pipe, message, suffix);
            && EndsIn(asked, message + suffix)
            && (pipe.Some? ==> EndsIn(asked, pipe.value + "\n\n" + message + suffix))
            && (seed.Some? ==> seed.value + "\n\n" <= asked)
            && |asked| == |message + suffix| + (if seed.Some? then |seed.value| + 2 else 0)
                          + if pipe.Some? then |pipe.value| + 2 else 0
  {
    var words := message + suffix;
    var above := if pipe.Some? then pipe.value + "\n\n" else "";
    var top := if seed.Some? then seed.value + "\n\n" else "";
    assert Asked(seed, pipe, message, suffix) == top + (above + words);
    assert (top + (above + words))[|top|..] == above + words && (above + words)[|above|..] == words;
    assert pipe.Some? ==> above + words == pipe.value + "\n\n" + message + suffix;
  }

  /** A block is the question, the results, and the answer, if there is one, as they are. */
  lemma BlockHoldsItsParts(asked: string, r: Result)
    ensures var b := Block(asked, r);
            && b[0] == User(asked) && b[1..1 + |r.tools|] == r.tools
            && (r.answer != "" ==> |b| == |r.tools| + 2 && b[|b| - 1] == Assistant(r.answer))
            && (r.answer == "" ==> |b| == |r.tools| + 1)
  {}

  lemma BlockInOrder(history: seq<Turn>, asked: string, r: Result)
    ensures history + Block(asked, r)
         == history + [User(asked)] + r.tools + if r.answer == "" then [] else [Assistant(r.answer)]
    ensures history + [User(asked)] + r.tools + [] == history + [User(asked)] + r.tools
  {}

  function Joined(prompts: seq<Prompt>, executed: seq<nat>, r: Result): Result {
    r.(prompts := prompts + r.prompts, executed := executed + r.executed)
  }

  lemma NothingJoined(r: Result)
    ensures Joined([], [], r) == r
  {
    assert [] + r.prompts == r.prompts && [] + r.executed == r.executed;
  }

  lemma JoinedStep(prompts: seq<Prompt>, executed: seq<nat>, prompt: Prompt, ran: seq<nat>, r: Result)
    ensures Joined(prompts, executed, Preceded(prompt, ran, r)) == Joined(prompts + [prompt], executed + ran, r)
    ensures executed + [] == executed
  {
    ConcatAssociative(prompts, [prompt], r.prompts);
    ConcatAssociative(executed, ran, r.executed);
  }

  /** The loop stands before pass `i`, with these results held and these records kept: whatever
      the rest comes to, recorded after them, is the turn. */
  ghost predicate AtPass(history: seq<Turn>, asked: string, passes: seq<Pass>, i: nat, tools: seq<Turn>,
                         mustAnswer: bool, prompts: seq<Prompt>, executed: seq<nat>)
    requires |passes| == MAX_TURNS && i <= MAX_TURNS
  {
    Joined(prompts, executed, PassesFrom(history, asked, passes, i, tools, mustAnswer))
    == TurnOf(history, asked, passes)
  }

  lemma AtFirstPass(history: seq<Turn>, asked: string, passes: seq<Pass>)
    requires |passes| == MAX_TURNS
    ensures AtPass(history, asked, passes, 0, [], false, [], [])
  {
    NothingJoined(TurnOf(history, asked, passes));
  }

  /** The loop never runs out of passes. */
  lemma NeverPastTheLast(history: seq<Turn>, asked: string, passes: seq<Pass>)
    requires |passes| == MAX_TURNS
    ensures forall tools, mustAnswer, prompts, executed ::
              !AtPass(history, asked, passes, MAX_TURNS, tools, mustAnswer, prompts, executed)
  {
    EveryTurnSettles(history, asked, passes, 0, [], false);
  }

  lemma PassGoes(history: seq<Turn>, asked: string, passes: seq<Pass>, i: nat, h: Held,
                 prompts: seq<Prompt>, executed: seq<nat>)
    requires |passes| == MAX_TURNS && i < MAX_TURNS
    requires AtPass(history, asked, passes, i, h.tools, h.mustAnswer, prompts, executed)
    requires Judge(passes[i], i, h.tools, h.mustAnswer).Goes?
    ensures var v := Judge(passes[i], i, h.tools, h.mustAnswer);
            AtPass(history, asked, passes, i + 1, v.tools, v.mustAnswer,
                   prompts + [PromptFor(history, asked, h.tools, i, h.mustAnswer)], executed + v.ran)
  {
    var v := Judge(passes[i], i, h.tools, h.mustAnswer);
    JoinedStep(prompts, executed, PromptFor(history, asked, h.tools, i, h.mustAnswer), v.ran,
               PassesFrom(history, asked, passes, i + 1, v.tools, v.mustAnswer));
  }

  lemma PassEnds(history: seq<Turn>, asked: string, passes: seq<Pass>, i: nat, h: Held,
                 prompts: seq<Prompt>, executed: seq<nat>)
    requires |passes| == MAX_TURNS && i < MAX_TURNS
    requires AtPass(history, asked, passes, i, h.tools, h.mustAnswer, prompts, executed)
    requires Judge(passes[i], i, h.tools, h.mustAnswer).Ends?
    ensures var v := Judge(passes[i], i, h.tools, h.mustAnswer);
            var prompt := PromptFor(history, asked, h.tools, i, h.mustAnswer);
            && TurnOf(history, asked, passes)
               == Result(v.tools, v.answer, v.error, true, prompts + [prompt], executed + v.ran)
  {
    var v := Judge(passes[i], i, h.tools, h.mustAnswer);
    JoinedStep(prompts, executed, PromptFor(history, asked, h.tools, i, h.mustAnswer), v.ran,
               Ended(v.tools, v.answer, v.error));
    AppendNothing(prompts + [PromptFor(history, asked, h.tools, i, h.mustAnswer)]);
    AppendNothing(executed + v.ran);
  }

  // ---------------------------------------------------------------------- every turn ends

  /** Whatever the oracles answer, a pass settles the turn: on the last one nothing executes, so
      the "budget ran out" ending is never reached. */
  lemma {:induction false} EveryTurnSettles(
      history: seq<Turn>, asked: string, passes: seq<Pass>, pass: nat, tools: seq<Turn>, mustAnswer: bool)
    requires |passes| == MAX_TURNS && pass < MAX_TURNS
    ensures PassesFrom(history, asked, passes, pass, tools, mustAnswer).settled
    ensures |PassesFrom(history, asked, passes, pass, tools, mustAnswer).prompts| >= 1
    decreases MAX_TURNS - pass
  {
    var verdict := Judge(passes[pass], pass, tools, mustAnswer);
    if verdict.Goes? {
      EveryTurnSettles(history, asked, passes, pass + 1, verdict.tools, verdict.mustAnswer);
    }
  }

  // ------------------------------------------------------- reached passes, executed passes

  /** Reached as pass `i`, `p` is handed to the executor, which may still find no call in it. */
  predicate Runs(p: Pass, i: nat) {
    && p.Generated? && !p.cancelled && p.executable && i + 1 < MAX_TURNS
    && (p.stop == Token || p.stop == ConstraintDone || p.stop == StopString || p.stop == Loop)
  }

  /** The tool is unknown, was called wrongly, or failed. */
  predicate Failed(reason: ExecutionReason) {
    reason == UnknownTool || reason == InvalidArguments || reason == ToolFailed
  }

  /** Reached as pass `i`, `p` is followed by another. */
  predicate GoesOn(p: Pass, i: nat) {
    || (p.Generated? && !p.cancelled && (p.stop == Length || p.stop == CallTooLong) && i + 1 < MAX_TURNS)
    || (Runs(p, i) && p.outcome.Some? && (p.outcome.value.retryable || !Failed(p.outcome.value.reason)))
  }

  /** Neither hangs on what the turn has seen so far. */
  lemma JudgeReads(p: Pass, i: nat, tools: seq<Turn>, mustAnswer: bool)
    requires i < MAX_TURNS
    ensures Judge(p, i, tools, mustAnswer).Goes? <==> GoesOn(p, i)
    ensures Judge(p, i, tools, mustAnswer).ran == if Runs(p, i) then [i] else []
  {}

  /** One pass of `r`, and what the turn is from the next on. */
  lemma OnePass(history: seq<Turn>, asked: string, passes: seq<Pass>, pass: nat,
                tools: seq<Turn>, mustAnswer: bool, r: Result) returns (v: Verdict, rest: Result)
    requires |passes| == MAX_TURNS && pass < MAX_TURNS
    requires r == PassesFrom(history, asked, passes, pass, tools, mustAnswer)
    ensures |r.prompts| == 1 + |rest.prompts|
    ensures r.executed == (if Runs(passes[pass], pass) then [pass] else []) + rest.executed
    ensures v.Goes? <==> GoesOn(passes[pass], pass)
    ensures v == Judge(passes[pass], pass, tools, mustAnswer) && r.answer == rest.answer && r.error == rest.error
    ensures v.Goes? ==> rest == PassesFrom(history, asked, passes, pass + 1, v.tools, v.mustAnswer)
    ensures v.Ends? ==> rest == Ended(v.tools, v.answer, v.error)
  {
    v := Judge(passes[pass], pass, tools, mustAnswer);
    JudgeReads(passes[pass], pass, tools, mustAnswer);
    rest := if v.Goes? then PassesFrom(history, asked, passes, pass + 1, v.tools, v.mustAnswer)
            else Ended(v.tools, v.answer, v.error);
    assert r == Preceded(PromptFor(history, asked, tools, pass, mustAnswer), v.ran, rest);
  }

  /** The passes reached from `pass` on, by number. */
  function Reached(passes: seq<Pass>, pass: nat): seq<nat>
    requires |passes| == MAX_TURNS && pass <= MAX_TURNS
    decreases MAX_TURNS - pass
  {
    if pass == MAX_TURNS then []
    else [pass] + if GoesOn(passes[pass], pass) then Reached(passes, pass + 1) else []
  }

  /** Those of them that run. */
  function Executed(passes: seq<Pass>, reached: seq<nat>): seq<nat> {
    if reached == [] then []
    else
      var i := reached[0];
      (if i < |passes| && Runs(passes[i], i) then [i] else []) + Executed(passes, reached[1..])
  }

  lemma {:induction false} ReachedInOrder(passes: seq<Pass>, pass: nat)
    requires |passes| == MAX_TURNS && pass <= MAX_TURNS
    ensures pass + |Reached(passes, pass)| <= MAX_TURNS
    ensures forall i :: 0 <= i < |Reached(passes, pass)| ==> Reached(passes, pass)[i] == pass + i
    decreases MAX_TURNS - pass
  {
    if pass < MAX_TURNS {
      ReachedInOrder(passes, pass + 1);
    }
  }

  /** What a turn shows and executes hangs on its passes alone, not on what they answered. */
  lemma {:induction false} TurnFollowsReached(history: seq<Turn>, asked: string, passes: seq<Pass>, pass: nat,
                                              tools: seq<Turn>, mustAnswer: bool, r: Result)
    requires |passes| == MAX_TURNS && pass <= MAX_TURNS
    requires r == PassesFrom(history, asked, passes, pass, tools, mustAnswer)
    ensures |r.prompts| == |Reached(passes, pass)|
    ensures r.executed == Executed(passes, Reached(passes, pass))
    decreases MAX_TURNS - pass
  {
    if pass < MAX_TURNS {
      var v, rest := OnePass(history, asked, passes, pass, tools, mustAnswer, r);
      ExecutedFirst(passes, pass);
      if v.Goes? {
        TurnFollowsReached(history, asked, passes, pass + 1, v.tools, v.mustAnswer, rest);
      }
    }
  }

  lemma ExecutedFirst(passes: seq<Pass>, pass: nat)
    requires |passes| == MAX_TURNS && pass < MAX_TURNS
    ensures Executed(passes, Reached(passes, pass))
         == (if Runs(passes[pass], pass) then [pass] else [])
            + if GoesOn(passes[pass], pass) then Executed(passes, Reached(passes, pass + 1)) else []
  {
    assert Reached(passes, pass)[1..] == if GoesOn(passes[pass], pass) then Reached(passes, pass + 1) else [];
  }

  lemma {:induction false} ReachedWhen(passes: seq<Pass>, pass: nat, k: nat)
    requires |passes| == MAX_TURNS && pass <= MAX_TURNS && pass <= k
    ensures k < pass + |Reached(passes, pass)| <==> k < MAX_TURNS && forall j :: pass <= j < k ==> GoesOn(passes[j], j)
    decreases MAX_TURNS - pass
  {
    if pass < MAX_TURNS && GoesOn(passes[pass], pass) && pass < k {
      ReachedWhen(passes, pass + 1, k);
    }
  }

  lemma {:induction false} ExecutedWhen(passes: seq<Pass>, reached: seq<nat>, k: nat)
    ensures k in Executed(passes, reached) <==> k in reached && k < |passes| && Runs(passes[k], k)
  {
    if reached != [] {
      ExecutedWhen(passes, reached[1..], k);
      assert reached == [reached[0]] + reached[1..];
    }
  }

  // -------------------------------------------------------------------- what a turn leaves

  /** `k` calls, each answered by its tool. */
  predicate IsToolPairs(ts: seq<Turn>, k: nat) {
    |ts| == 2 * k && forall i :: 0 <= i < k ==> ts[2 * i].Assistant? && ts[2 * i + 1].Tool?
  }

  /** One pass executes at most once, not when it is the last, and only ever adds results. */
  lemma JudgeAdds(p: Pass, pass: nat, tools: seq<Turn>, mustAnswer: bool)
    requires pass < MAX_TURNS
    ensures var v := Judge(p, pass, tools, mustAnswer);
            && (v.ran == [] || (v.ran == [pass] && pass + 1 < MAX_TURNS))
            && tools <= v.tools
            && (v.Goes? && mustAnswer ==> v.mustAnswer)
  {}

  /** Passes of `ran` lie between `pass` and the last and are in order. */
  predicate InOrder(ran: seq<nat>, pass: nat) {
    && (forall i :: 0 <= i < |ran| ==> pass <= ran[i] < MAX_TURNS - 1)
    && (forall i, j :: 0 <= i < j < |ran| ==> ran[i] < ran[j])
  }

  lemma InOrderPrepend(pass: nat, rest: seq<nat>)
    requires InOrder(rest, pass + 1) && pass + 1 < MAX_TURNS
    ensures InOrder([pass] + rest, pass)
  {
    var all := [pass] + rest;
    assert forall i :: 0 < i < |all| ==> all[i] == rest[i - 1];
    forall i, j | 0 <= i < j < |all|
      ensures all[i] < all[j]
    {
      if i > 0 {
        assert rest[i - 1] < rest[j - 1];
      }
    }
  }

  lemma InOrderCons(pass: nat, ran: seq<nat>, rest: seq<nat>)
    requires InOrder(rest, pass + 1) && (ran == [] || (ran == [pass] && pass + 1 < MAX_TURNS))
    ensures InOrder(ran + rest, pass)
  {
    if ran == [] {
      assert ran + rest == rest;
    } else {
      assert ran + rest == [pass] + rest;
      InOrderPrepend(pass, rest);
    }
  }

  /** The passes that execute are distinct, in order, and never the last. */
  lemma {:induction false} ExecutingPasses(
      history: seq<Turn>, asked: string, passes: seq<Pass>, pass: nat, tools: seq<Turn>, mustAnswer: bool)
    requires |passes| == MAX_TURNS && pass <= MAX_TURNS
    ensures InOrder(PassesFrom(history, asked, passes, pass, tools, mustAnswer).executed, pass)
    decreases MAX_TURNS - pass
  {
    if pass < MAX_TURNS {
      var v := Judge(passes[pass], pass, tools, mustAnswer);
      JudgeAdds(passes[pass], pass, tools, mustAnswer);
      if v.Goes? {
        ExecutingPasses(history, asked, passes, pass + 1, v.tools, v.mustAnswer);
        InOrderCons(pass, v.ran, PassesFrom(history, asked, passes, pass + 1, v.tools, v.mustAnswer).executed);
      } else {
        InOrderCons(pass, v.ran, []);
      }
    }
  }

  /** The results held at a pass are pairs, at most one per pass gone by. */
  lemma {:induction false} ToolsArePairs(
      history: seq<Turn>, asked: string, passes: seq<Pass>, pass: nat, tools: seq<Turn>, mustAnswer: bool, k: nat)
      returns (n: nat)
    requires |passes| == MAX_TURNS && pass <= MAX_TURNS
    requires IsToolPairs(tools, k) && k <= pass && k < MAX_TURNS
    ensures k <= n < MAX_TURNS && IsToolPairs(PassesFrom(history, asked, passes, pass, tools, mustAnswer).tools, n)
    decreases MAX_TURNS - pass
  {
    n := k;
    if pass < MAX_TURNS {
      var v := Judge(passes[pass], pass, tools, mustAnswer);
      n := JudgeAddsAPair(passes[pass], pass, tools, mustAnswer, k);
      if v.Goes? {
        n := ToolsArePairs(history, asked, passes, pass + 1, v.tools, v.mustAnswer, n);
      }
    }
  }

  lemma JudgeAddsAPair(p: Pass, pass: nat, tools: seq<Turn>, mustAnswer: bool, k: nat) returns (n: nat)
    requires IsToolPairs(tools, k) && pass < MAX_TURNS
    ensures IsToolPairs(Judge(p, pass, tools, mustAnswer).tools, n)
    ensures k <= n <= k + 1 && (n > k ==> pass + 1 < MAX_TURNS)
  {
    n := if Judge(p, pass, tools, mustAnswer).tools == tools then k else k + 1;
  }

  /** A block is a question, at most three answered calls, and perhaps an answer. */
  predicate IsBlock(b: seq<Turn>) {
    exists k, answered: bool :: 0 <= k < MAX_TURNS && BlockShape(b, k, answered)
  }

  predicate BlockShape(b: seq<Turn>, k: nat, answered: bool) {
    && |b| == 1 + 2 * k + (if answered then 1 else 0)
    && b[0].User? && IsToolPairs(b[1..1 + 2 * k], k)
    && (answered ==> b[|b| - 1].Assistant?)
  }

  lemma TurnLeavesBlock(history: seq<Turn>, asked: string, passes: seq<Pass>)
    requires |passes| == MAX_TURNS
    ensures IsBlock(Block(asked, TurnOf(history, asked, passes)))
  {
    var r := TurnOf(history, asked, passes);
    assert IsToolPairs([], 0);
    var n := ToolsArePairs(history, asked, passes, 0, [], false, 0);
    var b := Block(asked, r);
    assert b[1..1 + 2 * n] == r.tools;
    assert BlockShape(b, n, r.answer != "");
  }

  // ------------------------------------------------------------------- what a pass is shown

  /** What the model is shown while `tools` have run: the history, the question once, the
      results. */
  function Shown(history: seq<Turn>, asked: string, tools: seq<Turn>): seq<Turn> {
    history + [User(asked)] + tools
  }

  lemma ShownExtends(history: seq<Turn>, asked: string, a: seq<Turn>, b: seq<Turn>)
    requires a <= b
    ensures Shown(history, asked, a) <= Shown(history, asked, b)
  {
    assert b == a + b[|a|..];
    assert Shown(history, asked, b) == Shown(history, asked, a) + b[|a|..];
  }

  lemma FirstPrompt(
      history: seq<Turn>, asked: string, passes: seq<Pass>, pass: nat, tools: seq<Turn>, mustAnswer: bool)
    requires |passes| == MAX_TURNS && pass < MAX_TURNS
    ensures var prompts := PassesFrom(history, asked, passes, pass, tools, mustAnswer).prompts;
            |prompts| > 0 && prompts[0] == PromptFor(history, asked, tools, pass, mustAnswer)
  {
    var v := Judge(passes[pass], pass, tools, mustAnswer);
    if v.Goes? {
      assert PassesFrom(history, asked, passes, pass, tools, mustAnswer)
          == Preceded(PromptFor(history, asked, tools, pass, mustAnswer), v.ran,
                      PassesFrom(history, asked, passes, pass + 1, v.tools, v.mustAnswer));
    }
  }

  lemma LaterPrompt(
      history: seq<Turn>, asked: string, passes: seq<Pass>, pass: nat, tools: seq<Turn>, mustAnswer: bool,
      prompts: seq<Prompt>) returns (v: Verdict)
    requires |passes| == MAX_TURNS && pass <= MAX_TURNS
    requires prompts == PassesFrom(history, asked, passes, pass, tools, mustAnswer).prompts && 1 < |prompts|
    ensures pass < MAX_TURNS && v == Judge(passes[pass], pass, tools, mustAnswer) && v.Goes?
    ensures prompts[1..] == PassesFrom(history, asked, passes, pass + 1, v.tools, v.mustAnswer).prompts
  {
    v := Judge(passes[pass], pass, tools, mustAnswer);
  }

  lemma HeldNext(passes: seq<Pass>, i: nat, v: Verdict)
    requires |passes| == MAX_TURNS && i < MAX_TURNS
    requires v == Judge(passes[i], i, HeldAt(passes, i).tools, HeldAt(passes, i).mustAnswer) && v.Goes?
    ensures HeldAt(passes, i + 1) == Held(v.tools, v.mustAnswer)
  {}

  /** The prompts that are left at pass `i` of a turn, and then at the next. */
  predicate LeftAt(history: seq<Turn>, asked: string, passes: seq<Pass>, left: seq<Prompt>, i: nat)
    requires |passes| == MAX_TURNS && i <= MAX_TURNS
  {
    left == PassesFrom(history, asked, passes, i, HeldAt(passes, i).tools, HeldAt(passes, i).mustAnswer).prompts
  }

  lemma LeftNext(history: seq<Turn>, asked: string, passes: seq<Pass>, left: seq<Prompt>, i: nat)
    requires |passes| == MAX_TURNS && i <= MAX_TURNS && LeftAt(history, asked, passes, left, i) && 1 < |left|
    ensures i + 1 < MAX_TURNS && LeftAt(history, asked, passes, left[1..], i + 1)
  {
    var h := HeldAt(passes, i);
    var v := LaterPrompt(history, asked, passes, i, h.tools, h.mustAnswer, left);
    HeldNext(passes, i, v);
  }

  lemma {:induction false} PromptsFrom(
      history: seq<Turn>, asked: string, passes: seq<Pass>, prompts: seq<Prompt>, i: nat)
    requires |passes| == MAX_TURNS && LeftAt(history, asked, passes, prompts, 0) && i < |prompts|
    ensures i < MAX_TURNS && LeftAt(history, asked, passes, prompts[i..], i)
  {
    if i == 0 {
      assert prompts[0..] == prompts;
    } else {
      PromptsFrom(history, asked, passes, prompts, i - 1);
      LeftNext(history, asked, passes, prompts[i - 1..], i - 1);
      assert prompts[i - 1..][1..] == prompts[i..];
    }
  }

  lemma PromptAt(history: seq<Turn>, asked: string, passes: seq<Pass>, i: nat)
    requires |passes| == MAX_TURNS && i < |TurnOf(history, asked, passes).prompts|
    ensures i < MAX_TURNS
    ensures var h := HeldAt(passes, i);
            TurnOf(history, asked, passes).prompts[i] == PromptFor(history, asked, h.tools, i, h.mustAnswer)
  {
    PromptsFrom(history, asked, passes, TurnOf(history, asked, passes).prompts, i);
    var h := HeldAt(passes, i);
    FirstPrompt(history, asked, passes, i, h.tools, h.mustAnswer);
  }

  lemma PromptShows(history: seq<Turn>, asked: string, tools: seq<Turn>, pass: nat, mustAnswer: bool)
    requires asked != ""
    ensures PromptFor(history, asked, tools, pass, mustAnswer).Conversation() == Shown(history, asked, tools)
  {
    var p := PromptFor(history, asked, tools, pass, mustAnswer);
    assert p.Conversation() == Shown(history, asked, tools);
  }

  /** Every pass is shown the history, the question exactly once, and the results so far. */
  lemma QuestionIsShownOnce(history: seq<Turn>, asked: string, passes: seq<Pass>, i: nat)
    requires |passes| == MAX_TURNS && asked != ""
    requires i < |TurnOf(history, asked, passes).prompts|
    ensures i < MAX_TURNS
    ensures TurnOf(history, asked, passes).prompts[i].Conversation()
         == Shown(history, asked, HeldAt(passes, i).tools)
  {
    PromptAt(history, asked, passes, i);
    PromptShows(history, asked, HeldAt(passes, i).tools, i, HeldAt(passes, i).mustAnswer);
  }

  predicate NoQuestions(ts: seq<Turn>) {
    forall i :: 0 <= i < |ts| ==> !ts[i].User?
  }

  /** The results never hold a question, so the one asked is the only one this turn shows. */
  lemma {:induction false} ResultsHoldNoQuestion(passes: seq<Pass>, i: nat)
    requires |passes| == MAX_TURNS && i <= MAX_TURNS
    ensures NoQuestions(HeldAt(passes, i).tools)
  {
    if i > 0 {
      ResultsHoldNoQuestion(passes, i - 1);
    }
  }

  /** So each pass of a turn extends the conversation the one before it showed. */
  lemma PassesExtendOneConversation(history: seq<Turn>, asked: string, passes: seq<Pass>, i: nat)
    requires |passes| == MAX_TURNS && asked != ""
    requires i + 1 < |TurnOf(history, asked, passes).prompts|
    ensures TurnOf(history, asked, passes).prompts[i].Conversation()
         <= TurnOf(history, asked, passes).prompts[i + 1].Conversation()
  {
    QuestionIsShownOnce(history, asked, passes, i);
    QuestionIsShownOnce(history, asked, passes, i + 1);
    JudgeAdds(passes[i], i, HeldAt(passes, i).tools, HeldAt(passes, i).mustAnswer);
    ShownExtends(history, asked, HeldAt(passes, i).tools, HeldAt(passes, i + 1).tools);
  }

  /** The pass asks for prose from the next one on: it was cut off, or it repeated a call. */
  predicate Withdraws(p: Pass) {
    p.Generated? && (!p.stop.IsComplete() || (p.outcome.Some? && p.outcome.value.reason == RepeatedCall))
  }

  lemma {:induction false} MustAnswerIff(passes: seq<Pass>, i: nat)
    requires |passes| == MAX_TURNS && i < MAX_TURNS && forall j :: 0 <= j < i ==> GoesOn(passes[j], j)
    ensures HeldAt(passes, i).mustAnswer <==> exists j :: 0 <= j < i && Withdraws(passes[j])
  {
    if i > 0 {
      MustAnswerIff(passes, i - 1);
      assert GoesOn(passes[i - 1], i - 1);
      GoesWithdrawing(passes[i - 1], i - 1, HeldAt(passes, i - 1));
    }
  }

  lemma GoesWithdrawing(p: Pass, pass: nat, h: Held)
    requires GoesOn(p, pass)
    ensures After(p, pass, h).mustAnswer <==> h.mustAnswer || Withdraws(p)
  {}

  /** Which passes are reached: those before which every pass goes on. */
  lemma ReachedIff(history: seq<Turn>, asked: string, passes: seq<Pass>, i: nat)
    requires |passes| == MAX_TURNS
    ensures i < |TurnOf(history, asked, passes).prompts|
       <==> i < MAX_TURNS && forall j :: 0 <= j < i ==> GoesOn(passes[j], j)
  {
    TurnFollowsReached(history, asked, passes, 0, [], false, TurnOf(history, asked, passes));
    ReachedWhen(passes, 0, i);
  }

  /** Which passes are handed to the executor: every one that is reached and runs. */
  lemma ExecutedIff(history: seq<Turn>, asked: string, passes: seq<Pass>, i: nat)
    requires |passes| == MAX_TURNS
    ensures i in TurnOf(history, asked, passes).executed
       <==> i < |TurnOf(history, asked, passes).prompts| && i < MAX_TURNS && Runs(passes[i], i)
  {
    TurnFollowsReached(history, asked, passes, 0, [], false, TurnOf(history, asked, passes));
    ReachedInOrder(passes, 0);
    ExecutedWhen(passes, Reached(passes, 0), i);
    if i < |Reached(passes, 0)| {
      assert Reached(passes, 0)[i] == i;
    }
  }

  /** Which passes are offered tools: every one but the last, until one is cut off or repeats a
      call, and none after that. */
  lemma ToolsAreOfferedUntil(history: seq<Turn>, asked: string, passes: seq<Pass>, i: nat)
    requires |passes| == MAX_TURNS && i < |TurnOf(history, asked, passes).prompts|
    ensures i < MAX_TURNS
    ensures TurnOf(history, asked, passes).prompts[i].toolsOffered
       <==> i + 1 < MAX_TURNS && forall j :: 0 <= j < i ==> !Withdraws(passes[j])
  {
    PromptAt(history, asked, passes, i);
    ReachedIff(history, asked, passes, i);
    MustAnswerIff(passes, i);
  }

  /** A pass that is offered no tools is handed to the executor all the same if and only if it
      runs and an earlier one was cut off or repeated a call. */
  lemma WithdrawnRunsIff(history: seq<Turn>, asked: string, passes: seq<Pass>, i: nat)
    requires |passes| == MAX_TURNS && i < |TurnOf(history, asked, passes).prompts|
    ensures i < MAX_TURNS
    ensures i in TurnOf(history, asked, passes).executed && !TurnOf(history, asked, passes).prompts[i].toolsOffered
       <==> Runs(passes[i], i) && exists j :: 0 <= j < i && Withdraws(passes[j])
  {
    ToolsAreOfferedUntil(history, asked, passes, i);
    ExecutedIff(history, asked, passes, i);
  }

  /** What an executed pass called and was answered. */
  function CallOf(p: Pass): seq<Turn> {
    if p.Generated? && p.outcome.Some? then [Assistant(p.called), Tool(p.outcome.value.toModel)] else []
  }

  function CallsOf(passes: seq<Pass>, ran: seq<nat>): seq<Turn> {
    if ran == [] then []
    else (if ran[0] < |passes| then CallOf(passes[ran[0]]) else []) + CallsOf(passes, ran[1..])
  }

  /** The results of a turn are those of the passes that executed, each once and in order: a
      pass that is cut off, or an error after a side effect, loses none. */
  lemma {:induction false} ResultsAreWhatRan(
      history: seq<Turn>, asked: string, passes: seq<Pass>, pass: nat, tools: seq<Turn>, mustAnswer: bool)
    requires |passes| == MAX_TURNS && pass <= MAX_TURNS
    ensures var r := PassesFrom(history, asked, passes, pass, tools, mustAnswer);
            r.tools == tools + CallsOf(passes, r.executed)
    decreases MAX_TURNS - pass
  {
    if pass == MAX_TURNS {
      AppendNothing(tools);
    } else {
      var v := Judge(passes[pass], pass, tools, mustAnswer);
      JudgeRuns(passes, pass, tools, mustAnswer);
      if v.Goes? {
        ResultsAreWhatRan(history, asked, passes, pass + 1, v.tools, v.mustAnswer);
        var later := PassesFrom(history, asked, passes, pass + 1, v.tools, v.mustAnswer).executed;
        CallsOfMore(passes, v.ran, later);
        ConcatAssociative(tools, CallsOf(passes, v.ran), CallsOf(passes, later));
      } else {
        AppendNothing(v.ran);
      }
    }
  }

  lemma JudgeRuns(passes: seq<Pass>, pass: nat, tools: seq<Turn>, mustAnswer: bool)
    requires pass < |passes|
    ensures var v := Judge(passes[pass], pass, tools, mustAnswer);
            (v.ran == [] || v.ran == [pass]) && v.tools == tools + CallsOf(passes, v.ran)
  {
    JudgeCalls(passes[pass], pass, tools, mustAnswer);
    assert CallsOf(passes, [pass][1..]) == [];
    AppendNothing(CallOf(passes[pass]));
  }

  lemma JudgeCalls(p: Pass, pass: nat, tools: seq<Turn>, mustAnswer: bool)
    ensures var v := Judge(p, pass, tools, mustAnswer);
            && (v.ran == [] || v.ran == [pass])
            && v.tools == tools + if v.ran == [] then [] else CallOf(p)
  {
    AppendNothing(tools);
  }

  lemma CallsOfMore(passes: seq<Pass>, ran: seq<nat>, later: seq<nat>)
    requires |ran| <= 1
    ensures CallsOf(passes, ran + later) == CallsOf(passes, ran) + CallsOf(passes, later)
  {
    if ran == [] {
      assert ran + later == later;
    } else {
      assert (ran + later)[1..] == later && CallsOf(passes, ran[1..]) == [];
    }
  }

  /** The pass a turn ends on. */
  function LastPass(r: Result): int {
    |r.prompts| - 1
  }

  /** How a turn ends is read off its last pass alone: an error if and only if it was refused or
      the engine failed, and otherwise what it wrote, nothing, or the word that a side effect
      half happened. It never ends on a call that came back in order. */
  lemma {:induction false} LastPassDecides(history: seq<Turn>, asked: string, passes: seq<Pass>, pass: nat,
                                           tools: seq<Turn>, mustAnswer: bool, r: Result)
    requires |passes| == MAX_TURNS && pass < MAX_TURNS
    requires r == PassesFrom(history, asked, passes, pass, tools, mustAnswer)
    ensures 0 <= LastPass(r) && pass + LastPass(r) < MAX_TURNS
    ensures EndsAs(passes[pass + LastPass(r)], pass + LastPass(r), r)
    decreases MAX_TURNS - pass
  {
    var v, rest := OnePass(history, asked, passes, pass, tools, mustAnswer, r);
    if v.Goes? {
      LastPassDecides(history, asked, passes, pass + 1, v.tools, v.mustAnswer, rest);
      EndsAlike(passes[pass + LastPass(r)], pass + LastPass(r), rest, r);
    } else {
      EndsNow(passes[pass], pass, tools, mustAnswer, r);
    }
  }

  lemma EndsAlike(last: Pass, k: nat, a: Result, b: Result)
    requires EndsAs(last, k, a) && a.answer == b.answer && a.error == b.error
    ensures EndsAs(last, k, b)
  {}

  lemma EndsNow(p: Pass, pass: nat, tools: seq<Turn>, mustAnswer: bool, r: Result)
    requires Judge(p, pass, tools, mustAnswer).Ends?
    requires r.answer == Judge(p, pass, tools, mustAnswer).answer && r.error == Judge(p, pass, tools, mustAnswer).error
    ensures EndsAs(p, pass, r)
  {}

  /** The ending `r` is the one that `last`, the pass numbered `k`, calls for. */
  predicate EndsAs(last: Pass, k: nat, r: Result) {
    match last
    case Refused(reason) => r.error == Some(reason) && r.answer == ""
    case EngineError(reason) => r.error == Some(reason) && r.answer == ""
    case Generated(text, called, stop, executable, cancelled, repeated, outcome) =>
      && r.error == None
      && (cancelled ==> r.answer == if repeated then text else "")
      && (!cancelled && !stop.IsComplete() ==> r.answer == "" && !CutOffCanBeRetried(stop, k))
      && (!cancelled && stop.IsComplete() ==>
            if k + 1 == MAX_TURNS || !executable || outcome.None? then r.answer == text
            else r.answer == PARTLY_DONE && outcome.value.reason.IsError() && !outcome.value.retryable)
  }

  // --------------------------------------------------------------------------- whole runs

  /** What the user does between reads of the prompt. */
  datatype Event =
    | Message(message: string, suffix: string, passes: seq<Pass>)
    | ClearHistory
    | Import(summary: string)

  datatype Memory = Memory(history: seq<Turn>, seed: Option<string>)

  predicate IsEvent(e: Event) {
    e.Message? ==> |e.passes| == MAX_TURNS
  }

  function Next(m: Memory, pipe: Option<string>, e: Event): Memory
    requires IsEvent(e)
  {
    match e
    case Message(message, suffix, passes) =>
      if message == "" then m
      else
        var asked := Asked(m.seed, pipe, message, suffix);
        Memory(m.history + Block(asked, TurnOf(m.history, asked, passes)), None)
    case ClearHistory => m.(history := [])
    case Import(summary) => m.(seed := Some(summary))
  }

  function RunAll(m: Memory, pipe: Option<string>, events: seq<Event>): Memory
    requires forall i :: 0 <= i < |events| ==> IsEvent(events[i])
  {
    if events == [] then m
    else Next(RunAll(m, pipe, events[..|events| - 1]), pipe, events[|events| - 1])
  }

  /** The shell's outer loop over one session object. */
  method Chat(resumed: seq<Turn>, pipe: Option<string>, seed: Option<string>, events: seq<Event>)
      returns (history: seq<Turn>)
    requires forall i :: 0 <= i < |events| ==> IsEvent(events[i])
    ensures history == RunAll(Memory(resumed, seed), pipe, events).history
  {
    var session := new Session(resumed, pipe, seed);
    for i := 0 to |events|
      invariant session.pipe == pipe
      invariant Memory(session.history, session.seed) == RunAll(Memory(resumed, seed), pipe, events[..i])
    {
      assert events[..i + 1][..i] == events[..i];
      match events[i] {
        case Message(message, suffix, passes) =>
          var _ := session.Ask(message, suffix, passes);
        case ClearHistory => session.Clear();
        case Import(summary) => session.ResumeFrom(summary);
      }
    }
    assert events[..|events|] == events;
    history := session.history;
  }

  /** The history is `start` and then whole blocks. */
  ghost predicate IsStory(start: seq<Turn>, history: seq<Turn>) {
    exists blocks: seq<seq<Turn>> ::
      history == start + Flatten(blocks) && forall i :: 0 <= i < |blocks| ==> IsBlock(blocks[i])
  }

  lemma StoryBegins(start: seq<Turn>)
    ensures IsStory(start, start)
  {
    var none: seq<seq<Turn>> := [];
    assert start == start + Flatten(none);
  }

  lemma StoryGrows(start: seq<Turn>, history: seq<Turn>, b: seq<Turn>)
    requires IsStory(start, history) && IsBlock(b)
    ensures IsStory(start, history + b)
  {
    var blocks: seq<seq<Turn>> :|
      history == start + Flatten(blocks) && forall i :: 0 <= i < |blocks| ==> IsBlock(blocks[i]);
    FlattenSnoc(blocks, b);
    ConcatAssociative(start, Flatten(blocks), b);
    assert history + b == start + Flatten(blocks + [b]);
    assert forall i :: 0 <= i < |blocks + [b]| ==> IsBlock((blocks + [b])[i]);
  }

  /** Over a whole run the history is the resumed conversation, or nothing once it has been
      cleared, followed by well-formed blocks. */
  lemma {:induction false} HistoryIsAStory(m: Memory, pipe: Option<string>, events: seq<Event>)
    requires forall i :: 0 <= i < |events| ==> IsEvent(events[i])
    ensures IsStory(if ClearHistory in events then [] else m.history, RunAll(m, pipe, events).history)
  {
    if events == [] {
      StoryBegins(m.history);
    } else {
      var before, e := events[..|events| - 1], events[|events| - 1];
      assert events == before + [e];
      HistoryIsAStory(m, pipe, before);
      var now := RunAll(m, pipe, before);
      match e {
        case Message(message, suffix, passes) =>
          var asked := Asked(now.seed, pipe, message, suffix);
          TurnLeavesBlock(now.history, asked, passes);
          if message != "" {
            StoryGrows(if ClearHistory in before then [] else m.history, now.history,
                       Block(asked, TurnOf(now.history, asked, passes)));
          }
        case ClearHistory => StoryBegins([]);
        case Import(_) =>
      }
    }
  }
}
