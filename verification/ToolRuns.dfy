/** Which tools a turn starts: the executor's gates, its record of calls, and the turn around it. */
module ToolRuns {
  import opened Text
  import opened TurnLoop

  /** A call as the record keeps it: the catalog's name and the arguments. */
  type Key = string

  datatype ToolState = Running | Read | Written | NeedsPermission | Failed

  /** How a started tool ends: with a state of its own, or lost. */
  datatype Guarded = Returned(state: ToolState) | Panicked | TimedOut | LeftRunning

  /** One text handed to the executor, and what it meets there. `key` is `None` for a text without
      a call; `cancelledAfter` is read when the tool has come back; `toModel` is the text returned,
      but for a repeated call. */
  datatype Attempt = Attempt(
    key: Option<Key>, cancelledBefore: bool, known: bool, valid: bool, asks: bool, approved: bool,
    guarded: Guarded, cancelledAfter: bool, toModel: string)

  const REPEAT_TEXT: string :=
    "duplicate_call: you already made this exact call in this turn and its result is above. "
    + "Do not repeat it. Either answer the user with what you have, or call a different tool."

  const REPEAT_FAILED_TEXT: string :=
    "duplicate_call: you already made this exact call in this turn and it FAILED — "
    + "there is no result above to use. Repeating it will fail the same way. Change the arguments, "
    + "call a different tool, or tell the user you could not do it."

  // ----------------------------------------------------------------- one call, as a value

  /** What the executor keeps over a turn: the calls started, each with whether it succeeded, and
      whether the world was changed. */
  datatype State = State(calls: map<Key, bool>, worldChanged: bool)

  const NEW_TURN := State(map[], false)

  datatype Reply = Reply(state: State, outcome: Option<Outcome>, started: bool)

  /** The call passes every gate. */
  predicate Passes(s: State, a: Attempt) {
    a.key.Some? && !a.cancelledBefore && a.known && a.valid && a.key.value !in s.calls && (a.asks ==> a.approved)
  }

  /** A lost tool is taken to have changed the world. */
  predicate ChangesWorld(g: Guarded) {
    !g.Returned? || g.state == Written
  }

  function Refused(s: State, reason: ExecutionReason, toModel: string): Reply {
    Reply(s, Some(Outcome(reason, toModel, !s.worldChanged)), false)
  }

  /** The tool came back with a result. */
  predicate Succeeded(g: Guarded) {
    g == Returned(Read) || g == Returned(Written)
  }

  /** The state a started call leaves. */
  function Recorded(s: State, key: Key, g: Guarded): State {
    State(s.calls[key := g == Returned(Read) || g == Returned(Written)], s.worldChanged || ChangesWorld(g))
  }

  function ReasonOf(a: Attempt): ExecutionReason {
    match a.guarded
    case Panicked => ToolFailed
    case TimedOut => ToolFailed
    case LeftRunning => ExecutionCancelled
    case Returned(state) =>
      if a.cancelledAfter then ExecutionCancelled
      else if state == Failed then ToolFailed
      else if state == NeedsPermission then ApprovalDenied
      else ExecutionReason.Ok
  }

  function Attempted(s: State, a: Attempt): Reply {
    if a.key.None? then Reply(s, None, false)
    else if a.cancelledBefore then Refused(s, ExecutionCancelled, a.toModel)
    else if !a.known then Refused(s, UnknownTool, a.toModel)
    else if !a.valid then Refused(s, InvalidArguments, a.toModel)
    else if a.key.value in s.calls then
      Refused(s, RepeatedCall, if s.calls[a.key.value] then REPEAT_TEXT else REPEAT_FAILED_TEXT)
    else if a.asks && !a.approved then Refused(s, ApprovalDenied, a.toModel)
    else
      var after := Recorded(s, a.key.value, a.guarded);
      Reply(after, Some(Outcome(ReasonOf(a), a.toModel, !after.worldChanged)), true)
  }

  // ------------------------------------------------------------------------- the executor

  class ToolExecutor {
    var turnCalls: map<Key, bool>
    var worldChanged: bool

    constructor ()
      ensures Snapshot() == NEW_TURN
    {
      turnCalls, worldChanged := map[], false;
    }

    function Snapshot(): State
      reads this
    {
      State(turnCalls, worldChanged)
    }

    method NewTurn()
      modifies this
      ensures Snapshot() == NEW_TURN
    {
      worldChanged := false;
      turnCalls := map[];
    }

    method ExecuteRaw(a: Attempt) returns (outcome: Option<Outcome>, started: bool)
      modifies this
      ensures Reply(Snapshot(), outcome, started) == Attempted(old(Snapshot()), a)
    {
      started := false;
      if a.key.None? {
        return None, false;
      }
      var key := a.key.value;
      if a.cancelledBefore {
        return Some(Outcome(ExecutionCancelled, a.toModel, !worldChanged)), false;
      }
      if !a.known {
        return Some(Outcome(UnknownTool, a.toModel, !worldChanged)), false;
      }
      if !a.valid {
        return Some(Outcome(InvalidArguments, a.toModel, !worldChanged)), false;
      }
      if key in turnCalls {
        var text := if turnCalls[key] then REPEAT_TEXT else REPEAT_FAILED_TEXT;
        return Some(Outcome(RepeatedCall, text, !worldChanged)), false;
      }
      if a.asks && !a.approved {
        return Some(Outcome(ApprovalDenied, a.toModel, !worldChanged)), false;
      }
      // the call really runs from here on, and is recorded as not yet succeeded
      turnCalls := turnCalls[key := false];
      started := true;
      match a.guarded {
        case Panicked =>
          worldChanged := true;
          outcome := Some(Outcome(ToolFailed, a.toModel, !worldChanged));
        case TimedOut =>
          worldChanged := true;
          outcome := Some(Outcome(ToolFailed, a.toModel, !worldChanged));
        case LeftRunning =>
          worldChanged := true;
          outcome := Some(Outcome(ExecutionCancelled, a.toModel, !worldChanged));
        case Returned(state) =>
          if state == Read || state == Written {
            turnCalls := turnCalls[key := true];
          }
          if state == Written {
            worldChanged := true;
          }
          var reason := ExecutionReason.Ok;
          if a.cancelledAfter {
            reason := ExecutionCancelled;
          } else if state == Failed {
            reason := ToolFailed;
          } else if state == NeedsPermission {
            reason := ApprovalDenied;
          }
          outcome := Some(Outcome(reason, a.toModel, !worldChanged));
      }
    }
  }

  lemma StartedIff(s: State, a: Attempt)
    ensures Attempted(s, a).started <==> Passes(s, a)
    ensures !Attempted(s, a).started ==> Attempted(s, a).state == s
  {}

  /** What the reason alone says: a tool ran, none did, or either, for a denial can come from the
      tool itself and a cancellation while it ran. */
  lemma StartedByReason(s: State, a: Attempt)
    requires Attempted(s, a).outcome.Some?
    ensures var reason := Attempted(s, a).outcome.value.reason;
            && (reason == ExecutionReason.Ok || reason == ToolFailed ==> Attempted(s, a).started)
            && (reason == UnknownTool || reason == InvalidArguments || reason == RepeatedCall ==>
                  !Attempted(s, a).started)
  {}

  /** What a started call comes back as: a lost tool is a failure or a cancellation, and one that
      came back after a cancel is cancelled whatever it did. */
  lemma StartedComesBack(s: State, a: Attempt)
    requires Passes(s, a)
    ensures Attempted(s, a).outcome.Some?
    ensures var reason, g := Attempted(s, a).outcome.value.reason, a.guarded;
            && (reason == ToolFailed
                <==> g == Panicked || g == TimedOut || (g == Returned(Failed) && !a.cancelledAfter))
            && (reason == ExecutionCancelled <==> g == LeftRunning || (g.Returned? && a.cancelledAfter))
            && (reason == ApprovalDenied <==> g == Returned(NeedsPermission) && !a.cancelledAfter)
            && (reason == ExecutionReason.Ok
                <==> !a.cancelledAfter && (Succeeded(g) || g == Returned(Running)))
  {}

  // ------------------------------------------------------------------------ over a turn

  /** What the executor has recorded when pass `i` is reached. */
  function StateBefore(passes: seq<Pass>, attempts: seq<Attempt>, i: nat): State
    requires |passes| == |attempts| == MAX_TURNS && i <= MAX_TURNS
  {
    if i == 0 then NEW_TURN
    else
      var s := StateBefore(passes, attempts, i - 1);
      if Runs(passes[i - 1], i - 1) then Attempted(s, attempts[i - 1]).state else s
  }

  /** The outcomes of a turn are the executor's: what it answers to each pass that is reached and
      handed to it. */
  predicate Possible(passes: seq<Pass>, attempts: seq<Attempt>) {
    && |passes| == |attempts| == MAX_TURNS
    && forall i :: 0 <= i < MAX_TURNS && i < |Reached(passes, 0)| && Runs(passes[i], i) ==>
         passes[i].outcome == Attempted(StateBefore(passes, attempts, i), attempts[i]).outcome
  }

  /** Reached as pass `i`, the text starts a tool. */
  predicate Starts(passes: seq<Pass>, attempts: seq<Attempt>, i: nat)
    requires |passes| == |attempts| == MAX_TURNS && i < MAX_TURNS
  {
    Runs(passes[i], i) && Passes(StateBefore(passes, attempts, i), attempts[i])
  }

  /** The record holds exactly the calls started before. */
  lemma {:induction false} RecordHoldsStarted(passes: seq<Pass>, attempts: seq<Attempt>, i: nat, k: Key)
    requires |passes| == |attempts| == MAX_TURNS && i <= MAX_TURNS
    ensures k in StateBefore(passes, attempts, i).calls
       <==> exists j :: 0 <= j < i && Starts(passes, attempts, j) && attempts[j].key == Some(k)
  {
    if i > 0 {
      RecordHoldsStarted(passes, attempts, i - 1, k);
      StartedIff(StateBefore(passes, attempts, i - 1), attempts[i - 1]);
      if Starts(passes, attempts, i - 1) && attempts[i - 1].key == Some(k) {
        assert k in StateBefore(passes, attempts, i).calls;
      }
    }
  }

  /** No call, the same tool with the same arguments, is started twice in a turn. */
  lemma NoCallStartsTwice(passes: seq<Pass>, attempts: seq<Attempt>, i: nat, j: nat)
    requires |passes| == |attempts| == MAX_TURNS && j < i < MAX_TURNS
    requires Starts(passes, attempts, j) && Starts(passes, attempts, i)
    ensures attempts[i].key != attempts[j].key
  {
    RecordHoldsStarted(passes, attempts, i, attempts[i].key.value);
  }

  /** A pass comes back as a repeated call if and only if it is a well-formed call of a known tool,
      met uncancelled, that an earlier pass of the turn has started. */
  lemma RepeatedIff(passes: seq<Pass>, attempts: seq<Attempt>, i: nat)
    requires Possible(passes, attempts) && i < MAX_TURNS && i < |Reached(passes, 0)| && Runs(passes[i], i)
    ensures passes[i].outcome.Some? && passes[i].outcome.value.reason == RepeatedCall
       <==> && attempts[i].key.Some? && !attempts[i].cancelledBefore && attempts[i].known && attempts[i].valid
            && exists j :: 0 <= j < i && Starts(passes, attempts, j) && attempts[j].key == attempts[i].key
  {
    if attempts[i].key.Some? {
      RecordHoldsStarted(passes, attempts, i, attempts[i].key.value);
    }
  }

  /** What is recorded of a call started before: whether it came back with a result. */
  lemma {:induction false} RecordSays(passes: seq<Pass>, attempts: seq<Attempt>, i: nat, j: nat, k: Key)
    requires |passes| == |attempts| == MAX_TURNS && j < i <= MAX_TURNS
    requires Starts(passes, attempts, j) && attempts[j].key == Some(k)
    ensures k in StateBefore(passes, attempts, i).calls
    ensures StateBefore(passes, attempts, i).calls[k] == Succeeded(attempts[j].guarded)
  {
    if j < i - 1 {
      RecordSays(passes, attempts, i - 1, j, k);
    }
  }

  /** A repeated call is told that its result is above if and only if the earlier call, which
      there is, came back with one; otherwise it is told that it failed. */
  lemma RepeatIsToldTheTruth(passes: seq<Pass>, attempts: seq<Attempt>, i: nat) returns (j: nat)
    requires Possible(passes, attempts) && i < MAX_TURNS && i < |Reached(passes, 0)| && Runs(passes[i], i)
    requires passes[i].outcome.Some? && passes[i].outcome.value.reason == RepeatedCall
    ensures j < i && Starts(passes, attempts, j) && attempts[j].key == attempts[i].key
    ensures passes[i].outcome.value.toModel
         == if Succeeded(attempts[j].guarded) then REPEAT_TEXT else REPEAT_FAILED_TEXT
  {
    RepeatedIff(passes, attempts, i);
    j :| 0 <= j < i && Starts(passes, attempts, j) && attempts[j].key == attempts[i].key;
    RecordSays(passes, attempts, i, j, attempts[i].key.value);
  }

  // --------------------------------------------------------------------- the tool phase

  /** The call stands at every gate but the record's. */
  predicate Callable(a: Attempt) {
    a.key.Some? && !a.cancelledBefore && a.known && a.valid && (a.asks ==> a.approved)
  }

  /** No earlier pass of the turn started the same call. */
  predicate Fresh(passes: seq<Pass>, attempts: seq<Attempt>, i: nat)
    requires |passes| == |attempts| == MAX_TURNS && i < MAX_TURNS
  {
    forall j :: 0 <= j < i && Starts(passes, attempts, j) ==> attempts[j].key != attempts[i].key
  }

  lemma StartsIff(passes: seq<Pass>, attempts: seq<Attempt>, i: nat)
    requires |passes| == |attempts| == MAX_TURNS && i < MAX_TURNS
    ensures Starts(passes, attempts, i)
       <==> Runs(passes[i], i) && Callable(attempts[i]) && Fresh(passes, attempts, i)
  {
    if attempts[i].key.Some? {
      RecordHoldsStarted(passes, attempts, i, attempts[i].key.value);
    }
  }

  /** Withdrawing the tools ends the tool phase of a turn, in that no pass without them starts
      one, if and only if no pass reached after one that was cut off or repeated a call is a
      fresh call that stands at the gates. */
  lemma ToolPhaseEndsIff(history: seq<Turn>, asked: string, passes: seq<Pass>, attempts: seq<Attempt>)
    requires |passes| == |attempts| == MAX_TURNS
    ensures var r := TurnOf(history, asked, passes);
            && |r.prompts| <= MAX_TURNS
            && ((forall i :: 0 <= i < |r.prompts| && !r.prompts[i].toolsOffered ==>
                   !(i in r.executed && Starts(passes, attempts, i)))
                <==> (forall i, j :: 0 <= j < i < |r.prompts| && Withdraws(passes[j]) ==>
                        !(Runs(passes[i], i) && Callable(attempts[i]) && Fresh(passes, attempts, i))))
  {
    var r := TurnOf(history, asked, passes);
    ReachedIff(history, asked, passes, MAX_TURNS);
    forall i | 0 <= i < |r.prompts|
      ensures i in r.executed && Starts(passes, attempts, i) && !r.prompts[i].toolsOffered
         <==> Runs(passes[i], i) && Callable(attempts[i]) && Fresh(passes, attempts, i)
              && exists j :: 0 <= j < i && Withdraws(passes[j])
    {
      WithdrawnRunsIff(history, asked, passes, i);
      StartsIff(passes, attempts, i);
    }
  }

  /** So a turn that answers in prose once its tools are withdrawn starts none without them. */
  lemma ProseEndsToolPhase(history: seq<Turn>, asked: string, passes: seq<Pass>, attempts: seq<Attempt>, i: nat)
    requires |passes| == |attempts| == MAX_TURNS && i < |TurnOf(history, asked, passes).prompts|
    requires forall k, j | 0 <= j < k < MAX_TURNS && k < |TurnOf(history, asked, passes).prompts| ::
               Withdraws(passes[j]) ==> attempts[k].key.None?
    ensures i < MAX_TURNS
    ensures !TurnOf(history, asked, passes).prompts[i].toolsOffered ==>
              !(i in TurnOf(history, asked, passes).executed && Starts(passes, attempts, i))
  {
    ToolPhaseEndsIff(history, asked, passes, attempts);
  }

  function Wrote(text: string, outcome: Option<Outcome>): Pass {
    Generated(text, text, Token, true, false, false, outcome)
  }

  function Calls(key: Option<Key>): Attempt {
    Attempt(key, false, true, true, false, false, Returned(Read), false, "")
  }

  const READ: Option<Outcome> := Some(Outcome(ExecutionReason.Ok, "", true))

  const REPEATED: Option<Outcome> := Some(Outcome(RepeatedCall, REPEAT_TEXT, true))

  const DISOBEDIENT: seq<Pass> :=
    [Wrote("a()", READ), Wrote("a()", REPEATED), Wrote("b()", READ), Wrote("done", None)]

  const ATTEMPTS: seq<Attempt> :=
    [Calls(Some("a|{}")), Calls(Some("a|{}")), Calls(Some("b|{}")), Calls(None)]

  lemma DisobedientStates()
    ensures StateBefore(DISOBEDIENT, ATTEMPTS, 1) == State(map["a|{}" := true], false)
    ensures StateBefore(DISOBEDIENT, ATTEMPTS, 2) == State(map["a|{}" := true], false)
  {}

  lemma DisobedientIsPossible()
    ensures Possible(DISOBEDIENT, ATTEMPTS) && Starts(DISOBEDIENT, ATTEMPTS, 2)
  {
    DisobedientStates();
  }

  /** A turn that repeats its first call, is offered no tools, and starts another tool all the
      same before it answers. */
  lemma WithdrawnToolsCanStillRun()
    ensures Possible(DISOBEDIENT, ATTEMPTS) && Starts(DISOBEDIENT, ATTEMPTS, 2)
    ensures var r := TurnOf([], "q", DISOBEDIENT);
            && |r.prompts| == 4 && r.answer == "done" && !r.prompts[2].toolsOffered && 2 in r.executed
  {
    DisobedientIsPossible();
    assert GoesOn(DISOBEDIENT[0], 0) && GoesOn(DISOBEDIENT[1], 1) && GoesOn(DISOBEDIENT[2], 2);
    ReachedIff([], "q", DISOBEDIENT, 3);
    ReachedIff([], "q", DISOBEDIENT, 4);
    ToolsAreOfferedUntil([], "q", DISOBEDIENT, 2);
    assert Withdraws(DISOBEDIENT[1]);
    ExecutedIff([], "q", DISOBEDIENT, 2);
    LastPassDecides([], "q", DISOBEDIENT, 0, [], false, TurnOf([], "q", DISOBEDIENT));
  }

  // ------------------------------------------------------------------- no second attempt

  /** The tool wrote, or never came back to say so. */
  predicate WroteOrLost(g: Guarded) {
    g == Returned(Written) || g == Panicked || g == TimedOut || g == LeftRunning
  }

  lemma {:induction false} WorldChangedIff(passes: seq<Pass>, attempts: seq<Attempt>, i: nat)
    requires |passes| == |attempts| == MAX_TURNS && i <= MAX_TURNS
    ensures StateBefore(passes, attempts, i).worldChanged
       <==> exists j :: 0 <= j < i && Starts(passes, attempts, j) && WroteOrLost(attempts[j].guarded)
  {
    if i > 0 {
      WorldChangedIff(passes, attempts, i - 1);
      StartedIff(StateBefore(passes, attempts, i - 1), attempts[i - 1]);
    }
  }

  /** An error opens a recovery pass if and only if no tool this turn has changed the world, the
      failed one included; otherwise the turn ends there, saying so. */
  lemma RecoversIffUnchanged(history: seq<Turn>, asked: string, passes: seq<Pass>, attempts: seq<Attempt>, i: nat)
    requires Possible(passes, attempts) && i < |TurnOf(history, asked, passes).prompts| && i < MAX_TURNS
    requires Runs(passes[i], i) && passes[i].outcome.Some? && TurnLoop.Failed(passes[i].outcome.value.reason)
    ensures var r := TurnOf(history, asked, passes);
            && (i + 1 < |r.prompts|
                <==> forall j :: 0 <= j <= i && Starts(passes, attempts, j) ==> !WroteOrLost(attempts[j].guarded))
            && (i + 1 == |r.prompts| ==> r.answer == PARTLY_DONE && r.error == None)
  {
    RetryableWhile(history, asked, passes, attempts, i);
    NextIsReached(history, asked, passes, i);
    if !GoesOn(passes[i], i) {
      EndsPartlyDone(history, asked, passes, i);
    }
  }

  lemma NextIsReached(history: seq<Turn>, asked: string, passes: seq<Pass>, i: nat)
    requires |passes| == MAX_TURNS && i < |TurnOf(history, asked, passes).prompts| && i + 1 < MAX_TURNS
    ensures i + 1 < |TurnOf(history, asked, passes).prompts| <==> GoesOn(passes[i], i)
  {
    ReachedIff(history, asked, passes, i);
    ReachedIff(history, asked, passes, i + 1);
  }

  lemma EndsPartlyDone(history: seq<Turn>, asked: string, passes: seq<Pass>, i: nat)
    requires |passes| == MAX_TURNS && i < MAX_TURNS && Runs(passes[i], i)
    requires i + 1 == |TurnOf(history, asked, passes).prompts|
    requires passes[i].outcome.Some?
    ensures TurnOf(history, asked, passes).answer == PARTLY_DONE && TurnOf(history, asked, passes).error == None
  {
    var r := TurnOf(history, asked, passes);
    LastPassDecides(history, asked, passes, 0, [], false, r);
  }

  lemma RetryableWhile(history: seq<Turn>, asked: string, passes: seq<Pass>, attempts: seq<Attempt>, i: nat)
    requires Possible(passes, attempts) && i < |TurnOf(history, asked, passes).prompts| && i < MAX_TURNS
    requires Runs(passes[i], i) && passes[i].outcome.Some?
    ensures passes[i].outcome.value.retryable
       <==> forall j :: 0 <= j <= i && Starts(passes, attempts, j) ==> !WroteOrLost(attempts[j].guarded)
  {
    TurnFollowsReached(history, asked, passes, 0, [], false, TurnOf(history, asked, passes));
    WorldChangedIff(passes, attempts, i + 1);
    RetryableIff(StateBefore(passes, attempts, i), attempts[i]);
  }

  lemma RetryableIff(s: State, a: Attempt)
    requires Attempted(s, a).outcome.Some?
    ensures Attempted(s, a).outcome.value.retryable <==> !Attempted(s, a).state.worldChanged
  {}
}
