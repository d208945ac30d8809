/** Cancelling a turn: chat, keys, guard and two-step SIGINT handlers interleave over two flags. */
module Interrupt {
  import TurnLoop

  /** Where the chat thread stands. */
  datatype Where =
    | Idle
    | Cleared                   // CANCEL reset, the turn not yet marked as running
    | Generating(pass: nat)
    | Checked(pass: nat)        // CANCEL was read as unset after generation
    | Executing(pass: nat)
    | Ending

  datatype Event =
    | ClearFlag                 // the chat thread
    | TurnOn
    | Check
    | Execute
    | Return
    | NextPass
    | Stop
    | TurnOff
    | Key                       // the key thread
    | GuardFires                // the listener, during generation
    | Load(id: nat)             // SIGINT handler `id`: TURN_RUNNING read
    | Swap(id: nat)             // SIGINT handler `id`: CANCEL swapped

  /** `turns` counts the turns begun; `loaded` holds the handlers that saw a turn running, with
      that turn's number. */
  datatype State = State(
    at: Where, running: bool, cancel: bool, alive: bool, turns: nat, loaded: map<nat, nat>)

  const INITIAL := State(Idle, false, false, true, 0, map[])

  predicate Enabled(s: State, e: Event) {
    && s.alive
    && match e
       case ClearFlag => s.at == Idle
       case TurnOn => s.at == Cleared
       case Check => s.at.Generating?
       case Execute => s.at.Checked? && s.at.pass + 1 < TurnLoop.MAX_TURNS
       case Return => s.at.Executing?
       // a retried cut-off goes round without executing
       case NextPass => s.at.Checked? && s.at.pass + 1 < TurnLoop.MAX_TURNS
       // an answer, an error, a refused prompt, a side effect
       case Stop => s.at.Generating? || s.at.Checked? || s.at.Executing?
       case TurnOff => s.at == Ending
       case Key => true
       case GuardFires => s.at.Generating?
       case Load(id) => id !in s.loaded
       case Swap(id) => id in s.loaded
  }

  function Step(s: State, e: Event): State
    requires Enabled(s, e)
  {
    match e
    case ClearFlag => s.(at := Cleared, cancel := false)
    case TurnOn => s.(at := Generating(0), running := true, turns := s.turns + 1)
    case Check => s.(at := if s.cancel then Ending else Checked(s.at.pass))
    case Execute => s.(at := Executing(s.at.pass))
    case Return => s.(at := Generating(s.at.pass + 1))
    case NextPass => s.(at := Generating(s.at.pass + 1))
    case Stop => s.(at := Ending)
    case TurnOff => s.(at := Idle, running := false)
    case Key => s.(cancel := true)
    case GuardFires => s.(cancel := true)
    case Load(id) => if s.running then s.(loaded := s.loaded[id := s.turns]) else s.(alive := false)
    case Swap(id) =>
      if s.cancel then s.(alive := false)
      else s.(cancel := true, loaded := map k | k in s.loaded && k != id :: s.loaded[k])
  }

  /** The state after `events`; one that is not enabled changes nothing. */
  function After(events: seq<Event>): State {
    if events == [] then INITIAL
    else
      var s := After(events[..|events| - 1]);
      if Enabled(s, events[|events| - 1]) then Step(s, events[|events| - 1]) else s
  }

  /** `events` can happen in this order from the start of the program. */
  predicate IsRun(events: seq<Event>) {
    events != [] ==>
      IsRun(events[..|events| - 1]) && Enabled(After(events[..|events| - 1]), events[|events| - 1])
  }

  /** A SIGINT is absorbed: its handler returns and the process lives on. */
  predicate Absorbs(s: State, e: Event) {
    e.Swap? && !s.cancel
  }

  // -------------------------------------------------------------- counting over a run

  /** SIGINTs absorbed since the flag was last cleared, that is, since this turn began. */
  function AbsorbedThisTurn(events: seq<Event>): nat
    requires IsRun(events)
  {
    if events == [] then 0
    else
      var before, e := events[..|events| - 1], events[|events| - 1];
      if e == ClearFlag then 0
      else AbsorbedThisTurn(before) + if Absorbs(After(before), e) then 1 else 0
  }

  /** What asks for the turn to be cancelled: a key, the guard, a SIGINT handler's second step. */
  predicate Cancels(e: Event) {
    e == Key || e == GuardFires || e.Swap?
  }

  /** Something has asked for it since the flag was last cleared. */
  predicate Cancelled(events: seq<Event>) {
    if events == [] then false
    else
      var before, e := events[..|events| - 1], events[|events| - 1];
      if e == ClearFlag then false else Cancels(e) || Cancelled(before)
  }

  /** Tool executions begun this turn after something asked for it to be cancelled. */
  function LateExecutions(events: seq<Event>): nat
    requires IsRun(events)
  {
    if events == [] then 0
    else
      var before, e := events[..|events| - 1], events[|events| - 1];
      if e == ClearFlag then 0
      else LateExecutions(before) + if e == Execute && Cancelled(before) then 1 else 0
  }

  /** Tool executions begun this turn. */
  function Executions(events: seq<Event>): nat
    requires IsRun(events)
  {
    if events == [] then 0
    else
      var before, e := events[..|events| - 1], events[|events| - 1];
      if e == ClearFlag then 0
      else Executions(before) + if e == Execute then 1 else 0
  }

  /** The turn was ended after handler `id` looked. */
  predicate EndedSinceLoad(events: seq<Event>, id: nat) {
    if events == [] then false
    else
      var before, e := events[..|events| - 1], events[|events| - 1];
      if e == Load(id) then false else e == TurnOff || EndedSinceLoad(before, id)
  }

  /** Since handler `id` looked, a turn ended and none has begun. */
  predicate IdleSinceLoad(events: seq<Event>, id: nat) {
    if events == [] then false
    else
      var before, e := events[..|events| - 1], events[|events| - 1];
      if e == Load(id) || e == TurnOn then false else e == TurnOff || IdleSinceLoad(before, id)
  }

  // --------------------------------------------------------------------- invariants

  predicate Consistent(s: State) {
    && (s.running <==> s.at != Idle && s.at != Cleared)
    && (s.at.Generating? || s.at.Checked? || s.at.Executing? ==> s.at.pass < TurnLoop.MAX_TURNS)
    && (s.at.Executing? ==> s.at.pass + 1 < TurnLoop.MAX_TURNS)
    && (forall id :: id in s.loaded ==> s.loaded[id] <= s.turns)
  }

  lemma {:induction false} RunsAreConsistent(events: seq<Event>)
    requires IsRun(events)
    ensures Consistent(After(events))
  {
    if events != [] {
      RunsAreConsistent(events[..|events| - 1]);
    }
  }

  /** In every interleaving at most one SIGINT is absorbed per turn. */
  lemma {:induction false} AtMostOneAbsorbed(events: seq<Event>)
    requires IsRun(events)
    ensures AbsorbedThisTurn(events) <= 1
    ensures AbsorbedThisTurn(events) == 1 ==> After(events).cancel
  {
    if events != [] {
      AtMostOneAbsorbed(events[..|events| - 1]);
    }
  }

  /** In every interleaving CANCEL is set if and only if a key, the guard or a SIGINT has asked
      for it since it was last cleared, and the turn's next check ends it exactly then. */
  lemma {:induction false} CancelIffAsked(events: seq<Event>)
    requires IsRun(events)
    ensures After(events).cancel <==> Cancelled(events)
    ensures Enabled(After(events), Check) ==> (Step(After(events), Check).at == Ending <==> Cancelled(events))
  {
    if events != [] {
      CancelIffAsked(events[..|events| - 1]);
    }
  }

  /** In every interleaving, once a key, the guard or a SIGINT has asked for a turn to be cancelled
      at most one further tool execution begins in it: the one whose check had already passed. */
  lemma {:induction false} AtMostOneLateExecution(events: seq<Event>)
    requires IsRun(events)
    ensures LateExecutions(events) <= 1
    ensures LateExecutions(events) == 1 ==> After(events).cancel && !After(events).at.Checked?
  {
    if events != [] {
      CancelIffAsked(events[..|events| - 1]);
      AtMostOneLateExecution(events[..|events| - 1]);
    }
  }

  /** A turn begins at most one execution per pass but the last. */
  lemma {:induction false} AtMostThreeExecutions(events: seq<Event>)
    requires IsRun(events)
    ensures var at := After(events).at;
            && Executions(events) < TurnLoop.MAX_TURNS
            && (at == Cleared ==> Executions(events) == 0)
            && (at.Generating? || at.Checked? ==> Executions(events) <= at.pass)
            && (at.Executing? ==> Executions(events) <= at.pass + 1)
  {
    RunsAreConsistent(events);
    if events != [] {
      RunsAreConsistent(events[..|events| - 1]);
      AtMostThreeExecutions(events[..|events| - 1]);
    }
  }

  /** A handler that is about to swap acts in the very turn it saw, if and only if that turn was
      not ended between its two steps. */
  lemma {:induction false} SwapsInItsTurn(events: seq<Event>, id: nat)
    requires IsRun(events) && id in After(events).loaded
    ensures After(events).running && After(events).loaded[id] == After(events).turns
       <==> !EndedSinceLoad(events, id)
  {
    var before, e := events[..|events| - 1], events[|events| - 1];
    RunsAreConsistent(events);
    RunsAreConsistent(before);
    if e != Load(id) {
      SwapsInItsTurn(before, id);
    }
  }

  /** A handler that is about to swap finds no turn running if and only if the one it saw ended
      and no other has begun. */
  lemma {:induction false} SwapsOutside(events: seq<Event>, id: nat)
    requires IsRun(events) && id in After(events).loaded
    ensures !After(events).running <==> IdleSinceLoad(events, id)
  {
    var before, e := events[..|events| - 1], events[|events| - 1];
    RunsAreConsistent(before);
    if e != Load(id) {
      SwapsOutside(before, id);
    }
  }

  /** Exactly when a SIGINT is absorbed with no turn running: its handler was overtaken by the
      end of the turn, none has begun since, and nothing has set the flag. */
  lemma AbsorbedOutsideIff(events: seq<Event>, id: nat)
    requires IsRun(events) && Enabled(After(events), Swap(id))
    ensures Absorbs(After(events), Swap(id)) && !After(events).running
       <==> IdleSinceLoad(events, id) && !After(events).cancel
  {
    SwapsOutside(events, id);
  }

  /** Over a whole run: no SIGINT is absorbed outside a turn if and only if no handler swaps an
      unset flag in such a gap. */
  lemma NoneAbsorbedOutsideIff(events: seq<Event>)
    requires IsRun(events)
    ensures (forall k :: 0 <= k < |events| && Absorbs(After(events[..k]), events[k]) ==> After(events[..k]).running)
       <==> (forall k :: 0 <= k < |events| && events[k].Swap? && IdleSinceLoad(events[..k], events[k].id) ==>
               After(events[..k]).cancel)
  {
    forall k | 0 <= k < |events| && events[k].Swap?
      ensures IsRun(events[..k]) && Enabled(After(events[..k]), events[k])
      ensures !After(events[..k]).running <==> IdleSinceLoad(events[..k], events[k].id)
    {
      PrefixRuns(events, k);
      SwapsOutside(events[..k], events[k].id);
    }
  }

  lemma {:induction false} PrefixRuns(events: seq<Event>, k: nat)
    requires IsRun(events) && k < |events|
    ensures IsRun(events[..k]) && Enabled(After(events[..k]), events[k])
  {
    var before := events[..|events| - 1];
    if k < |before| {
      PrefixRuns(before, k);
      assert before[..k] == events[..k];
    }
  }

  /** Delivered on the chat thread, where nothing of the turn runs between its two steps, a
      SIGINT is absorbed only while a turn runs, and ends the process otherwise. */
  lemma AbsorbedOnlyInsideATurn(events: seq<Event>, id: nat)
    requires IsRun(events) && Enabled(After(events), Load(id))
    ensures var s := After(events);
            var loaded := Step(s, Load(id));
            && (s.running && !s.cancel <==> loaded.alive && Step(loaded, Swap(id)).alive)
            && (s.running && !s.cancel ==> Step(loaded, Swap(id)) == s.(cancel := true))
  {
    var s := After(events);
    if s.running {
      var m := Step(s, Load(id)).loaded;
      assert (map k | k in m && k != id :: m[k]) == s.loaded;
    }
  }

  /** Delivered on another thread, a handler can be overtaken by the end of the turn, and its
      SIGINT is then absorbed with no turn running. */
  lemma AnOvertakenHandlerAbsorbsOutside()
    ensures exists events: seq<Event>, id: nat ::
              && IsRun(events) && Enabled(After(events), Swap(id)) && Absorbs(After(events), Swap(id))
              && !After(events).running
  {
    var e1 := [ClearFlag];
    var e2 := e1 + [TurnOn];
    var e3 := e2 + [Load(0)];
    var e4 := e3 + [Stop];
    var e5 := e4 + [TurnOff];
    assert e1[..0] == [] && e2[..1] == e1 && e3[..2] == e2 && e4[..3] == e3 && e5[..4] == e4;
    assert IsRun(e1) && After(e1) == INITIAL.(at := Cleared);
    assert IsRun(e2) && After(e2) == State(Generating(0), true, false, true, 1, map[]);
    assert IsRun(e3) && After(e3) == State(Generating(0), true, false, true, 1, map[0 := 1]);
    assert IsRun(e4) && After(e4) == State(Ending, true, false, true, 1, map[0 := 1]);
    assert IsRun(e5) && After(e5) == State(Idle, false, false, true, 1, map[0 := 1]);
    assert Enabled(After(e5), Swap(0)) && Absorbs(After(e5), Swap(0));
  }

  /** The user is never trapped: with the flag set, or with no turn running, a SIGINT that runs
      its handler ends the process. */
  lemma NextSigintEnds(events: seq<Event>, id: nat)
    requires IsRun(events) && Enabled(After(events), Load(id))
    requires After(events).cancel || !After(events).running
    ensures var loaded := Step(After(events), Load(id));
            !loaded.alive || !Step(loaded, Swap(id)).alive
  {}
}
