/** Budget accounting over every interleaving: what each counter holds, how far
    it can pass the cap, and how it relates to the usage log. */
module Accounting {
  import opened Wrappers
  import opened RedisKeys
  import opened Pipeline

  // ------------------------------------------------- where a flight's data sit

  predicate HoldsReservation(ph: Phase) {
    || ph.AwaitingBackends? || ph.Calling? || ph.MarkingUp? || ph.MarkingDown?
    || ph.AwaitingReconcile? || ph.AwaitingRelease?
  }

  predicate Over(ph: Phase) {
    ph.Recording? || ph.Finished?
  }

  predicate HasTokens(t: Flight) {
    t.phase.MarkingUp? || t.phase.AwaitingReconcile? || (Over(t.phase) && t.status.Success?)
  }

  /** The locals fit the await the flight is parked at. */
  ghost predicate FlightOk(guard: Guard, t: Flight) {
    && (HoldsReservation(t.phase) ==> t.reservation.Some?)
    && (!HoldsReservation(t.phase) && !Over(t.phase) ==> t.reservation.None?)
    && (!Over(t.phase) && !t.phase.AwaitingRelease? ==> t.status.Success?)
    && (t.phase.AwaitingRelease? ==> !t.status.Success?)
    && (Over(t.phase) && (t.status.Success? || t.status.Timeout? || t.status.AllProvidersDown?) ==> t.reservation.Some?)
    && (Over(t.phase) && (t.status.RateLimited? || t.status.BudgetExceeded?) ==> t.reservation.None?)
    && (t.phase.AwaitingRelease? ==> !t.status.RateLimited? && !t.status.BudgetExceeded?)
    && (t.phase.AwaitingRelease? && t.status.ProviderError? ==> guard.Corrected?)
    && (!HasTokens(t) ==> t.prompt == 0 && t.completion == 0)
  }

  lemma OkHolding(cfg: Config, t: Flight, counters: map<BudgetKey, int>, input: Input)
    requires HoldsReservation(t.phase)
    requires FlightOk(cfg.guard, t) && FlightStep(cfg, t, counters, input).Some?
    ensures FlightOk(cfg.guard, FlightStep(cfg, t, counters, input).value.flight)
    ensures FlightStep(cfg, t, counters, input).value.flight.request == t.request
  {
  }

  lemma OkFree(cfg: Config, t: Flight, counters: map<BudgetKey, int>, input: Input)
    requires !HoldsReservation(t.phase)
    requires FlightOk(cfg.guard, t) && FlightStep(cfg, t, counters, input).Some?
    ensures FlightOk(cfg.guard, FlightStep(cfg, t, counters, input).value.flight)
    ensures FlightStep(cfg, t, counters, input).value.flight.request == t.request
  {
  }

  lemma FlightOkStep(cfg: Config, t: Flight, counters: map<BudgetKey, int>, input: Input)
    requires FlightOk(cfg.guard, t) && FlightStep(cfg, t, counters, input).Some?
    ensures FlightOk(cfg.guard, FlightStep(cfg, t, counters, input).value.flight)
    ensures FlightStep(cfg, t, counters, input).value.flight.request == t.request
  {
    if HoldsReservation(t.phase) {
      OkHolding(cfg, t, counters, input);
    } else {
      OkFree(cfg, t, counters, input);
    }
  }

  // ---------------------------------------------------------------- measures

  datatype Measure =
    | Charge(key: BudgetKey)    // what the flight has on the counter
    | Held(key: BudgetKey)      // ... of an admitted request
    | Pending(key: BudgetKey)   // ... of a rejected one not yet undone
    | Logged(key: BudgetKey)    // what its usage record says
    | Lost(key: BudgetKey)      // its reservation, if get_backends raised for it
    | Unsettled(key: BudgetKey) // one, while its reservation is open

  /** The key a flight's reservation, or its coming undo, is on. */
  predicate OnKey(t: Flight, key: BudgetKey) {
    if t.phase.AwaitingUndo? then KeyFor(t, t.phase.period) == key
    else t.reservation.Some? && ReservedKey(t) == key
  }

  /** Left charged for good: the guard as written skips the release. */
  predicate Stranded(guard: Guard, t: Flight) {
    guard.AsWritten? && Over(t.phase) && t.status.ProviderError? && t.reservation.Some?
  }

  function Amount(guard: Guard, t: Flight): nat {
    if t.phase.AwaitingUndo? || HoldsReservation(t.phase) || Stranded(guard, t) then t.request.estimate
    else if Over(t.phase) && t.status.Success? then Actual(t)
    else 0
  }

  predicate RoutingFailed(t: Flight) {
    t.status.ProviderError? && t.reservation.Some? && (Over(t.phase) || t.phase.AwaitingRelease?)
  }

  function Weigh(guard: Guard, m: Measure, t: Flight): nat {
    match m
    case Charge(key) => if OnKey(t, key) then Amount(guard, t) else 0
    case Held(key) => if OnKey(t, key) && !t.phase.AwaitingUndo? then Amount(guard, t) else 0
    case Pending(key) => if OnKey(t, key) && t.phase.AwaitingUndo? then Amount(guard, t) else 0
    case Logged(key) => if OnKey(t, key) && t.phase.Finished? then Actual(t) else 0
    case Lost(key) => if OnKey(t, key) && RoutingFailed(t) then t.request.estimate else 0
    case Unsettled(key) => if OnKey(t, key) && HoldsReservation(t.phase) then 1 else 0
  }

  function Sum(guard: Guard, m: Measure, ts: seq<Flight>): nat {
    if ts == [] then 0 else Weigh(guard, m, ts[0]) + Sum(guard, m, ts[1..])
  }

  lemma {:induction false} SumUpdate(guard: Guard, m: Measure, ts: seq<Flight>, i: nat, t: Flight)
    requires i < |ts|
    ensures Sum(guard, m, ts[i := t]) == Sum(guard, m, ts) - Weigh(guard, m, ts[i]) + Weigh(guard, m, t)
    decreases ts
  {
    if i > 0 {
      assert ts[i := t][1..] == ts[1..][i - 1 := t];
      SumUpdate(guard, m, ts[1..], i - 1, t);
    } else {
      assert ts[i := t][1..] == ts[1..];
    }
  }

  lemma {:induction false} SumAppend(guard: Guard, m: Measure, ts: seq<Flight>, t: Flight)
    ensures Sum(guard, m, ts + [t]) == Sum(guard, m, ts) + Weigh(guard, m, t)
    decreases ts
  {
    if ts == [] {
      assert ts + [t] == [t];
    } else {
      assert (ts + [t])[1..] == ts[1..] + [t];
      SumAppend(guard, m, ts[1..], t);
    }
  }

  lemma {:induction false} ChargeSplits(guard: Guard, key: BudgetKey, ts: seq<Flight>)
    ensures Sum(guard, Charge(key), ts) == Sum(guard, Held(key), ts) + Sum(guard, Pending(key), ts)
    decreases ts
  {
    if ts != [] {
      ChargeSplits(guard, key, ts[1..]);
    }
  }

  // --------------------------------------------------- the log and the trace

  /** Tokens the usage log bills to a key. */
  function LogTokens(log: seq<UsageRecord>, key: BudgetKey): nat
    decreases log
  {
    if log == [] then 0
    else
      var r := log[|log| - 1];
      LogTokens(log[..|log| - 1], key)
      + (if r.tenant == key.tenant && r.model == key.model && r.periodKey == key.period
         then r.prompt + r.completion else 0)
  }

  /** Reservations of requests for which get_backends raised. */
  function LostTokens(trace: seq<Event>, key: BudgetKey): nat
    decreases trace
  {
    if trace == [] then 0
    else
      var a := trace[|trace| - 1].action;
      LostTokens(trace[..|trace| - 1], key) + (if a.Unrouted? && a.key == key then a.reserved else 0)
  }

  /** Tokens by which requests settled since the last admission on this key
      came out above their reservations. */
  function ExcessSince(trace: seq<Event>, key: BudgetKey): nat
    decreases trace
  {
    if trace == [] then 0
    else
      var before, a := trace[..|trace| - 1], trace[|trace| - 1].action;
      if a.Admitted? && a.key == key then 0
      else if a.Settled? && a.key == key && a.actual > a.reserved
      then ExcessSince(before, key) + (a.actual - a.reserved)
      else ExcessSince(before, key)
  }

  /** The cap in force on a key: its tenant and model's blocking policy. */
  function BlockCap(cfg: Config, key: BudgetKey): Option<nat> {
    match PolicyFor(cfg.policies.budgets, key.tenant, key.model)
    case None => None
    case Some(p) => if p.onExceed.Block? then p.maxTokens else None
  }

  // -------------------------------------------------------- local step facts

  lemma ReserveConserves(cfg: Config, t: Flight, counters: map<BudgetKey, int>, input: Input, key: BudgetKey)
    requires FlightOk(cfg.guard, t) && FlightStep(cfg, t, counters, input).Some? && t.phase.AwaitingReserve?
    ensures var m := FlightStep(cfg, t, counters, input).value;
            Read(m.counters, key) - Read(counters, key) == Weigh(cfg.guard, Charge(key), m.flight)
  {
  }

  lemma CloseConserves(cfg: Config, t: Flight, counters: map<BudgetKey, int>, input: Input, key: BudgetKey)
    requires FlightOk(cfg.guard, t) && FlightStep(cfg, t, counters, input).Some?
    requires t.phase.AwaitingUndo? || t.phase.AwaitingReconcile? || t.phase.AwaitingRelease?
    ensures var m := FlightStep(cfg, t, counters, input).value;
            Read(m.counters, key) - Read(counters, key)
            == Weigh(cfg.guard, Charge(key), m.flight) - Weigh(cfg.guard, Charge(key), t)
  {
  }

  lemma OthersConserve(cfg: Config, t: Flight, counters: map<BudgetKey, int>, input: Input, key: BudgetKey)
    requires FlightOk(cfg.guard, t) && FlightStep(cfg, t, counters, input).Some? && !t.phase.AwaitingReserve?
    requires !t.phase.AwaitingUndo? && !t.phase.AwaitingReconcile? && !t.phase.AwaitingRelease?
    ensures var m := FlightStep(cfg, t, counters, input).value;
            m.counters == counters && Weigh(cfg.guard, Charge(key), m.flight) == Weigh(cfg.guard, Charge(key), t)
  {
  }

  /** The counter moves by exactly what the flight's charge moves. */
  lemma StepConserves(cfg: Config, t: Flight, counters: map<BudgetKey, int>, input: Input, key: BudgetKey)
    requires FlightOk(cfg.guard, t) && FlightStep(cfg, t, counters, input).Some?
    ensures var m := FlightStep(cfg, t, counters, input).value;
            Read(m.counters, key) - Read(counters, key)
            == Weigh(cfg.guard, Charge(key), m.flight) - Weigh(cfg.guard, Charge(key), t)
  {
    if t.phase.AwaitingReserve? {
      ReserveConserves(cfg, t, counters, input, key);
    } else if t.phase.AwaitingUndo? || t.phase.AwaitingReconcile? || t.phase.AwaitingRelease? {
      CloseConserves(cfg, t, counters, input, key);
    } else {
      OthersConserve(cfg, t, counters, input, key);
    }
  }

  lemma StepLogs(cfg: Config, id: nat, t: Flight, counters: map<BudgetKey, int>, input: Input, key: BudgetKey)
    requires FlightOk(cfg.guard, t) && FlightStep(cfg, t, counters, input).Some?
    requires key.period != "unknown"
    ensures var m := FlightStep(cfg, t, counters, input).value;
            Weigh(cfg.guard, Logged(key), m.flight) - Weigh(cfg.guard, Logged(key), t)
            == if m.recorded then LogTokens([RecordOf(id, t)], key) else 0
  {
    var r := RecordOf(id, t);
    assert [r][..0] == [];
  }

  lemma UnroutedLoses(cfg: Config, t: Flight, counters: map<BudgetKey, int>, input: Input, key: BudgetKey)
    requires FlightOk(cfg.guard, t) && FlightStep(cfg, t, counters, input).Some?
    requires t.phase.AwaitingBackends? && input.Routed? && input.backends.None?
    ensures var m := FlightStep(cfg, t, counters, input).value;
            t.reservation.Some? && m.actions == [Unrouted(ReservedKey(t), t.request.estimate)] &&
            Weigh(cfg.guard, Lost(key), m.flight) == (if ReservedKey(t) == key then t.request.estimate else 0) &&
            Weigh(cfg.guard, Lost(key), t) == 0
  {
  }

  lemma RoutedLosesNothing(cfg: Config, t: Flight, counters: map<BudgetKey, int>, input: Input, key: BudgetKey)
    requires FlightOk(cfg.guard, t) && FlightStep(cfg, t, counters, input).Some?
    requires !(t.phase.AwaitingBackends? && input.Routed? && input.backends.None?)
    ensures var m := FlightStep(cfg, t, counters, input).value;
            |m.actions| <= 1 && (m.actions != [] ==> !m.actions[0].Unrouted?) &&
            Weigh(cfg.guard, Lost(key), m.flight) == Weigh(cfg.guard, Lost(key), t)
  {
  }

  lemma StepLoses(cfg: Config, id: nat, t: Flight, counters: map<BudgetKey, int>, input: Input, key: BudgetKey)
    requires FlightOk(cfg.guard, t) && FlightStep(cfg, t, counters, input).Some?
    ensures var m := FlightStep(cfg, t, counters, input).value;
            |m.actions| <= 1 &&
            Weigh(cfg.guard, Lost(key), m.flight) - Weigh(cfg.guard, Lost(key), t)
            == if m.actions == [] then 0 else LostTokens([Event(id, m.actions[0])], key)
  {
    var m := FlightStep(cfg, t, counters, input).value;
    if t.phase.AwaitingBackends? && input.Routed? && input.backends.None? {
      UnroutedLoses(cfg, t, counters, input, key);
    } else {
      RoutedLosesNothing(cfg, t, counters, input, key);
    }
    if m.actions != [] {
      assert [Event(id, m.actions[0])][..0] == [];
    }
  }

  lemma StepHoldsHolding(cfg: Config, t: Flight, counters: map<BudgetKey, int>, input: Input, key: BudgetKey)
    requires HoldsReservation(t.phase)
    requires FlightOk(cfg.guard, t) && FlightStep(cfg, t, counters, input).Some?
    ensures var m := FlightStep(cfg, t, counters, input).value;
            var grown := Weigh(cfg.guard, Held(key), m.flight) - Weigh(cfg.guard, Held(key), t);
            |m.actions| <= 1 &&
            if m.actions == [] then grown <= 0
            else match m.actions[0]
              case Admitted(k) => k == key || grown <= 0
              case Settled(k, reserved, actual) =>
                grown <= if k == key && actual > reserved then actual - reserved else 0
              case _ => grown <= 0
  {
  }

  lemma StepHoldsFree(cfg: Config, t: Flight, counters: map<BudgetKey, int>, input: Input, key: BudgetKey)
    requires !HoldsReservation(t.phase)
    requires FlightOk(cfg.guard, t) && FlightStep(cfg, t, counters, input).Some?
    ensures var m := FlightStep(cfg, t, counters, input).value;
            var grown := Weigh(cfg.guard, Held(key), m.flight) - Weigh(cfg.guard, Held(key), t);
            |m.actions| <= 1 &&
            if m.actions == [] then grown <= 0
            else match m.actions[0]
              case Admitted(k) => k == key || grown <= 0
              case Settled(k, reserved, actual) =>
                grown <= if k == key && actual > reserved then actual - reserved else 0
              case _ => grown <= 0
  {
  }

  /** Between admissions, what admitted requests hold grows only by settling
      above the reservation. */
  lemma StepHolds(cfg: Config, t: Flight, counters: map<BudgetKey, int>, input: Input, key: BudgetKey)
    requires FlightOk(cfg.guard, t) && FlightStep(cfg, t, counters, input).Some?
    ensures var m := FlightStep(cfg, t, counters, input).value;
            var grown := Weigh(cfg.guard, Held(key), m.flight) - Weigh(cfg.guard, Held(key), t);
            |m.actions| <= 1 &&
            if m.actions == [] then grown <= 0
            else match m.actions[0]
              case Admitted(k) => k == key || grown <= 0
              case Settled(k, reserved, actual) =>
                grown <= if k == key && actual > reserved then actual - reserved else 0
              case _ => grown <= 0
  {
    if HoldsReservation(t.phase) {
      StepHoldsHolding(cfg, t, counters, input, key);
    } else {
      StepHoldsFree(cfg, t, counters, input, key);
    }
  }

  /** An admission under a blocking cap saw a counter within it. */
  lemma AdmissionWithinCap(cfg: Config, t: Flight, counters: map<BudgetKey, int>, input: Input, key: BudgetKey)
    requires FlightOk(cfg.guard, t) && FlightStep(cfg, t, counters, input).Some? && BlockCap(cfg, key).Some?
    requires FlightStep(cfg, t, counters, input).value.actions == [Admitted(key)]
    ensures Read(FlightStep(cfg, t, counters, input).value.counters, key) <= BlockCap(cfg, key).value
  {
  }

  // --------------------------------------------------------------- invariant

  ghost predicate Inv(cfg: Config, s: State) {
    && (forall t | t in s.flights :: FlightOk(cfg.guard, t))
    && (forall key :: Read(s.counters, key) == Sum(cfg.guard, Charge(key), s.flights))
    && (forall key: BudgetKey | key.period != "unknown" ::
          LogTokens(s.log, key) == Sum(cfg.guard, Logged(key), s.flights))
    && (forall key :: LostTokens(s.trace, key) == Sum(cfg.guard, Lost(key), s.flights))
    && (forall key | BlockCap(cfg, key).Some? ::
          Sum(cfg.guard, Held(key), s.flights) <= BlockCap(cfg, key).value + ExcessSince(s.trace, key))
  }

  lemma LogAppend(log: seq<UsageRecord>, r: UsageRecord, key: BudgetKey)
    ensures LogTokens(log + [r], key) == LogTokens(log, key) + LogTokens([r], key)
  {
    assert (log + [r])[..|log|] == log;
    assert [r][..0] == [];
  }

  lemma TraceAppend(trace: seq<Event>, e: Event, key: BudgetKey)
    ensures LostTokens(trace + [e], key) == LostTokens(trace, key) + LostTokens([e], key)
    ensures ExcessSince(trace + [e], key)
            == if e.action.Admitted? && e.action.key == key then 0
               else ExcessSince(trace, key)
                    + if e.action.Settled? && e.action.key == key && e.action.actual > e.action.reserved
                      then e.action.actual - e.action.reserved else 0
  {
    assert (trace + [e])[..|trace|] == trace;
    assert [e][..0] == [];
  }

  lemma ArriveKeeps(cfg: Config, s: State, r: Request)
    requires Inv(cfg, s)
    ensures Inv(cfg, Step(cfg, s, Arrive(r)).value)
  {
    forall m: Measure
      ensures Sum(cfg.guard, m, s.flights + [Fresh(r)]) == Sum(cfg.guard, m, s.flights)
    {
      SumAppend(cfg.guard, m, s.flights, Fresh(r));
    }
  }

  lemma AdvanceKeepsCounters(cfg: Config, s: State, id: nat, input: Input, key: BudgetKey)
    requires Inv(cfg, s) && Step(cfg, s, Advance(id, input)).Some?
    ensures var s' := Step(cfg, s, Advance(id, input)).value;
            Read(s'.counters, key) == Sum(cfg.guard, Charge(key), s'.flights)
  {
    var m := FlightStep(cfg, s.flights[id], s.counters, input).value;
    StepConserves(cfg, s.flights[id], s.counters, input, key);
    SumUpdate(cfg.guard, Charge(key), s.flights, id, m.flight);
  }

  lemma AdvanceKeepsLog(cfg: Config, s: State, id: nat, input: Input, key: BudgetKey)
    requires Inv(cfg, s) && Step(cfg, s, Advance(id, input)).Some? && key.period != "unknown"
    ensures var s' := Step(cfg, s, Advance(id, input)).value;
            LogTokens(s'.log, key) == Sum(cfg.guard, Logged(key), s'.flights)
  {
    var t := s.flights[id];
    var m := FlightStep(cfg, t, s.counters, input).value;
    StepLogs(cfg, id, t, s.counters, input, key);
    SumUpdate(cfg.guard, Logged(key), s.flights, id, m.flight);
    LogAppend(s.log, RecordOf(id, t), key);
  }

  lemma AdvanceKeepsLost(cfg: Config, s: State, id: nat, input: Input, key: BudgetKey)
    requires Inv(cfg, s) && Step(cfg, s, Advance(id, input)).Some?
    ensures var s' := Step(cfg, s, Advance(id, input)).value;
            LostTokens(s'.trace, key) == Sum(cfg.guard, Lost(key), s'.flights)
  {
    var t, s' := s.flights[id], Step(cfg, s, Advance(id, input)).value;
    var m := FlightStep(cfg, t, s.counters, input).value;
    StepLoses(cfg, id, t, s.counters, input, key);
    SumUpdate(cfg.guard, Lost(key), s.flights, id, m.flight);
    if m.actions == [] {
      assert s'.trace == s.trace;
    } else {
      assert Stamp(id, m.actions) == [Event(id, m.actions[0])];
      TraceAppend(s.trace, Event(id, m.actions[0]), key);
    }
  }

  /** An admission brings what is held back under the cap. */
  lemma AdmissionHolds(cfg: Config, s: State, id: nat, input: Input, key: BudgetKey)
    requires Inv(cfg, s) && Step(cfg, s, Advance(id, input)).Some? && BlockCap(cfg, key).Some?
    requires FlightStep(cfg, s.flights[id], s.counters, input).value.actions == [Admitted(key)]
    ensures Sum(cfg.guard, Held(key), Step(cfg, s, Advance(id, input)).value.flights) <= BlockCap(cfg, key).value
  {
    AdmissionWithinCap(cfg, s.flights[id], s.counters, input, key);
    AdvanceKeepsCounters(cfg, s, id, input, key);
    ChargeSplits(cfg.guard, key, Step(cfg, s, Advance(id, input)).value.flights);
  }

  lemma AdvanceKeepsHeld(cfg: Config, s: State, id: nat, input: Input, key: BudgetKey)
    requires Inv(cfg, s) && Step(cfg, s, Advance(id, input)).Some? && BlockCap(cfg, key).Some?
    ensures var s' := Step(cfg, s, Advance(id, input)).value;
            Sum(cfg.guard, Held(key), s'.flights) <= BlockCap(cfg, key).value + ExcessSince(s'.trace, key)
  {
    if FlightStep(cfg, s.flights[id], s.counters, input).value.actions == [Admitted(key)] {
      AdmissionHolds(cfg, s, id, input, key);
    } else {
      OthersKeepHeld(cfg, s, id, input, key);
    }
  }

  lemma OthersKeepHeld(cfg: Config, s: State, id: nat, input: Input, key: BudgetKey)
    requires Inv(cfg, s) && Step(cfg, s, Advance(id, input)).Some? && BlockCap(cfg, key).Some?
    requires FlightStep(cfg, s.flights[id], s.counters, input).value.actions != [Admitted(key)]
    ensures var s' := Step(cfg, s, Advance(id, input)).value;
            Sum(cfg.guard, Held(key), s'.flights) <= BlockCap(cfg, key).value + ExcessSince(s'.trace, key)
  {
    var t, s' := s.flights[id], Step(cfg, s, Advance(id, input)).value;
    var m := FlightStep(cfg, t, s.counters, input).value;
    StepHolds(cfg, t, s.counters, input, key);
    SumUpdate(cfg.guard, Held(key), s.flights, id, m.flight);
    if m.actions == [] {
      assert s'.trace == s.trace;
    } else {
      assert Stamp(id, m.actions) == [Event(id, m.actions[0])];
      TraceAppend(s.trace, Event(id, m.actions[0]), key);
    }
  }

  lemma StepKeeps(cfg: Config, s: State, move: Label)
    requires Inv(cfg, s) && Step(cfg, s, move).Some?
    ensures Inv(cfg, Step(cfg, s, move).value)
  {
    match move {
      case Arrive(r) => ArriveKeeps(cfg, s, r);
      case Advance(id, input) =>
        var s' := Step(cfg, s, move).value;
        FlightOkStep(cfg, s.flights[id], s.counters, input);
        forall key
          ensures Read(s'.counters, key) == Sum(cfg.guard, Charge(key), s'.flights)
        {
          AdvanceKeepsCounters(cfg, s, id, input, key);
        }
        forall key: BudgetKey | key.period != "unknown"
          ensures LogTokens(s'.log, key) == Sum(cfg.guard, Logged(key), s'.flights)
        {
          AdvanceKeepsLog(cfg, s, id, input, key);
        }
        forall key
          ensures LostTokens(s'.trace, key) == Sum(cfg.guard, Lost(key), s'.flights)
        {
          AdvanceKeepsLost(cfg, s, id, input, key);
        }
        forall key | BlockCap(cfg, key).Some?
          ensures Sum(cfg.guard, Held(key), s'.flights) <= BlockCap(cfg, key).value + ExcessSince(s'.trace, key)
        {
          AdvanceKeepsHeld(cfg, s, id, input, key);
        }
    }
  }

  lemma {:induction false} InvReached(cfg: Config, s: State, moves: seq<Label>)
    requires Inv(cfg, s) && Run(cfg, s, moves).Some?
    ensures Inv(cfg, Run(cfg, s, moves).value)
    decreases moves
  {
    if moves != [] {
      StepKeeps(cfg, s, moves[0]);
      InvReached(cfg, Step(cfg, s, moves[0]).value, moves[1..]);
    }
  }

  ghost predicate Reachable(cfg: Config, s: State) {
    exists moves :: Run(cfg, INITIAL, moves) == Some(s)
  }

  /** A run from a reachable state ends in one. */
  lemma ReachableRun(cfg: Config, s: State, moves: seq<Label>, s': State)
    requires Reachable(cfg, s) && Run(cfg, s, moves) == Some(s')
    ensures Reachable(cfg, s')
  {
    var before :| Run(cfg, INITIAL, before) == Some(s);
    RunSplits(cfg, INITIAL, before, moves);
    assert Run(cfg, INITIAL, before + moves) == Some(s');
  }

  lemma ReachableInv(cfg: Config, s: State)
    requires Reachable(cfg, s)
    ensures Inv(cfg, s)
  {
    var moves :| Run(cfg, INITIAL, moves) == Some(s);
    InvReached(cfg, INITIAL, moves);
  }

  // ---------------------------------------------------------------- theorems

  /** Conservation: in every reachable state each counter is the sum over
      requests of a contribution fixed by phase, on the period key chosen at
      reservation. */
  lemma CounterConservation(cfg: Config, s: State, key: BudgetKey)
    requires Reachable(cfg, s)
    ensures Read(s.counters, key) == Sum(cfg.guard, Charge(key), s.flights)
  {
    ReachableInv(cfg, s);
  }

  /** Overshoot: live reservations and settled actuals on a blocking key never
      exceed the cap by more than what requests settled since the last
      admission used above their reservations; the counter itself can add only
      the increments of rejected requests still waiting to be undone. */
  lemma OvershootBound(cfg: Config, s: State, key: BudgetKey)
    requires Reachable(cfg, s) && BlockCap(cfg, key).Some?
    ensures Sum(cfg.guard, Held(key), s.flights) <= BlockCap(cfg, key).value + ExcessSince(s.trace, key)
    ensures Read(s.counters, key)
            <= BlockCap(cfg, key).value + ExcessSince(s.trace, key) + Sum(cfg.guard, Pending(key), s.flights)
  {
    ReachableInv(cfg, s);
    ChargeSplits(cfg.guard, key, s.flights);
  }

  ghost predicate NeverOverReservation(trace: seq<Event>, key: BudgetKey) {
    forall e | e in trace && e.action.Settled? && e.action.key == key :: e.action.actual <= e.action.reserved
  }

  lemma {:induction false} NoExcess(trace: seq<Event>, key: BudgetKey)
    requires NeverOverReservation(trace, key)
    ensures ExcessSince(trace, key) == 0
    decreases trace
  {
    if trace != [] {
      var last := trace[|trace| - 1];
      assert last in trace;
      NoExcess(trace[..|trace| - 1], key);
    }
  }

  /** If no request on the key ever used more than it reserved, admitted
      requests stay within the cap. */
  lemma CapHolds(cfg: Config, s: State, key: BudgetKey)
    requires Reachable(cfg, s) && BlockCap(cfg, key).Some? && NeverOverReservation(s.trace, key)
    ensures Sum(cfg.guard, Held(key), s.flights) <= BlockCap(cfg, key).value
  {
    OvershootBound(cfg, s, key);
    NoExcess(s.trace, key);
  }

  /** The exact admission rule: a reservation passes a blocking cap exactly
      when what admitted requests hold, plus what rejected requests have not
      yet given back, leaves room for it. */
  lemma AdmissionExact(cfg: Config, s: State, id: nat, date: Date)
    requires Reachable(cfg, s) && id < |s.flights| && s.flights[id].phase.AwaitingReserve?
    requires Step(cfg, s, Advance(id, Today(date))).Some?
    ensures var t := s.flights[id];
            var policy := PolicyFor(cfg.policies.budgets, t.request.tenant, t.request.model);
            policy.Some? &&
            var key := KeyFor(t, PeriodKey(policy.value.period, date));
            var s' := Step(cfg, s, Advance(id, Today(date))).value;
            (s'.flights[id].reservation == Some(key.period) <==>
              (BlockCap(cfg, key).Some? ==>
                Sum(cfg.guard, Held(key), s.flights) + Sum(cfg.guard, Pending(key), s.flights) + t.request.estimate
                <= BlockCap(cfg, key).value))
  {
    ReachableInv(cfg, s);
    var t := s.flights[id];
    AdmissionStep(cfg, t, s.counters, date);
    var policy := PolicyFor(cfg.policies.budgets, t.request.tenant, t.request.model);
    ChargeSplits(cfg.guard, KeyFor(t, PeriodKey(policy.value.period, date)), s.flights);
  }

  lemma AdmissionStep(cfg: Config, t: Flight, counters: map<BudgetKey, int>, date: Date)
    requires FlightOk(cfg.guard, t) && t.phase.AwaitingReserve? && FlightStep(cfg, t, counters, Today(date)).Some?
    ensures var policy := PolicyFor(cfg.policies.budgets, t.request.tenant, t.request.model);
            policy.Some? &&
            var key := KeyFor(t, PeriodKey(policy.value.period, date));
            (FlightStep(cfg, t, counters, Today(date)).value.flight.reservation == Some(key.period) <==>
              (BlockCap(cfg, key).Some? ==> Read(counters, key) + t.request.estimate <= BlockCap(cfg, key).value))
  {
  }

  ghost predicate Quiescent(s: State) {
    forall t | t in s.flights :: t.phase.Finished?
  }

  lemma QuiescentWeight(guard: Guard, key: BudgetKey, t: Flight)
    requires t.phase.Finished? && FlightOk(guard, t)
    ensures Weigh(guard, Charge(key), t)
            == Weigh(guard, Logged(key), t) + if guard.AsWritten? then Weigh(guard, Lost(key), t) else 0
  {
  }

  lemma {:induction false} QuiescentSums(guard: Guard, key: BudgetKey, ts: seq<Flight>)
    requires forall t | t in ts :: t.phase.Finished? && FlightOk(guard, t)
    ensures Sum(guard, Charge(key), ts)
            == Sum(guard, Logged(key), ts) + if guard.AsWritten? then Sum(guard, Lost(key), ts) else 0
    decreases ts
  {
    if ts != [] {
      assert ts[0] in ts && forall t | t in ts[1..] :: t in ts;
      QuiescentWeight(guard, key, ts[0]);
      QuiescentSums(guard, key, ts[1..]);
    }
  }

  /** The counter and the usage log agree once nothing is in flight, except
      for the reservations of requests for which get_backends raised: as
      written these stay charged; with the release guard the comment describes
      they do not. */
  lemma CounterMatchesLog(cfg: Config, s: State, key: BudgetKey)
    requires Reachable(cfg, s) && Quiescent(s) && key.period != "unknown"
    ensures Read(s.counters, key)
            == LogTokens(s.log, key) + if cfg.guard.AsWritten? then LostTokens(s.trace, key) else 0
  {
    ReachableInv(cfg, s);
    QuiescentSums(cfg.guard, key, s.flights);
  }

  /** As written, the counter is right exactly when no request that reserved
      tokens on the key failed to find a backend. */
  lemma CounterExactIff(cfg: Config, s: State, key: BudgetKey)
    requires Reachable(cfg, s) && Quiescent(s) && key.period != "unknown" && cfg.guard.AsWritten?
    ensures Read(s.counters, key) == LogTokens(s.log, key) <==>
            forall e | e in s.trace && e.action.Unrouted? && e.action.key == key :: e.action.reserved == 0
  {
    CounterMatchesLog(cfg, s, key);
    LostZeroIff(s.trace, key);
  }

  lemma {:induction false} LostZeroIff(trace: seq<Event>, key: BudgetKey)
    ensures LostTokens(trace, key) == 0 <==>
            forall e | e in trace && e.action.Unrouted? && e.action.key == key :: e.action.reserved == 0
    decreases trace
  {
    if trace != [] {
      var init, last := trace[..|trace| - 1], trace[|trace| - 1];
      assert trace == init + [last];
      LostZeroIff(init, key);
    }
  }
}
