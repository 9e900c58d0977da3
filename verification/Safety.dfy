/** What every history of every interleaving obeys: the order of the pipeline,
    request by request, and one usage record for each finished dispatch. */
module Safety {
  import opened Wrappers
  import opened Pipeline
  import opened Accounting

  ghost predicate Happened(past: seq<Event>, id: nat, a: Action) {
    Event(id, a) in past
  }

  predicate Closing(a: Action) {
    a.Settled? || a.Released? || a.Undone?
  }

  /** The request has neither settled nor given back its reservation. */
  ghost predicate Unclosed(past: seq<Event>, id: nat) {
    forall e | e in past && e.id == id :: !Closing(e.action)
  }

  ghost predicate Admits(past: seq<Event>, id: nat) {
    exists key :: Happened(past, id, Admitted(key))
  }

  ghost predicate HoldsNow(past: seq<Event>, id: nat) {
    Admits(past, id) && Unclosed(past, id)
  }

  /** Whether the pipeline may do this to a request with this past: policies,
      then a bucket token, then one reservation, then provider calls while the
      reservation is held, then one settlement or release of that same
      reservation, then one record, and nothing after it. */
  ghost predicate Allowed(past: seq<Event>, e: Event) {
    && !Happened(past, e.id, Recorded)
    && match e.action
       case Entitled => true
       case Consumed => Happened(past, e.id, Entitled)
       case Admitted(_) => Happened(past, e.id, Consumed) && Unclosed(past, e.id) && !Admits(past, e.id)
       case Undone(_) => Happened(past, e.id, Consumed) && Unclosed(past, e.id) && !HoldsNow(past, e.id)
       case Called(_) => HoldsNow(past, e.id)
       case MarkedUp(b) => Happened(past, e.id, Called(b)) && HoldsNow(past, e.id)
       case MarkedDown(b) => Happened(past, e.id, Called(b)) && HoldsNow(past, e.id)
       case Settled(key, _, _) => Happened(past, e.id, Admitted(key)) && Unclosed(past, e.id)
       case Released(key) => Happened(past, e.id, Admitted(key)) && Unclosed(past, e.id)
       case Unrouted(key, _) => Happened(past, e.id, Admitted(key)) && Unclosed(past, e.id)
       case Recorded => true
  }

  ghost predicate Lawful(trace: seq<Event>) {
    forall p | 0 <= p < |trace| :: Allowed(trace[..p], trace[p])
  }

  predicate PastBucket(ph: Phase) {
    ph.AwaitingReserve? || ph.AwaitingUndo? || HoldsReservation(ph)
  }

  /** How a flight's await shows in the history: what it has been granted, */
  ghost predicate Paid(trace: seq<Event>, id: nat, t: Flight) {
    && (t.phase.AwaitingBucket? || PastBucket(t.phase) ==> Happened(trace, id, Entitled))
    && (PastBucket(t.phase) ==> Happened(trace, id, Consumed))
    && (HoldsReservation(t.phase) ==> t.reservation.Some? && Happened(trace, id, Admitted(ReservedKey(t))))
    && (t.reservation.None? ==> forall key :: !Happened(trace, id, Admitted(key)))
    && (!Over(t.phase) ==> Unclosed(trace, id))
    && (Happened(trace, id, Recorded) ==> t.phase.Finished?)
  }

  /** the call whose outcome it is about to mark, */
  ghost predicate CallShows(trace: seq<Event>, id: nat, t: Flight) {
    t.phase.MarkingUp? || t.phase.MarkingDown? ==>
      t.phase.k < |t.attempts| && Happened(trace, id, Called(t.attempts[t.phase.k]))
  }

  /** and settling, which goes with finishing in success. */
  ghost predicate SettledMatches(trace: seq<Event>, id: nat, t: Flight) {
    && (Over(t.phase) && t.status.Success? ==>
          t.reservation.Some? && Happened(trace, id, Settled(ReservedKey(t), t.request.estimate, Actual(t))))
    && (forall e | e in trace && e.id == id && e.action.Settled? :: Over(t.phase) && t.status.Success?)
  }

  ghost predicate Traced(trace: seq<Event>, id: nat, t: Flight) {
    Paid(trace, id, t) && CallShows(trace, id, t) && SettledMatches(trace, id, t)
  }

  function RecordsFor(log: seq<UsageRecord>, id: nat): nat
    decreases log
  {
    if log == [] then 0
    else RecordsFor(log[..|log| - 1], id) + (if log[|log| - 1].requestId == id then 1 else 0)
  }

  lemma RecordsAppend(log: seq<UsageRecord>, r: UsageRecord, id: nat)
    ensures RecordsFor(log + [r], id) == RecordsFor(log, id) + if r.requestId == id then 1 else 0
  {
    assert (log + [r])[..|log|] == log;
  }

  ghost predicate FlightsTraced(cfg: Config, s: State) {
    && (forall i | 0 <= i < |s.flights| :: FlightOk(cfg.guard, s.flights[i]) && Traced(s.trace, i, s.flights[i]))
    && (forall e | e in s.trace :: e.id < |s.flights|)
  }

  predicate BothPolicies(cfg: Config, r: Request) {
    && PolicyFor(cfg.policies.rateLimits, r.tenant, r.model).Some?
    && PolicyFor(cfg.policies.budgets, r.tenant, r.model).Some?
  }

  /** Entitled is said of requests with both policies only. */
  ghost predicate EntitledTrue(cfg: Config, s: State) {
    forall e | e in s.trace && e.action.Entitled? ::
      e.id < |s.flights| && BothPolicies(cfg, s.flights[e.id].request)
  }

  ghost predicate LogComplete(s: State) {
    forall id: nat :: RecordsFor(s.log, id) == if id < |s.flights| && s.flights[id].phase.Finished? then 1 else 0
  }

  ghost predicate RecordTrue(s: State, r: UsageRecord) {
    && r.requestId < |s.flights|
    && s.flights[r.requestId].phase.Finished?
    && r == RecordOf(r.requestId, s.flights[r.requestId])
  }

  ghost predicate LogTrue(s: State) {
    forall r | r in s.log :: RecordTrue(s, r)
  }

  ghost predicate SafeInv(cfg: Config, s: State) {
    Lawful(s.trace) && FlightsTraced(cfg, s) && EntitledTrue(cfg, s) && LogComplete(s) && LogTrue(s)
  }

  lemma StepAllowed(cfg: Config, trace: seq<Event>, id: nat, t: Flight, counters: map<BudgetKey, int>, input: Input)
    requires FlightOk(cfg.guard, t) && Traced(trace, id, t) && FlightStep(cfg, t, counters, input).Some?
    ensures var m := FlightStep(cfg, t, counters, input).value;
            |m.actions| <= 1 && (m.actions != [] ==> Allowed(trace, Event(id, m.actions[0])))
  {
  }

  /** One more event, seen through membership only. */
  ghost predicate Extends(past: seq<Event>, now: seq<Event>, e: Event) {
    forall x :: x in now <==> x in past || x == e
  }

  /** Someone else's event does not touch what a flight's history shows. */
  lemma TracedFrame(past: seq<Event>, now: seq<Event>, e: Event, id: nat, t: Flight)
    ensures Extends(past, now, e) && Traced(past, id, t) && e.id != id ==> Traced(now, id, t)
  {
  }

  lemma QuietTracedHolding(cfg: Config, trace: seq<Event>, id: nat, t: Flight, counters: map<BudgetKey, int>,
      input: Input)
    requires HoldsReservation(t.phase)
    requires FlightOk(cfg.guard, t) && Traced(trace, id, t) && FlightStep(cfg, t, counters, input).Some?
    requires FlightStep(cfg, t, counters, input).value.actions == []
    ensures Traced(trace, id, FlightStep(cfg, t, counters, input).value.flight)
  {
  }

  lemma QuietTracedFree(cfg: Config, trace: seq<Event>, id: nat, t: Flight, counters: map<BudgetKey, int>, input: Input)
    requires !HoldsReservation(t.phase)
    requires FlightOk(cfg.guard, t) && Traced(trace, id, t) && FlightStep(cfg, t, counters, input).Some?
    requires FlightStep(cfg, t, counters, input).value.actions == []
    ensures Traced(trace, id, FlightStep(cfg, t, counters, input).value.flight)
  {
  }

  lemma QuietStepTraced(cfg: Config, trace: seq<Event>, id: nat, t: Flight, counters: map<BudgetKey, int>, input: Input)
    requires FlightOk(cfg.guard, t) && Traced(trace, id, t) && FlightStep(cfg, t, counters, input).Some?
    requires FlightStep(cfg, t, counters, input).value.actions == []
    ensures Traced(trace, id, FlightStep(cfg, t, counters, input).value.flight)
  {
    if HoldsReservation(t.phase) {
      QuietTracedHolding(cfg, trace, id, t, counters, input);
    } else {
      QuietTracedFree(cfg, trace, id, t, counters, input);
    }
  }

  lemma StepPaidHolding(cfg: Config, past: seq<Event>, now: seq<Event>, id: nat, t: Flight,
      counters: map<BudgetKey, int>, input: Input)
    requires HoldsReservation(t.phase)
    requires FlightOk(cfg.guard, t) && Paid(past, id, t) && FlightStep(cfg, t, counters, input).Some?
    requires FlightStep(cfg, t, counters, input).value.actions != []
    requires Extends(past, now, Event(id, FlightStep(cfg, t, counters, input).value.actions[0]))
    ensures Paid(now, id, FlightStep(cfg, t, counters, input).value.flight)
  {
  }

  lemma StepPaidEarly(cfg: Config, past: seq<Event>, now: seq<Event>, id: nat, t: Flight,
      counters: map<BudgetKey, int>, input: Input)
    requires t.phase.Starting? || t.phase.AwaitingBucket?
    requires FlightOk(cfg.guard, t) && Paid(past, id, t) && FlightStep(cfg, t, counters, input).Some?
    requires FlightStep(cfg, t, counters, input).value.actions != []
    requires Extends(past, now, Event(id, FlightStep(cfg, t, counters, input).value.actions[0]))
    ensures Paid(now, id, FlightStep(cfg, t, counters, input).value.flight)
  {
  }

  lemma StepPaidFree(cfg: Config, past: seq<Event>, now: seq<Event>, id: nat, t: Flight,
      counters: map<BudgetKey, int>, input: Input)
    requires !HoldsReservation(t.phase) && !t.phase.Starting? && !t.phase.AwaitingBucket?
    requires FlightOk(cfg.guard, t) && Paid(past, id, t) && FlightStep(cfg, t, counters, input).Some?
    requires FlightStep(cfg, t, counters, input).value.actions != []
    requires Extends(past, now, Event(id, FlightStep(cfg, t, counters, input).value.actions[0]))
    ensures Paid(now, id, FlightStep(cfg, t, counters, input).value.flight)
  {
  }

  lemma StepPaid(cfg: Config, past: seq<Event>, now: seq<Event>, id: nat, t: Flight,
      counters: map<BudgetKey, int>, input: Input)
    requires FlightOk(cfg.guard, t) && Paid(past, id, t) && FlightStep(cfg, t, counters, input).Some?
    requires FlightStep(cfg, t, counters, input).value.actions != []
    requires Extends(past, now, Event(id, FlightStep(cfg, t, counters, input).value.actions[0]))
    ensures Paid(now, id, FlightStep(cfg, t, counters, input).value.flight)
  {
    if HoldsReservation(t.phase) {
      StepPaidHolding(cfg, past, now, id, t, counters, input);
    } else if t.phase.Starting? || t.phase.AwaitingBucket? {
      StepPaidEarly(cfg, past, now, id, t, counters, input);
    } else {
      StepPaidFree(cfg, past, now, id, t, counters, input);
    }
  }

  lemma StepCallShows(cfg: Config, past: seq<Event>, now: seq<Event>, id: nat, t: Flight,
      counters: map<BudgetKey, int>, input: Input)
    requires FlightStep(cfg, t, counters, input).Some?
    requires FlightStep(cfg, t, counters, input).value.actions != []
    requires Extends(past, now, Event(id, FlightStep(cfg, t, counters, input).value.actions[0]))
    ensures CallShows(now, id, FlightStep(cfg, t, counters, input).value.flight)
  {
  }

  lemma MatchSettledHolding(cfg: Config, past: seq<Event>, now: seq<Event>, id: nat, t: Flight,
      counters: map<BudgetKey, int>, input: Input)
    requires HoldsReservation(t.phase)
    requires FlightOk(cfg.guard, t) && SettledMatches(past, id, t) && FlightStep(cfg, t, counters, input).Some?
    requires FlightStep(cfg, t, counters, input).value.actions != []
    requires Extends(past, now, Event(id, FlightStep(cfg, t, counters, input).value.actions[0]))
    ensures SettledMatches(now, id, FlightStep(cfg, t, counters, input).value.flight)
  {
  }

  lemma MatchSettledFree(cfg: Config, past: seq<Event>, now: seq<Event>, id: nat, t: Flight,
      counters: map<BudgetKey, int>, input: Input)
    requires !HoldsReservation(t.phase)
    requires FlightOk(cfg.guard, t) && SettledMatches(past, id, t) && FlightStep(cfg, t, counters, input).Some?
    requires FlightStep(cfg, t, counters, input).value.actions != []
    requires Extends(past, now, Event(id, FlightStep(cfg, t, counters, input).value.actions[0]))
    ensures SettledMatches(now, id, FlightStep(cfg, t, counters, input).value.flight)
  {
  }

  lemma StepSettledMatches(cfg: Config, past: seq<Event>, now: seq<Event>, id: nat, t: Flight,
      counters: map<BudgetKey, int>, input: Input)
    requires FlightOk(cfg.guard, t) && SettledMatches(past, id, t) && FlightStep(cfg, t, counters, input).Some?
    requires FlightStep(cfg, t, counters, input).value.actions != []
    requires Extends(past, now, Event(id, FlightStep(cfg, t, counters, input).value.actions[0]))
    ensures SettledMatches(now, id, FlightStep(cfg, t, counters, input).value.flight)
  {
    if HoldsReservation(t.phase) {
      MatchSettledHolding(cfg, past, now, id, t, counters, input);
    } else {
      MatchSettledFree(cfg, past, now, id, t, counters, input);
    }
  }

  lemma AppendExtends(trace: seq<Event>, e: Event)
    ensures Extends(trace, trace + [e], e)
  {
  }

  lemma TracedStep(cfg: Config, trace: seq<Event>, id: nat, t: Flight, counters: map<BudgetKey, int>, input: Input)
    requires FlightOk(cfg.guard, t) && Traced(trace, id, t) && FlightStep(cfg, t, counters, input).Some?
    ensures var m := FlightStep(cfg, t, counters, input).value;
            |m.actions| <= 1 &&
            (m.actions != [] ==> Allowed(trace, Event(id, m.actions[0]))) &&
            Traced(trace + Stamp(id, m.actions), id, m.flight)
  {
    var m := FlightStep(cfg, t, counters, input).value;
    StepAllowed(cfg, trace, id, t, counters, input);
    if m.actions == [] {
      assert trace + Stamp(id, m.actions) == trace;
      QuietStepTraced(cfg, trace, id, t, counters, input);
    } else {
      assert Stamp(id, m.actions) == [Event(id, m.actions[0])];
      var e := Event(id, m.actions[0]);
      AppendExtends(trace, e);
      StepPaid(cfg, trace, trace + [e], id, t, counters, input);
      StepCallShows(cfg, trace, trace + [e], id, t, counters, input);
      StepSettledMatches(cfg, trace, trace + [e], id, t, counters, input);
    }
  }

  lemma LawfulAppend(trace: seq<Event>, e: Event)
    requires Lawful(trace) && Allowed(trace, e)
    ensures Lawful(trace + [e])
  {
    var longer := trace + [e];
    forall p | 0 <= p < |longer|
      ensures Allowed(longer[..p], longer[p])
    {
      if p < |trace| {
        assert longer[..p] == trace[..p];
      } else {
        assert longer[..p] == trace;
      }
    }
  }

  lemma AdvanceLawful(cfg: Config, s: State, id: nat, input: Input)
    requires Lawful(s.trace) && FlightsTraced(cfg, s) && Step(cfg, s, Advance(id, input)).Some?
    ensures Lawful(Step(cfg, s, Advance(id, input)).value.trace)
  {
    var m := FlightStep(cfg, s.flights[id], s.counters, input).value;
    StepAllowed(cfg, s.trace, id, s.flights[id], s.counters, input);
    if m.actions == [] {
      assert s.trace + Stamp(id, m.actions) == s.trace;
    } else {
      assert Stamp(id, m.actions) == [Event(id, m.actions[0])];
      LawfulAppend(s.trace, Event(id, m.actions[0]));
    }
  }

  lemma AdvanceTraced(cfg: Config, s: State, id: nat, input: Input, i: nat)
    requires FlightsTraced(cfg, s) && Step(cfg, s, Advance(id, input)).Some? && i < |s.flights|
    ensures var s' := Step(cfg, s, Advance(id, input)).value;
            FlightOk(cfg.guard, s'.flights[i]) && Traced(s'.trace, i, s'.flights[i])
  {
    var m := FlightStep(cfg, s.flights[id], s.counters, input).value;
    FlightOkStep(cfg, s.flights[id], s.counters, input);
    TracedStep(cfg, s.trace, id, s.flights[id], s.counters, input);
    if i != id {
      if m.actions == [] {
        assert s.trace + Stamp(id, m.actions) == s.trace;
      } else {
        var e := Event(id, m.actions[0]);
        assert Stamp(id, m.actions) == [e];
        AppendExtends(s.trace, e);
        TracedFrame(s.trace, s.trace + [e], e, i, s.flights[i]);
      }
    }
  }

  lemma AdvanceFlightsTraced(cfg: Config, s: State, id: nat, input: Input)
    requires FlightsTraced(cfg, s) && Step(cfg, s, Advance(id, input)).Some?
    ensures FlightsTraced(cfg, Step(cfg, s, Advance(id, input)).value)
  {
    var s' := Step(cfg, s, Advance(id, input)).value;
    forall i | 0 <= i < |s'.flights|
      ensures FlightOk(cfg.guard, s'.flights[i]) && Traced(s'.trace, i, s'.flights[i])
    {
      AdvanceTraced(cfg, s, id, input, i);
    }
  }

  lemma StepEntitles(cfg: Config, t: Flight, counters: map<BudgetKey, int>, input: Input)
    requires FlightStep(cfg, t, counters, input).Some?
    ensures var m := FlightStep(cfg, t, counters, input).value;
            m.flight.request == t.request && forall a | a in m.actions && a.Entitled? :: BothPolicies(cfg, t.request)
  {
  }

  lemma AdvanceEntitles(cfg: Config, s: State, id: nat, input: Input)
    requires EntitledTrue(cfg, s) && Step(cfg, s, Advance(id, input)).Some?
    ensures EntitledTrue(cfg, Step(cfg, s, Advance(id, input)).value)
  {
    var s' := Step(cfg, s, Advance(id, input)).value;
    var m := FlightStep(cfg, s.flights[id], s.counters, input).value;
    StepEntitles(cfg, s.flights[id], s.counters, input);
    forall e | e in s'.trace && e.action.Entitled?
      ensures e.id < |s'.flights| && BothPolicies(cfg, s'.flights[e.id].request)
    {
      if e !in s.trace {
        assert e in Stamp(id, m.actions);
        assert e.id == id && e.action in m.actions;
      }
    }
  }

  lemma AdvanceLogged(cfg: Config, s: State, id: nat, input: Input)
    requires LogComplete(s) && LogTrue(s) && Step(cfg, s, Advance(id, input)).Some?
    ensures LogComplete(Step(cfg, s, Advance(id, input)).value)
    ensures LogTrue(Step(cfg, s, Advance(id, input)).value)
  {
    var s' := Step(cfg, s, Advance(id, input)).value;
    var t := s.flights[id];
    RecordStep(cfg, id, t, s.counters, input);
    forall i: nat
      ensures RecordsFor(s'.log, i) == if i < |s'.flights| && s'.flights[i].phase.Finished? then 1 else 0
    {
      RecordsAppend(s.log, RecordOf(id, t), i);
    }
    forall r | r in s'.log
      ensures RecordTrue(s', r)
    {
      if r in s.log {
        assert RecordTrue(s, r);
      }
    }
  }

  /** Only the last await writes a record, and it changes nothing else. */
  lemma RecordStep(cfg: Config, id: nat, t: Flight, counters: map<BudgetKey, int>, input: Input)
    requires FlightStep(cfg, t, counters, input).Some?
    ensures !t.phase.Finished?
    ensures var m := FlightStep(cfg, t, counters, input).value;
            (m.recorded <==> m.flight.phase.Finished?) &&
            (m.recorded ==> RecordOf(id, m.flight) == RecordOf(id, t))
  {
  }

  lemma ArriveSafe(cfg: Config, s: State, r: Request)
    requires SafeInv(cfg, s)
    ensures SafeInv(cfg, Step(cfg, s, Arrive(r)).value)
  {
    var s' := Step(cfg, s, Arrive(r)).value;
    var n := |s.flights|;
    assert forall i | 0 <= i < n :: s'.flights[i] == s.flights[i];
    assert forall e | e in s.trace :: e.id != n;
    assert Traced(s'.trace, n, Fresh(r));
    assert LogTrue(s') by {
      forall x | x in s'.log
        ensures RecordTrue(s', x)
      {
        assert RecordTrue(s, x);
      }
    }
  }

  lemma {:induction false} SafeReached(cfg: Config, s: State, moves: seq<Label>)
    requires SafeInv(cfg, s) && Run(cfg, s, moves).Some?
    ensures SafeInv(cfg, Run(cfg, s, moves).value)
    decreases moves
  {
    if moves != [] {
      match moves[0] {
        case Arrive(r) => ArriveSafe(cfg, s, r);
        case Advance(id, input) =>
          AdvanceLawful(cfg, s, id, input);
          AdvanceFlightsTraced(cfg, s, id, input);
          AdvanceEntitles(cfg, s, id, input);
          AdvanceLogged(cfg, s, id, input);
      }
      SafeReached(cfg, Step(cfg, s, moves[0]).value, moves[1..]);
    }
  }

  // ---------------------------------------------------------------- theorems

  /** Pipeline safety, over every interleaving of any number of requests. */
  lemma EveryHistoryLawful(cfg: Config, s: State)
    requires Reachable(cfg, s)
    ensures Lawful(s.trace)
  {
    var moves :| Run(cfg, INITIAL, moves) == Some(s);
    SafeReached(cfg, INITIAL, moves);
  }

  /** What a provider call needs was granted in order before it. */
  lemma CallsComeAfter(trace: seq<Event>, p: nat)
    requires Lawful(trace) && p < |trace| && trace[p].action.Called?
    ensures var past, id := trace[..p], trace[p].id;
            Happened(past, id, Entitled) && Happened(past, id, Consumed) && HoldsNow(past, id)
  {
    var id := trace[p].id;
    assert Allowed(trace[..p], trace[p]);
    var key :| Happened(trace[..p], id, Admitted(key));
    var q := WhenHappened(trace, p, id, Admitted(key));
    var r := WhenHappened(trace, q, id, Consumed);
    var e := WhenHappened(trace, r, id, Entitled);
    assert trace[..p][r] == Event(id, Consumed) && trace[..p][e] == Event(id, Entitled);
  }

  lemma WhenHappened(trace: seq<Event>, p: nat, id: nat, a: Action) returns (q: nat)
    requires Lawful(trace) && p <= |trace| && Happened(trace[..p], id, a)
    ensures q < p && trace[q] == Event(id, a) && Allowed(trace[..q], trace[q])
  {
    q :| q < p && trace[q] == Event(id, a);
  }

  /** A provider is called only for a request that has both policies, has paid
      a bucket token and holds a reservation neither settled nor released. */
  lemma CallsArePaidFor(cfg: Config, s: State, p: nat)
    requires Reachable(cfg, s) && p < |s.trace| && s.trace[p].action.Called?
    ensures var past, id := s.trace[..p], s.trace[p].id;
            id < |s.flights| && BothPolicies(cfg, s.flights[id].request) &&
            Happened(past, id, Entitled) && Happened(past, id, Consumed) && HoldsNow(past, id)
  {
    var moves :| Run(cfg, INITIAL, moves) == Some(s);
    SafeReached(cfg, INITIAL, moves);
    CallsComeAfter(s.trace, p);
    assert Event(s.trace[p].id, Entitled) in s.trace;
  }

  /** A request reserves at most once, and its reservation is settled, released
      or undone at most once, never two of them; settling and releasing happen
      on the key it was made on, undoing only without a reservation. */
  lemma ClosedOnce(cfg: Config, s: State, q: nat)
    requires Reachable(cfg, s) && q < |s.trace| && Closing(s.trace[q].action)
    ensures forall p | 0 <= p < |s.trace| && p != q && Closing(s.trace[p].action) :: s.trace[p].id != s.trace[q].id
    ensures var past, id := s.trace[..q], s.trace[q].id;
            match s.trace[q].action
            case Settled(key, _, _) => ReservedOn(past, id, key)
            case Released(key) => ReservedOn(past, id, key)
            case _ => !Admits(past, id)
  {
    EveryHistoryLawful(cfg, s);
    forall p | 0 <= p < |s.trace| && p != q && Closing(s.trace[p].action)
      ensures s.trace[p].id != s.trace[q].id
    {
      ClosingsApart(s.trace, p, q);
    }
    assert Allowed(s.trace[..q], s.trace[q]);
    OneAdmission(s.trace, q, s.trace[q].id);
  }

  lemma ClosingsApart(trace: seq<Event>, i: nat, j: nat)
    requires Lawful(trace) && i < |trace| && j < |trace| && i != j
    requires Closing(trace[i].action) && Closing(trace[j].action)
    ensures trace[i].id != trace[j].id
  {
    var first, last := if i < j then i else j, if i < j then j else i;
    assert Allowed(trace[..last], trace[last]);
    assert trace[..last][first] == trace[first];
    assert trace[first] in trace[..last];
  }

  /** The request's one reservation is on this key. */
  ghost predicate ReservedOn(past: seq<Event>, id: nat, key: BudgetKey) {
    Happened(past, id, Admitted(key)) && forall k :: Happened(past, id, Admitted(k)) ==> k == key
  }

  lemma OneAdmission(trace: seq<Event>, q: nat, id: nat)
    requires Lawful(trace) && q <= |trace|
    ensures forall k, k' :: Happened(trace[..q], id, Admitted(k)) && Happened(trace[..q], id, Admitted(k')) ==> k == k'
  {
    forall k, k' | Happened(trace[..q], id, Admitted(k)) && Happened(trace[..q], id, Admitted(k'))
      ensures k == k'
    {
      var i :| 0 <= i < q && trace[i] == Event(id, Admitted(k));
      var j :| 0 <= j < q && trace[j] == Event(id, Admitted(k'));
      AdmissionsMeet(trace, i, j);
    }
  }

  lemma AdmissionsMeet(trace: seq<Event>, i: nat, j: nat)
    requires Lawful(trace) && i < |trace| && j < |trace| && trace[i].id == trace[j].id
    requires trace[i].action.Admitted? && trace[j].action.Admitted?
    ensures i == j
  {
    var first, last := if i < j then i else j, if i < j then j else i;
    assert Allowed(trace[..last], trace[last]);
    if first < last {
      assert trace[..last][first] == trace[first];
      assert Happened(trace[..last], trace[last].id, trace[first].action);
    }
  }

  /** What a usage record says of the request it names. */
  ghost predicate Faithful(s: State, r: UsageRecord)
    requires r.requestId < |s.flights|
  {
    var t := s.flights[r.requestId];
    && r.tenant == t.request.tenant && r.model == t.request.model
    && r.periodKey == (if t.reservation.Some? then t.reservation.value else "unknown")
    && if r.status.Success? then
         t.reservation.Some? &&
         Happened(s.trace, r.requestId, Settled(ReservedKey(t), t.request.estimate, r.prompt + r.completion))
       else
         r.prompt == 0 && r.completion == 0 &&
         forall e | e in s.trace && e.id == r.requestId :: !e.action.Settled?
  }

  lemma RecordFaithful(cfg: Config, s: State, r: UsageRecord)
    requires FlightsTraced(cfg, s) && RecordTrue(s, r)
    ensures Faithful(s, r)
  {
    assert Traced(s.trace, r.requestId, s.flights[r.requestId]);
  }

  /** Every finished dispatch has written exactly one usage record, an
      unfinished one none; a record names the requested model and the period
      its reservation was made in, and it says "success" exactly when the
      request settled, for the tokens it settled at. */
  lemma OneRecordEach(cfg: Config, s: State, id: nat)
    requires Reachable(cfg, s)
    ensures RecordsFor(s.log, id) == if id < |s.flights| && s.flights[id].phase.Finished? then 1 else 0
    ensures forall r | r in s.log :: r.requestId < |s.flights| && Faithful(s, r)
  {
    var moves :| Run(cfg, INITIAL, moves) == Some(s);
    SafeReached(cfg, INITIAL, moves);
    forall r | r in s.log
      ensures r.requestId < |s.flights| && Faithful(s, r)
    {
      assert RecordTrue(s, r);
      RecordFaithful(cfg, s, r);
    }
  }
}
