/** gateway/core/service.py and gateway/budget/tracker.py as a state machine:
    any number of requests run _dispatch at once, and every await on Redis, a
    provider or the usage sink is a point where another request may move. One
    step of a request is what it does between two awaits; the replies it gets
    (bucket, clock, routing, provider) are arbitrary inputs. */
module Pipeline {
  import opened Wrappers
  import opened RedisKeys
  import TokenBucket
  import Routing

  // --------------------------------------------------------------- policies

  datatype OnExceed = Block | Warn

  datatype BudgetPolicy = BudgetPolicy(period: Period, maxTokens: Option<nat>, onExceed: OnExceed)

  datatype PolicyResolver = PolicyResolver(
    rateLimits: map<(Uuid, string), TokenBucket.Policy>,
    budgets: map<(Uuid, string), BudgetPolicy>)

  /** The policy for the exact model, else the tenant's "*" policy. */
  function PolicyFor<P>(policies: map<(Uuid, string), P>, tenant: Uuid, model: string): Option<P> {
    if (tenant, model) in policies then Some(policies[(tenant, model)])
    else if (tenant, "*") in policies then Some(policies[(tenant, "*")])
    else None
  }

  /** The release guard of the except block: as the code has it, and as its
      comment describes it. */
  datatype Guard = AsWritten | Corrected

  datatype Config = Config(policies: PolicyResolver, maxFailoverAttempts: int, guard: Guard)

  // ------------------------------------------------------------------ state

  datatype Status = Success | ProviderError | Timeout | RateLimited | BudgetExceeded | AllProvidersDown

  /** What a provider call can come back with. */
  datatype Outcome = Served(servedModel: string, prompt: nat, completion: nat) | TimedOut | Unavailable

  datatype BudgetKey = BudgetKey(tenant: Uuid, model: string, period: PeriodText)

  datatype Request = Request(tenant: Uuid, model: string, estimate: nat)

  /** The await a request is parked at. */
  datatype Phase =
    | Starting
    | AwaitingBucket
    | AwaitingReserve
    | AwaitingUndo(period: PeriodText)
    | AwaitingBackends
    | Calling(k: nat)
    | MarkingUp(k: nat)
    | MarkingDown(k: nat, timedOut: bool)
    | AwaitingReconcile
    | AwaitingRelease
    | Recording
    | Finished

  /** _dispatch's local variables. */
  datatype Flight = Flight(
    request: Request,
    phase: Phase,
    reservation: Option<PeriodText>,
    status: Status,
    prompt: nat,
    completion: nat,
    backendUsed: Option<string>,
    servedModel: Option<string>,
    failovers: nat,
    attempts: seq<string>)

  datatype UsageRecord = UsageRecord(
    requestId: nat,
    tenant: Uuid,
    model: string,
    servedModel: Option<string>,
    backendId: Option<string>,
    status: Status,
    prompt: nat,
    completion: nat,
    failovers: nat,
    periodKey: string)

  /** What a step does to the outside, kept as a history. */
  datatype Action =
    | Entitled
    | Consumed
    | Admitted(key: BudgetKey)
    | Undone(key: BudgetKey)
    | Unrouted(key: BudgetKey, reserved: nat)
    | Called(backend: string)
    | MarkedUp(backend: string)
    | MarkedDown(backend: string)
    | Settled(key: BudgetKey, reserved: nat, actual: nat)
    | Released(key: BudgetKey)
    | Recorded

  datatype Event = Event(id: nat, action: Action)

  datatype State = State(
    counters: map<BudgetKey, int>,
    flights: seq<Flight>,
    log: seq<UsageRecord>,
    trace: seq<Event>)

  const INITIAL := State(map[], [], [], [])

  // ------------------------------------------------------------------ steps

  datatype Input =
    | Proceed
    | BucketReply(allowed: bool)
    | Today(date: Date)
    | Routed(backends: Option<seq<string>>)
    | Replied(outcome: Outcome)

  datatype Label = Arrive(request: Request) | Advance(id: nat, input: Input)

  function Read<K>(counters: map<K, int>, key: K): int {
    if key in counters then counters[key] else 0
  }

  function IncrBy<K>(counters: map<K, int>, key: K, delta: int): map<K, int> {
    counters[key := Read(counters, key) + delta]
  }

  function Fresh(r: Request): Flight {
    Flight(r, Starting, None, Success, 0, 0, None, None, 0, [])
  }

  function KeyFor(t: Flight, period: PeriodText): BudgetKey {
    BudgetKey(t.request.tenant, t.request.model, period)
  }

  function ReservedKey(t: Flight): BudgetKey
    requires t.reservation.Some?
  {
    KeyFor(t, t.reservation.value)
  }

  function Actual(t: Flight): nat {
    t.prompt + t.completion
  }

  /** The except block: whether the reservation is released, and the status. */
  function Raise(guard: Guard, t: Flight): Flight {
    var release := t.reservation.Some? && (guard.Corrected? || t.status != Success);
    t.(phase := if release then AwaitingRelease else Recording,
       status := if t.status == Success then ProviderError else t.status)
  }

  function RecordOf(id: nat, t: Flight): UsageRecord {
    UsageRecord(id, t.request.tenant, t.request.model, t.servedModel, t.backendUsed, t.status,
                t.prompt, t.completion, t.failovers,
                match t.reservation case Some(p) => p case None => "unknown")
  }

  datatype Move = Move(flight: Flight, counters: map<BudgetKey, int>, actions: seq<Action>, recorded: bool)

  /** One request's step from its current await to the next. */
  function FlightStep(cfg: Config, t: Flight, counters: map<BudgetKey, int>, input: Input): Option<Move> {
    match (t.phase, input)
    case (Starting, Proceed) =>
      var r := t.request;
      if PolicyFor(cfg.policies.rateLimits, r.tenant, r.model).None?
         || PolicyFor(cfg.policies.budgets, r.tenant, r.model).None?
      then Some(Move(Raise(cfg.guard, t), counters, [], false))
      else Some(Move(t.(phase := AwaitingBucket), counters, [Entitled], false))
    case (AwaitingBucket, BucketReply(allowed)) =>
      if allowed then Some(Move(t.(phase := AwaitingReserve), counters, [Consumed], false))
      else Some(Move(Raise(cfg.guard, t.(status := RateLimited)), counters, [], false))
    case (AwaitingReserve, Today(date)) =>
      var policy := PolicyFor(cfg.policies.budgets, t.request.tenant, t.request.model);
      if policy.None? then None
      else
        var period := PeriodKey(policy.value.period, date);
        var key := KeyFor(t, period);
        var counters' := IncrBy(counters, key, t.request.estimate);
        var limit := policy.value.maxTokens;
        if limit.Some? && Read(counters', key) > limit.value && policy.value.onExceed.Block?
        then Some(Move(t.(phase := AwaitingUndo(period)), counters', [], false))
        else Some(Move(t.(phase := AwaitingBackends, reservation := Some(period)), counters', [Admitted(key)], false))
    case (AwaitingUndo(period), Proceed) =>
      var key := KeyFor(t, period);
      Some(Move(Raise(cfg.guard, t.(status := BudgetExceeded)),
                IncrBy(counters, key, 0 - t.request.estimate), [Undone(key)], false))
    case (AwaitingBackends, Routed(None)) =>
      if t.reservation.None? then None
      else Some(Move(Raise(cfg.guard, t), counters, [Unrouted(ReservedKey(t), t.request.estimate)], false))
    case (AwaitingBackends, Routed(Some(backends))) =>
      var attempts := Routing.Slice(backends, cfg.maxFailoverAttempts);
      var t' := t.(attempts := attempts);
      if attempts == [] then Some(Move(Raise(cfg.guard, t'.(status := AllProvidersDown)), counters, [], false))
      else Some(Move(t'.(phase := Calling(0)), counters, [], false))
    case (Calling(k), Replied(outcome)) =>
      if k >= |t.attempts| then None
      else
        var t' := match outcome
          case Served(m, p, c) =>
            t.(phase := MarkingUp(k), backendUsed := Some(t.attempts[k]), servedModel := Some(m),
               prompt := p, completion := c)
          case TimedOut => t.(phase := MarkingDown(k, true))
          case Unavailable => t.(phase := MarkingDown(k, false));
        Some(Move(t', counters, [Called(t.attempts[k])], false))
    case (MarkingUp(k), Proceed) =>
      if k >= |t.attempts| then None
      else Some(Move(t.(phase := AwaitingReconcile), counters, [MarkedUp(t.attempts[k])], false))
    case (MarkingDown(k, timedOut), Proceed) =>
      if k >= |t.attempts| then None
      else
        var t' := if k + 1 < |t.attempts| then t.(phase := Calling(k + 1), failovers := t.failovers + 1)
                  else Raise(cfg.guard, t.(status := if timedOut then Timeout else AllProvidersDown));
        Some(Move(t', counters, [MarkedDown(t.attempts[k])], false))
    case (AwaitingReconcile, Proceed) =>
      if t.reservation.None? then None
      else
        var delta := Actual(t) - t.request.estimate;
        var counters' := if delta == 0 then counters else IncrBy(counters, ReservedKey(t), delta);
        Some(Move(t.(phase := Recording), counters', [Settled(ReservedKey(t), t.request.estimate, Actual(t))], false))
    case (AwaitingRelease, Proceed) =>
      if t.reservation.None? then None
      else Some(Move(t.(phase := Recording), IncrBy(counters, ReservedKey(t), 0 - t.request.estimate),
                     [Released(ReservedKey(t))], false))
    case (Recording, Proceed) =>
      Some(Move(t.(phase := Finished), counters, [Recorded], true))
    case _ => None
  }

  function Stamp(id: nat, actions: seq<Action>): seq<Event> {
    seq(|actions|, i requires 0 <= i < |actions| => Event(id, actions[i]))
  }

  function Step(cfg: Config, s: State, move: Label): Option<State> {
    match move
    case Arrive(r) => Some(s.(flights := s.flights + [Fresh(r)]))
    case Advance(id, input) =>
      if id >= |s.flights| then None
      else
        match FlightStep(cfg, s.flights[id], s.counters, input)
        case None => None
        case Some(m) =>
          Some(State(m.counters, s.flights[id := m.flight],
                     if m.recorded then s.log + [RecordOf(id, s.flights[id])] else s.log,
                     s.trace + Stamp(id, m.actions)))
  }

  function Run(cfg: Config, s: State, labels: seq<Label>): Option<State>
    decreases labels
  {
    if labels == [] then Some(s)
    else match Step(cfg, s, labels[0])
      case None => None
      case Some(s') => Run(cfg, s', labels[1..])
  }

  lemma {:induction false} RunSplits(cfg: Config, s: State, xs: seq<Label>, ys: seq<Label>)
    requires Run(cfg, s, xs).Some?
    ensures Run(cfg, s, xs + ys) == Run(cfg, Run(cfg, s, xs).value, ys)
    decreases xs
  {
    if xs == [] {
      assert xs + ys == ys;
    } else {
      assert (xs + ys)[1..] == xs[1..] + ys;
      RunSplits(cfg, Step(cfg, s, xs[0]).value, xs[1..], ys);
    }
  }
}
