/** GatewayService._dispatch as the code runs it, one statement after another
    over the shared stores: which answer it gives and what it leaves in each
    store. A run of it that no other request interrupts is proved to be a run
    of the state machine in Pipeline, from any state of the others; the runs
    where requests interleave are the machine's own. */
module Service {
  import opened Wrappers
  import opened Errors
  import opened RedisKeys
  import TokenBucket
  import CircuitBreaker
  import RateLimiter
  import Breaker
  import opened Registry
  import opened Routing
  import opened Budget
  import opened Pipeline
  import opened Accounting

  // ----------------------------------------------- breaker marks of a loop

  /** What one call tells the breaker of the backend it went to. */
  function Mark(answer: Outcome, at: real): CircuitBreaker.Event {
    if answer.Served? then CircuitBreaker.Success(at) else CircuitBreaker.Failure(at)
  }

  /** The breaker store after the first n calls, one mark each. */
  function Marked(settings: CircuitBreaker.Settings, store: map<string, CircuitBreaker.Entry>, model: string,
      attempts: seq<Backend>, answers: nat -> Outcome, at: nat -> real, n: nat): map<string, CircuitBreaker.Entry>
    requires n <= |attempts|
  {
    if n == 0 then store
    else
      var before := Marked(settings, store, model, attempts, answers, at, n - 1);
      var key := Breaker.BreakerKey(attempts[n - 1].id, model);
      before[key := CircuitBreaker.Record(settings, Breaker.Lookup(before, key), Mark(answers(n - 1), at(n - 1)))]
  }

  lemma MarkedNext(settings: CircuitBreaker.Settings, store: map<string, CircuitBreaker.Entry>, model: string,
      attempts: seq<Backend>, answers: nat -> Outcome, at: nat -> real, k: nat)
    requires k < |attempts|
    ensures var before := Marked(settings, store, model, attempts, answers, at, k);
            var key := Breaker.BreakerKey(attempts[k].id, model);
            Marked(settings, store, model, attempts, answers, at, k + 1)
            == before[key := CircuitBreaker.Record(settings, Breaker.Lookup(before, key), Mark(answers(k), at(k)))]
  {
  }

  function BackendIds(bs: seq<Backend>): seq<string> {
    seq(|bs|, i requires 0 <= i < |bs| => bs[i].id)
  }

  /** What the failover loop leaves behind. */
  datatype Tried = Tried(
    calls: nat,
    answer: Option<Outcome>,
    failovers: nat,
    lastError: Option<GatewayError>)

  /** The calls made form the shortest prefix of the attempts that ends in a
      success, or all of them when there is none. */
  ghost predicate FailedOver(attempts: seq<Backend>, answers: nat -> Outcome, r: Tried) {
    && r.calls <= |attempts|
    && (forall j | 0 <= j < r.calls - 1 :: !answers(j).Served?)
    && r.failovers == (if r.calls == 0 then 0 else r.calls - 1)
    && (if r.calls > 0 && answers(r.calls - 1).Served?
        then r.answer == Some(answers(r.calls - 1))
        else r.calls == |attempts| && r.answer == None)
    && r.lastError == (var failures := if r.answer.Some? then r.calls - 1 else r.calls;
                       if failures == 0 then None
                       else if answers(failures - 1).TimedOut? then Some(ProviderTimeout)
                       else Some(AllProvidersUnavailable))
  }

  // ------------------------------------------------------- machine tracking

  /** The counters are m0's, plus what this flight has on them. */
  ghost predicate Accounted(cfg: Config, m0: State, m: State, t: Flight) {
    && FlightOk(cfg.guard, t)
    && forall key {:trigger Weigh(cfg.guard, Charge(key), t)} ::
         Read(m.counters, key) == Read(m0.counters, key) + Weigh(cfg.guard, Charge(key), t)
  }

  /** From m0 these moves reach m, which is m0 plus one flight. */
  ghost predicate At(cfg: Config, m0: State, moves: seq<Label>, m: State, t: Flight) {
    && Run(cfg, m0, moves) == Some(m)
    && m.flights == m0.flights + [t]
    && m.log == m0.log
    && Accounted(cfg, m0, m, t)
  }

  lemma StepAccounted(cfg: Config, m0: State, m: State, t: Flight, input: Input, m': State)
    requires Accounted(cfg, m0, m, t) && FlightStep(cfg, t, m.counters, input).Some?
    requires m'.counters == FlightStep(cfg, t, m.counters, input).value.counters
    ensures Accounted(cfg, m0, m', FlightStep(cfg, t, m.counters, input).value.flight)
  {
    FlightOkStep(cfg, t, m.counters, input);
    var t' := FlightStep(cfg, t, m.counters, input).value.flight;
    forall key
      ensures Read(m'.counters, key) == Read(m0.counters, key) + Weigh(cfg.guard, Charge(key), t')
    {
      StepConserves(cfg, t, m.counters, input, key);
    }
  }

  lemma Begin(cfg: Config, m0: State, r: Request) returns (moves: seq<Label>, m: State)
    ensures At(cfg, m0, moves, m, Fresh(r)) && m.counters == m0.counters
  {
    moves := [Arrive(r)];
    m := Step(cfg, m0, Arrive(r)).value;
    assert Run(cfg, m, []) == Some(m);
    assert moves[1..] == [];
  }

  /** The machine follows one more await of the code. */
  lemma Walk(cfg: Config, m0: State, moves: seq<Label>, m: State, t: Flight, input: Input)
      returns (moves': seq<Label>, m': State)
    requires At(cfg, m0, moves, m, t) && FlightStep(cfg, t, m.counters, input).Some?
    requires !FlightStep(cfg, t, m.counters, input).value.recorded
    ensures var step := FlightStep(cfg, t, m.counters, input).value;
            At(cfg, m0, moves', m', step.flight) && m'.counters == step.counters
  {
    var move := Advance(|m0.flights|, input);
    moves' := moves + [move];
    RunSplits(cfg, m0, moves, [move]);
    m' := Step(cfg, m, move).value;
    assert Run(cfg, m', []) == Some(m');
    assert [move][1..] == [];
    assert Run(cfg, m, [move]) == Some(m');
    StepAccounted(cfg, m0, m, t, input, m');
  }

  /** The flight while its k-th call is out. */
  function CallingFlight(t: Flight, k: nat): Flight {
    t.(phase := Calling(k), failovers := k)
  }

  /** What the machine does at a failed call that is not the last. */
  lemma FailureMoves(cfg: Config, counters: map<BudgetKey, int>, t: Flight, answer: Outcome, k: nat)
    requires k + 1 < |t.attempts| && !answer.Served?
    ensures var marking := CallingFlight(t, k).(phase := MarkingDown(k, answer.TimedOut?));
            var called := FlightStep(cfg, CallingFlight(t, k), counters, Replied(answer));
            var marked := FlightStep(cfg, marking, counters, Proceed);
            called.Some? && !called.value.recorded && called.value.counters == counters &&
            called.value.flight == marking &&
            marked.Some? && !marked.value.recorded && marked.value.counters == counters &&
            marked.value.flight == CallingFlight(t, k + 1)
  {
  }

  /** The machine follows a failed call that is not the last. */
  lemma WalkFailure(cfg: Config, m0: State, moves: seq<Label>, m: State, t: Flight, answer: Outcome, k: nat)
      returns (moves': seq<Label>, m': State)
    requires At(cfg, m0, moves, m, CallingFlight(t, k)) && k + 1 < |t.attempts| && !answer.Served?
    ensures At(cfg, m0, moves', m', CallingFlight(t, k + 1)) && m'.counters == m.counters
  {
    var marking := CallingFlight(t, k).(phase := MarkingDown(k, answer.TimedOut?));
    FailureMoves(cfg, m.counters, t, answer, k);
    var moves1, m1 := Walk(cfg, m0, moves, m, CallingFlight(t, k), Replied(answer));
    moves', m' := Walk(cfg, m0, moves1, m1, marking, Proceed);
  }

  /** The machine follows k failed calls. */
  lemma {:induction false} WalkFailures(cfg: Config, m0: State, moves: seq<Label>, m: State, t: Flight,
      answers: nat -> Outcome, k: nat)
      returns (moves': seq<Label>, m': State)
    requires At(cfg, m0, moves, m, CallingFlight(t, 0)) && k < |t.attempts|
    requires forall j | 0 <= j < k :: !answers(j).Served?
    ensures At(cfg, m0, moves', m', CallingFlight(t, k)) && m'.counters == m.counters
    decreases k
  {
    if k == 0 {
      moves', m' := moves, m;
    } else {
      var moves1, m1 := WalkFailures(cfg, m0, moves, m, t, answers, k - 1);
      moves', m' := WalkFailure(cfg, m0, moves1, m1, t, answers(k - 1), k - 1);
    }
  }

  /** The flight after the loop. */
  function AfterLoop(guard: Guard, t: Flight, r: Tried): Flight
    requires r.calls <= |t.attempts| && (r.answer.Some? ==> r.calls > 0 && r.answer.value.Served?)
  {
    var t' := t.(failovers := r.failovers);
    if r.answer.Some? then
      t'.(phase := AwaitingReconcile, backendUsed := Some(t.attempts[r.calls - 1]),
          servedModel := Some(r.answer.value.servedModel),
          prompt := r.answer.value.prompt, completion := r.answer.value.completion)
    else Raise(guard, t'.(status := if r.lastError == Some(ProviderTimeout) then Timeout else AllProvidersDown))
  }

  /** The machine follows the last call: a success, or nothing left to try. */
  lemma WalkLast(cfg: Config, m0: State, moves: seq<Label>, m: State, t: Flight, answer: Outcome, k: nat)
      returns (moves': seq<Label>, m': State, t': Flight)
    requires At(cfg, m0, moves, m, CallingFlight(t, k)) && k < |t.attempts|
    requires answer.Served? || k + 1 == |t.attempts|
    ensures At(cfg, m0, moves', m', t') && m'.counters == m.counters
    ensures var t0 := t.(failovers := k);
            t' == if answer.Served? then
                    t0.(phase := AwaitingReconcile, backendUsed := Some(t.attempts[k]),
                        servedModel := Some(answer.servedModel),
                        prompt := answer.prompt, completion := answer.completion)
                  else Raise(cfg.guard, t0.(phase := MarkingDown(k, answer.TimedOut?),
                                            status := if answer.TimedOut? then Timeout else AllProvidersDown))
  {
    var called := FlightStep(cfg, CallingFlight(t, k), m.counters, Replied(answer)).value.flight;
    var moves1, m1 := Walk(cfg, m0, moves, m, CallingFlight(t, k), Replied(answer));
    t' := FlightStep(cfg, called, m1.counters, Proceed).value.flight;
    moves', m' := Walk(cfg, m0, moves1, m1, called, Proceed);
  }

  lemma WalkLoop(cfg: Config, m0: State, moves: seq<Label>, m: State, t: Flight, attempts: seq<Backend>,
      answers: nat -> Outcome, r: Tried) returns (moves': seq<Label>, m': State)
    requires At(cfg, m0, moves, m, CallingFlight(t, 0)) && t.attempts == BackendIds(attempts) && attempts != []
    requires t.status.Success? && FailedOver(attempts, answers, r)
    ensures At(cfg, m0, moves', m', AfterLoop(cfg.guard, t, r)) && m'.counters == m.counters
  {
    var k := r.calls - 1;
    assert r.calls > 0;
    var moves1, m1 := WalkFailures(cfg, m0, moves, m, t, answers, k);
    var t';
    moves', m', t' := WalkLast(cfg, m0, moves1, m1, t, answers(k), k);
    assert t' == AfterLoop(cfg.guard, t, r);
  }

  // ---------------------------------------------------------------- service

  /** The locals the except and finally blocks read. */
  datatype Locals = Locals(
    error: Option<GatewayError>,
    status: Status,
    reservation: Option<BudgetReservation>,
    prompt: nat,
    completion: nat,
    backendUsed: Option<string>,
    servedModel: Option<string>,
    failovers: nat)

  /** What the caller gets: the tokens served, or the error raised. */
  datatype Answered = Answered(backendUsed: string, servedModel: string, prompt: nat, completion: nat)

  /** The error of a request with no policy or an empty bucket. */
  function Ungranted(cfg: Config, r: Request, bucket: TokenBucket.Bucket, now: real): Option<GatewayError> {
    var rate := PolicyFor(cfg.policies.rateLimits, r.tenant, r.model);
    if rate.None? || PolicyFor(cfg.policies.budgets, r.tenant, r.model).None? then Some(ModelNotEntitled)
    else
      var reply := TakeFrom(rate.value, bucket, now).1;
      if reply.allowed then None else Some(RateLimitExceeded(reply.retryAfterMs as real / 1000.0))
  }

  /** The error of a request that never gets to routing: not granted, or its
      budget is full. */
  function Barred(cfg: Config, r: Request, bucket: TokenBucket.Bucket, counters: map<string, int>, now: real,
      today: Date): Option<GatewayError> {
    var budget := PolicyFor(cfg.policies.budgets, r.tenant, r.model);
    var ungranted := Ungranted(cfg, r, bucket, now);
    if ungranted.Some? || budget.None? then ungranted
    else
      var key := BudgetKey(r.tenant, r.model, PeriodKey(budget.value.period, today));
      if Refused(budget.value, Read(counters, RedisKey(key)) + r.estimate) then Some(GatewayError.BudgetExceeded)
      else None
  }

  /** A token taken from the bucket as it is found. */
  function TakeFrom(policy: TokenBucket.Policy, bucket: TokenBucket.Bucket, now: real)
      : (TokenBucket.Bucket, TokenBucket.Reply) {
    TokenBucket.Eval(TokenBucket.LimitsOf(policy), TokenBucket.Surviving(bucket, now), TokenBucket.Call(now, 1.0))
  }

  function BucketOf(r: Request, buckets: map<string, TokenBucket.Bucket>): TokenBucket.Bucket {
    RateLimiter.Lookup(buckets, RateLimiter.BucketKey(r.tenant, r.model))
  }

  /** An entitled request takes from its own tenant and model's bucket, and no
      other bucket moves. */
  ghost predicate TokenTaken(cfg: Config, r: Request, now: real, before: map<string, TokenBucket.Bucket>,
      after: map<string, TokenBucket.Bucket>) {
    var rate := PolicyFor(cfg.policies.rateLimits, r.tenant, r.model);
    if rate.None? || PolicyFor(cfg.policies.budgets, r.tenant, r.model).None? then after == before
    else
      BucketOf(r, after) == TakeFrom(rate.value, BucketOf(r, before), now).0 &&
      forall o: Request | o.tenant != r.tenant || o.model != r.model :: BucketOf(o, after) == BucketOf(o, before)
  }

  /** What the caller gets once the request is routed and its backends tried. */
  ghost function Verdict(routing: Result<seq<Backend>, GatewayError>, limit: int, answers: nat -> Outcome, tried: Tried)
      : Result<Answered, GatewayError>
    requires routing.Ok? ==> FailedOver(Slice(routing.value, limit), answers, tried)
  {
    match routing
    case Err(e) => Err(e)
    case Ok(backends) =>
      match tried.answer
      case Some(a) =>
        Ok(Answered(Slice(backends, limit)[tried.calls - 1].id, a.servedModel, a.prompt, a.completion))
      case None =>
        Err(if tried.lastError.Some? then tried.lastError.value else AllProvidersUnavailable)
  }

  /** Which error a recorded failure status stands for. */
  predicate Reports(status: Status, e: GatewayError) {
    match status
    case Success => false
    case ProviderError => e.ModelNotEntitled? || e.AllProvidersUnavailable?
    case Timeout => e.ProviderTimeout?
    case RateLimited => e.RateLimitExceeded?
    case BudgetExceeded => e.BudgetExceeded?
    case AllProvidersDown => e.AllProvidersUnavailable?
  }

  /** The key a request reserves on today, if it has a budget policy. */
  function TodaysKey(cfg: Config, r: Request, today: Date): Option<BudgetKey> {
    match PolicyFor(cfg.policies.budgets, r.tenant, r.model)
    case None => None
    case Some(policy) => Some(BudgetKey(r.tenant, r.model, PeriodKey(policy.period, today)))
  }

  /** The status on record. */
  function StatusOf(barred: Option<GatewayError>, routing: Result<seq<Backend>, GatewayError>,
      result: Result<Answered, GatewayError>): Status {
    match (barred, result)
    case (Some(e), _) =>
      if e.RateLimitExceeded? then RateLimited
      else if e.BudgetExceeded? then Status.BudgetExceeded
      else ProviderError
    case (None, Ok(_)) => Success
    case (None, Err(e)) =>
      if routing.Err? then ProviderError else if e.ProviderTimeout? then Timeout else AllProvidersDown
  }

  /** What a dispatch leaves on today's counter: the tokens used, the whole
      estimate where get_backends raised, and else nothing. */
  function Net(r: Request, barred: Option<GatewayError>, routing: Result<seq<Backend>, GatewayError>,
      result: Result<Answered, GatewayError>): nat {
    if barred.Some? then 0
    else match result
      case Ok(a) => a.prompt + a.completion
      case Err(_) => if routing.Err? then r.estimate else 0
  }

  /** The budget counters moved by that much, on that key only. */
  ghost predicate Charged(cfg: Config, r: Request, today: Date, net: nat, before: map<string, int>,
      after: map<string, int>) {
    forall k: BudgetKey ::
      Read(after, RedisKey(k)) - Read(before, RedisKey(k)) == if TodaysKey(cfg, r, today) == Some(k) then net else 0
  }

  /** The machine's flight is this request, gone this way. */
  ghost predicate FlownAs(cfg: Config, t: Flight, r: Request, today: Date, barred: Option<GatewayError>,
      routing: Result<seq<Backend>, GatewayError>, tried: Tried, result: Result<Answered, GatewayError>) {
    && t.request == r
    && t.backendUsed == (match result case Ok(a) => Some(a.backendUsed) case Err(_) => None)
    && t.failovers == (if barred.None? && routing.Ok? then tried.failovers else 0)
    && t.status == StatusOf(barred, routing, result)
    && t.reservation == (if barred.Some? || TodaysKey(cfg, r, today).None? then None
                         else Some(TodaysKey(cfg, r, today).value.period))
    && Actual(t) == match result case Ok(a) => a.prompt + a.completion case Err(_) => 0
  }

  /** A request that gets through has a key to reserve on. */
  lemma UnbarredHasKey(cfg: Config, r: Request, bucket: TokenBucket.Bucket, counters: map<string, int>, now: real,
      today: Date)
    ensures Barred(cfg, r, bucket, counters, now, today).None? ==> TodaysKey(cfg, r, today).Some?
  {
  }

  /** The finished flight's charge is the net charge. */
  lemma FinishedCharge(cfg: Config, m0: State, m: State, t: Flight, t': Flight, r: Request, today: Date,
      barred: Option<GatewayError>, routing: Result<seq<Backend>, GatewayError>, tried: Tried,
      result: Result<Answered, GatewayError>, before: map<string, int>, after: map<string, int>)
    requires cfg.guard.AsWritten? && t' == t.(phase := Finished) && Accounted(cfg, m0, m, t')
    requires FlownAs(cfg, t, r, today, barred, routing, tried, result)
    requires barred.None? ==> TodaysKey(cfg, r, today).Some?
    requires Mirrors(before, m0.counters) && Mirrors(after, m.counters)
    ensures FlownAs(cfg, t', r, today, barred, routing, tried, result)
    ensures Charged(cfg, r, today, Net(r, barred, routing, result), before, after)
  {
    forall k: BudgetKey
      ensures Read(after, RedisKey(k)) - Read(before, RedisKey(k))
              == if TodaysKey(cfg, r, today) == Some(k) then Net(r, barred, routing, result) else 0
    {
      assert Read(after, RedisKey(k)) == Read(m.counters, k) && Read(before, RedisKey(k)) == Read(m0.counters, k);
      assert Read(m.counters, k) == Read(m0.counters, k) + Weigh(cfg.guard, Charge(k), t');
    }
  }

  /** The whole course of a dispatch: barred, or routed and its backends tried
      in turn, with the marks left on their breakers. */
  ghost predicate Went(barred: Option<GatewayError>, routing: Result<seq<Backend>, GatewayError>, limit: int,
      settings: CircuitBreaker.Settings, before: map<string, CircuitBreaker.Entry>,
      after: map<string, CircuitBreaker.Entry>, model: string, answers: nat -> Outcome, at: nat -> real,
      tried: Tried, result: Result<Answered, GatewayError>) {
    match barred
    case Some(e) => result == Err(e) && after == before
    case None => Tries(routing, limit, settings, before, after, model, answers, at, tried)
                 && result == Verdict(routing, limit, answers, tried)
  }

  ghost predicate Tries(routing: Result<seq<Backend>, GatewayError>, limit: int,
      settings: CircuitBreaker.Settings, before: map<string, CircuitBreaker.Entry>,
      after: map<string, CircuitBreaker.Entry>, model: string, answers: nat -> Outcome, at: nat -> real,
      tried: Tried) {
    match routing
    case Err(_) => after == before
    case Ok(backends) =>
      var attempts := Slice(backends, limit);
      FailedOver(attempts, answers, tried)
      && after == Marked(settings, before, model, attempts, answers, at, tried.calls)
  }

  /** The locals after get_backends and the failover loop. */
  ghost function LocalsAfter(reservation: BudgetReservation, routing: Result<seq<Backend>, GatewayError>, limit: int,
      answers: nat -> Outcome, tried: Tried): Locals
    requires routing.Ok? ==> FailedOver(Slice(routing.value, limit), answers, tried)
  {
    var bare := Locals(None, Success, Some(reservation), 0, 0, None, None, 0);
    match Verdict(routing, limit, answers, tried)
    case Ok(a) =>
      bare.(prompt := a.prompt, completion := a.completion, failovers := tried.failovers,
            backendUsed := Some(a.backendUsed), servedModel := Some(a.servedModel))
    case Err(e) =>
      if routing.Err? then bare.(error := Some(e))
      else
        var status := if tried.lastError == Some(ProviderTimeout) then Timeout else AllProvidersDown;
        bare.(status := status, error := Some(e), failovers := tried.failovers)
  }

  /** The answer the locals hold. */
  function ResultOf(l: Locals): Result<Answered, GatewayError>
    requires l.error.None? ==> l.backendUsed.Some? && l.servedModel.Some?
  {
    if l.error.Some? then Err(l.error.value)
    else Ok(Answered(l.backendUsed.value, l.servedModel.value, l.prompt, l.completion))
  }

  /** The locals and the machine's flight hold the same data. */
  ghost predicate SameData(l: Locals, t: Flight, r: Request) {
    && t.request == r
    && t.prompt == l.prompt && t.completion == l.completion
    && t.backendUsed == l.backendUsed && t.servedModel == l.servedModel && t.failovers == l.failovers
    && (l.reservation.Some? <==> t.reservation.Some?)
    && (l.reservation.Some? ==>
          l.reservation.value == BudgetReservation(r.tenant, r.model, t.reservation.value, r.estimate))
  }

  /** And tell the same story; without an error the flight is parked at
      `next`. */
  ghost predicate Agree(l: Locals, t: Flight, r: Request, next: Phase) {
    && SameData(l, t, r)
    && if l.error.None? then
         t.phase == next && t.status.Success? && l.status.Success?
         && l.reservation.Some? && l.backendUsed.Some? && l.servedModel.Some?
       else
         t.phase == (if l.reservation.Some? && !l.status.Success? then AwaitingRelease else Recording)
         && t.status == (if l.status.Success? then ProviderError else l.status)
         && l.prompt == 0 && l.completion == 0
         && Reports(t.status, l.error.value)
  }

  /** What the machine does at a reservation. */
  lemma ReserveMoves(cfg: Config, counters: map<BudgetKey, int>, r: Request, policy: BudgetPolicy, today: Date)
    requires PolicyFor(cfg.policies.budgets, r.tenant, r.model) == Some(policy)
    ensures var key := BudgetKey(r.tenant, r.model, PeriodKey(policy.period, today));
            var t := Fresh(r).(phase := AwaitingReserve);
            var moved := FlightStep(cfg, t, counters, Today(today));
            moved.Some? && !moved.value.recorded && moved.value.counters == IncrBy(counters, key, r.estimate) &&
            moved.value.flight == if Refused(policy, Read(counters, key) + r.estimate)
                                  then t.(phase := AwaitingUndo(key.period))
                                  else t.(phase := AwaitingBackends, reservation := Some(key.period))
  {
  }

  /** What it does at an undo. */
  lemma UndoMoves(cfg: Config, counters: map<BudgetKey, int>, r: Request, period: PeriodText)
    ensures var key := BudgetKey(r.tenant, r.model, period);
            var moved := FlightStep(cfg, Fresh(r).(phase := AwaitingUndo(period)), counters, Proceed);
            moved.Some? && !moved.value.recorded && moved.value.counters == IncrBy(counters, key, 0 - r.estimate) &&
            moved.value.flight == Fresh(r).(phase := Recording, status := Status.BudgetExceeded)
  {
  }

  /** The machine follows a reservation, and its undoing when refused. */
  lemma WalkReserve(cfg: Config, m0: State, moves0: seq<Label>, m1: State, r: Request, policy: BudgetPolicy,
      today: Date) returns (moves: seq<Label>, m: State)
    requires PolicyFor(cfg.policies.budgets, r.tenant, r.model) == Some(policy)
    requires At(cfg, m0, moves0, m1, Fresh(r).(phase := AwaitingReserve))
    ensures var key := BudgetKey(r.tenant, r.model, PeriodKey(policy.period, today));
            var charged := IncrBy(m1.counters, key, r.estimate);
            if Refused(policy, Read(m1.counters, key) + r.estimate) then
              m.counters == IncrBy(charged, key, 0 - r.estimate) &&
              At(cfg, m0, moves, m, Fresh(r).(phase := Recording, status := Status.BudgetExceeded))
            else
              m.counters == charged &&
              At(cfg, m0, moves, m, Fresh(r).(phase := AwaitingBackends, reservation := Some(key.period)))
  {
    var period := PeriodKey(policy.period, today);
    ReserveMoves(cfg, m1.counters, r, policy, today);
    moves, m := Walk(cfg, m0, moves0, m1, Fresh(r).(phase := AwaitingReserve), Today(today));
    if Refused(policy, Read(m1.counters, BudgetKey(r.tenant, r.model, period)) + r.estimate) {
      UndoMoves(cfg, m.counters, r, period);
      moves, m := Walk(cfg, m0, moves, m, Fresh(r).(phase := AwaitingUndo(period)), Proceed);
    }
  }

  lemma LocalsHoldVerdict(reservation: BudgetReservation, routing: Result<seq<Backend>, GatewayError>, limit: int,
      answers: nat -> Outcome, tried: Tried)
    requires routing.Ok? ==> FailedOver(Slice(routing.value, limit), answers, tried)
    ensures var l := LocalsAfter(reservation, routing, limit, answers, tried);
            (l.error.None? ==> l.backendUsed.Some? && l.servedModel.Some?) &&
            ResultOf(l) == Verdict(routing, limit, answers, tried)
  {
  }

  /** What the caller gets and what the record says agree. */
  predicate Answers(result: Result<Answered, GatewayError>, record: UsageRecord) {
    match result
    case Ok(a) =>
      record.status.Success? && record.backendId == Some(a.backendUsed) && record.servedModel == Some(a.servedModel)
      && record.prompt == a.prompt && record.completion == a.completion
    case Err(e) =>
      Reports(record.status, e) && record.prompt + record.completion == 0
  }

  lemma RecordAnswers(l: Locals, t: Flight, r: Request, requestId: nat)
    ensures Agree(l, t, r, Recording) ==> Answers(ResultOf(l), RecordOf(requestId, t.(phase := Finished)))
  {
  }

  /** The machine follows get_backends and the loop. */
  lemma WalkDelivery(cfg: Config, m0: State, moves0: seq<Label>, m1: State, r: Request, reservation: BudgetReservation,
      routing: Result<seq<Backend>, GatewayError>, answers: nat -> Outcome, tried: Tried)
      returns (moves: seq<Label>, m: State, t: Flight)
    requires cfg.guard.AsWritten?
    requires reservation == BudgetReservation(r.tenant, r.model, reservation.period, r.estimate)
    requires At(cfg, m0, moves0, m1, Fresh(r).(phase := AwaitingBackends, reservation := Some(reservation.period)))
    requires match routing
             case Err(e) => e.AllProvidersUnavailable?
             case Ok(backends) => FailedOver(Slice(backends, cfg.maxFailoverAttempts), answers, tried)
    ensures At(cfg, m0, moves, m, t)
    ensures Agree(LocalsAfter(reservation, routing, cfg.maxFailoverAttempts, answers, tried), t, r, AwaitingReconcile)
    ensures t.reservation == Some(reservation.period) &&
            t.failovers == (if routing.Ok? then tried.failovers else 0) &&
            t.status == StatusOf(None, routing, Verdict(routing, cfg.maxFailoverAttempts, answers, tried))
    ensures m.counters == m1.counters
  {
    t := Fresh(r).(phase := AwaitingBackends, reservation := Some(reservation.period));
    match routing {
      case Err(_) =>
        moves, m := Walk(cfg, m0, moves0, m1, t, Routed(None));
        t := Raise(cfg.guard, t);
      case Ok(backends) =>
        var attempts := Slice(backends, cfg.maxFailoverAttempts);
        moves, m := Walk(cfg, m0, moves0, m1, t, Routed(Some(BackendIds(backends))));
        assert Slice(BackendIds(backends), cfg.maxFailoverAttempts) == BackendIds(attempts);
        t := t.(attempts := BackendIds(attempts));
        if attempts != [] {
          moves, m := WalkLoop(cfg, m0, moves, m, t, attempts, answers, tried);
        }
        t := AfterLoop(cfg.guard, t, tried);
        assert At(cfg, m0, moves, m, t);
    }
  }

  class GatewayService {
    const cfg: Config
    const limiter: RateLimiter.TokenBucketLimiter
    const tracker: BudgetTracker
    const breaker: Breaker.BreakerStore
    const registry: BackendRegistry
    var log: seq<UsageRecord>

    ghost predicate Valid() {
      cfg.guard.AsWritten? && registry.breaker == breaker
    }

    constructor (policies: PolicyResolver, maxFailoverAttempts: int, limiter: RateLimiter.TokenBucketLimiter,
        tracker: BudgetTracker, registry: BackendRegistry)
      ensures Valid() && log == [] && this.tracker == tracker
    {
      cfg := Config(policies, maxFailoverAttempts, AsWritten);
      this.limiter := limiter;
      this.tracker := tracker;
      this.breaker := registry.breaker;
      this.registry := registry;
      log := [];
    }

    /** One provider call's outcome, marked on the backend's breaker. */
    method Call(backend: Backend, model: string, answer: Outcome, at: real)
      modifies breaker
      ensures var key := Breaker.BreakerKey(backend.id, model);
              var was := Breaker.Lookup(old(breaker.store), key);
              breaker.store
              == old(breaker.store)[key := CircuitBreaker.Record(breaker.settings, was, Mark(answer, at))]
    {
      if answer.Served? {
        breaker.RecordSuccess(backend.id, model, at);
      } else {
        breaker.RecordFailure(backend.id, model, at);
      }
    }

    /** The for/else loop: first success wins, each call marks its backend's
        breaker exactly once. */
    method Failover(attempts: seq<Backend>, model: string, answers: nat -> Outcome, at: nat -> real) returns (r: Tried)
      modifies breaker
      ensures FailedOver(attempts, answers, r)
      ensures breaker.store == Marked(breaker.settings, old(breaker.store), model, attempts, answers, at, r.calls)
    {
      var lastError: Option<GatewayError> := None;
      var failovers := 0;
      for k := 0 to |attempts|
        invariant failovers == if k == 0 then 0 else k - 1
        invariant forall j | 0 <= j < k :: !answers(j).Served?
        invariant lastError == if k == 0 then None
                               else if answers(k - 1).TimedOut? then Some(ProviderTimeout)
                               else Some(AllProvidersUnavailable)
        invariant breaker.store == Marked(breaker.settings, old(breaker.store), model, attempts, answers, at, k)
      {
        if k > 0 {
          failovers := failovers + 1;
        }
        var answer := answers(k);
        Call(attempts[k], model, answer, at(k));
        MarkedNext(breaker.settings, old(breaker.store), model, attempts, answers, at, k);
        match answer {
          case Served(_, _, _) => return Tried(k + 1, Some(answer), failovers, lastError);
          case TimedOut => lastError := Some(ProviderTimeout);
          case Unavailable => lastError := Some(AllProvidersUnavailable);
        }
      }
      return Tried(|attempts|, None, failovers, lastError);
    }

    /** get_backends, chat or embedding, and the failover loop. */
    method Deliver(reservation: BudgetReservation, model: string, embedding: bool, answers: nat -> Outcome,
        at: nat -> real, now: real) returns (l: Locals, ghost tried: Tried)
      requires Valid()
      modifies breaker
      ensures var routing := Answer(registry.ByModel(embedding), old(breaker.store), model, now);
              Tries(routing, cfg.maxFailoverAttempts, breaker.settings, old(breaker.store), breaker.store, model,
                    answers, at, tried) &&
              l == LocalsAfter(reservation, routing, cfg.maxFailoverAttempts, answers, tried)
    {
      l := Locals(None, Success, Some(reservation), 0, 0, None, None, 0);
      tried := Tried(0, None, 0, None);
      var routed;
      if embedding {
        routed := registry.GetEmbeddingBackends(model, now);
      } else {
        routed := registry.GetBackends(model, now);
      }
      if routed.Err? {
        l := l.(error := Some(routed.error));
        return;
      }
      var attempts := Slice(routed.value, cfg.maxFailoverAttempts);
      var outcome := Failover(attempts, model, answers, at);
      tried := outcome;
      l := l.(failovers := outcome.failovers);
      if outcome.answer.None? {
        var status := if outcome.lastError == Some(ProviderTimeout) then Timeout else AllProvidersDown;
        var error := if outcome.lastError.Some? then outcome.lastError else Some(AllProvidersUnavailable);
        l := l.(status := status, error := error);
        return;
      }
      var answer := outcome.answer.value;
      l := l.(prompt := answer.prompt, completion := answer.completion,
              backendUsed := Some(attempts[outcome.calls - 1].id), servedModel := Some(answer.servedModel));
    }

    /** The budget reservation, undone at once when refused. */
    method Reserve(r: Request, policy: BudgetPolicy, today: Date, ghost m0: State, ghost moves0: seq<Label>,
        ghost m1: State)
      returns (reserved: Result<BudgetReservation, GatewayError>, ghost moves: seq<Label>, ghost m: State)
      requires Mirrors(tracker.counters, m1.counters)
      requires PolicyFor(cfg.policies.budgets, r.tenant, r.model) == Some(policy)
      requires At(cfg, m0, moves0, m1, Fresh(r).(phase := AwaitingReserve))
      modifies tracker
      ensures Mirrors(tracker.counters, m.counters)
      ensures var key := BudgetKey(r.tenant, r.model, PeriodKey(policy.period, today));
              reserved == if Refused(policy, Read(old(tracker.counters), RedisKey(key)) + r.estimate)
                          then Err(GatewayError.BudgetExceeded)
                          else Ok(BudgetReservation(r.tenant, r.model, key.period, r.estimate))
      ensures match reserved
              case Ok(b) => At(cfg, m0, moves, m, Fresh(r).(phase := AwaitingBackends, reservation := Some(b.period)))
              case Err(_) => At(cfg, m0, moves, m, Fresh(r).(phase := Recording, status := Status.BudgetExceeded))
    {
      ghost var key := BudgetKey(r.tenant, r.model, PeriodKey(policy.period, today));
      IncrByMirrors(tracker.counters, m1.counters, key, r.estimate);
      reserved := tracker.Reserve(r.tenant, r.model, policy, r.estimate, today);
      moves, m := WalkReserve(cfg, m0, moves0, m1, r, policy, today);
      assert Refused(policy, Read(m1.counters, key) + r.estimate) == reserved.Err?;
      if reserved.Err? {
        IncrByMirrors(IncrBy(old(tracker.counters), RedisKey(key), r.estimate),
                      IncrBy(m1.counters, key, r.estimate), key, 0 - r.estimate);
      }
    }

    /** The try block from the reservation on. */
    method Spend(r: Request, policy: BudgetPolicy, today: Date, answers: nat -> Outcome, at: nat -> real, now: real,
        embedding: bool, ghost m0: State, ghost moves0: seq<Label>, ghost m1: State)
      returns (l: Locals, ghost tried: Tried, ghost moves: seq<Label>, ghost m: State, ghost t: Flight)
      requires Valid() && Mirrors(tracker.counters, m1.counters)
      requires PolicyFor(cfg.policies.budgets, r.tenant, r.model) == Some(policy)
      requires At(cfg, m0, moves0, m1, Fresh(r).(phase := AwaitingReserve))
      modifies tracker, breaker
      ensures At(cfg, m0, moves, m, t) && Agree(l, t, r, Recording)
      ensures Mirrors(tracker.counters, m.counters)
      ensures var key := BudgetKey(r.tenant, r.model, PeriodKey(policy.period, today));
              var full := Refused(policy, Read(old(tracker.counters), RedisKey(key)) + r.estimate);
              var barred := if full then Some(GatewayError.BudgetExceeded) else None;
              var routing := Answer(registry.ByModel(embedding), old(breaker.store), r.model, now);
              Went(barred, routing, cfg.maxFailoverAttempts, breaker.settings, old(breaker.store), breaker.store,
                   r.model, answers, at, tried, ResultOf(l)) &&
              FlownAs(cfg, t, r, today, barred, routing, tried, ResultOf(l))
    {
      tried := Tried(0, None, 0, None);
      var reserved;
      reserved, moves, m := Reserve(r, policy, today, m0, moves0, m1);
      if reserved.Err? {
        l := Locals(Some(reserved.error), Status.BudgetExceeded, None, 0, 0, None, None, 0);
        t := Fresh(r).(phase := Recording, status := Status.BudgetExceeded);
        return;
      }
      ghost var routing := Answer(registry.ByModel(embedding), breaker.store, r.model, now);
      l, tried := Deliver(reserved.value, r.model, embedding, answers, at, now);
      moves, m, t := WalkDelivery(cfg, m0, moves, m, r, reserved.value, routing, answers, tried);
      LocalsHoldVerdict(reserved.value, routing, cfg.maxFailoverAttempts, answers, tried);
      moves, m, t := Settle(l, r, m0, moves, m, t);
    }

    /** Reconciles when a backend served. */
    method Settle(l: Locals, r: Request, ghost m0: State, ghost moves0: seq<Label>, ghost m1: State, ghost t1: Flight)
      returns (ghost moves: seq<Label>, ghost m: State, ghost t: Flight)
      requires At(cfg, m0, moves0, m1, t1) && Agree(l, t1, r, AwaitingReconcile)
      requires Mirrors(tracker.counters, m1.counters)
      modifies tracker
      ensures At(cfg, m0, moves, m, t) && Agree(l, t, r, Recording) && Mirrors(tracker.counters, m.counters)
      ensures t == t1.(phase := t.phase)
    {
      moves, m, t := moves0, m1, t1;
      if l.error.None? {
        IncrByMirrors(tracker.counters, m.counters, ReservedKey(t), Actual(t) - r.estimate);
        tracker.Reconcile(l.reservation.value, l.prompt + l.completion);
        moves, m := Walk(cfg, m0, moves, m, t, Proceed);
        t := t.(phase := Recording);
      }
    }

    /** One token from the bucket, or the error with its hint. */
    method TakeToken(r: Request, policy: TokenBucket.Policy, now: real) returns (consumed: Result<(), GatewayError>)
      requires PolicyFor(cfg.policies.rateLimits, r.tenant, r.model) == Some(policy)
      requires PolicyFor(cfg.policies.budgets, r.tenant, r.model).Some?
      modifies limiter
      ensures TokenTaken(cfg, r, now, old(limiter.buckets), limiter.buckets)
      ensures var reply := TakeFrom(policy, BucketOf(r, old(limiter.buckets)), now).1;
              consumed == if reply.allowed then Ok(())
                          else Err(RateLimitExceeded(reply.retryAfterMs as real / 1000.0))
    {
      consumed := limiter.CheckAndConsume(r.tenant, r.model, policy, now, 1);
    }

    /** The try block up to the bucket: both policies, then one token. */
    method Enter(r: Request, now: real, ghost m0: State)
      returns (l: Locals, ghost moves: seq<Label>, ghost m: State, ghost t: Flight)
      modifies limiter
      ensures TokenTaken(cfg, r, now, old(limiter.buckets), limiter.buckets)
      ensures l.error == Ungranted(cfg, r, BucketOf(r, old(limiter.buckets)), now)
      ensures m.counters == m0.counters && At(cfg, m0, moves, m, t)
      ensures if l.error.None? then t == Fresh(r).(phase := AwaitingReserve)
              else Agree(l, t, r, Recording) && t.reservation.None? && t.backendUsed.None? && t.failovers == 0 &&
                   t.status == if l.error.value.RateLimitExceeded? then RateLimited else ProviderError
    {
      l := Locals(None, Success, None, 0, 0, None, None, 0);
      moves, m := Begin(cfg, m0, r);
      t := Fresh(r);
      var ratePolicy := PolicyFor(cfg.policies.rateLimits, r.tenant, r.model);
      var budgetPolicy := PolicyFor(cfg.policies.budgets, r.tenant, r.model);
      moves, m := Walk(cfg, m0, moves, m, t, Proceed);
      if ratePolicy.None? || budgetPolicy.None? {
        l, t := l.(error := Some(ModelNotEntitled)), Raise(cfg.guard, t);
        return;
      }
      t := t.(phase := AwaitingBucket);
      var consumed := TakeToken(r, ratePolicy.value, now);
      moves, m := Walk(cfg, m0, moves, m, t, BucketReply(consumed.Ok?));
      t := t.(phase := AwaitingReserve);
      if consumed.Err? {
        l, t := l.(status := RateLimited, error := Some(consumed.error)), t.(phase := Recording, status := RateLimited);
      }
    }

    /** The try block. */
    method Attempt(r: Request, now: real, today: Date, answers: nat -> Outcome, at: nat -> real, embedding: bool,
        ghost m0: State)
      returns (l: Locals, ghost tried: Tried, ghost moves: seq<Label>, ghost m: State, ghost t: Flight)
      requires Valid() && Mirrors(tracker.counters, m0.counters)
      modifies limiter, tracker, breaker
      ensures At(cfg, m0, moves, m, t) && Agree(l, t, r, Recording)
      ensures Mirrors(tracker.counters, m.counters)
      ensures var barred := Barred(cfg, r, BucketOf(r, old(limiter.buckets)), old(tracker.counters), now, today);
              var routing := Answer(registry.ByModel(embedding), old(breaker.store), r.model, now);
              Went(barred, routing, cfg.maxFailoverAttempts, breaker.settings, old(breaker.store), breaker.store,
                   r.model, answers, at, tried, ResultOf(l)) &&
              FlownAs(cfg, t, r, today, barred, routing, tried, ResultOf(l))
      ensures TokenTaken(cfg, r, now, old(limiter.buckets), limiter.buckets)
    {
      tried := Tried(0, None, 0, None);
      l, moves, m, t := Enter(r, now, m0);
      if l.error.None? {
        var policy := PolicyFor(cfg.policies.budgets, r.tenant, r.model).value;
        l, tried, moves, m, t := Spend(r, policy, today, answers, at, now, embedding, m0, moves, m);
      }
    }

    /** The except block: releases unless the status still reads "success". */
    method Recover(l: Locals, r: Request, ghost m0: State, ghost moves0: seq<Label>, ghost m1: State, ghost t1: Flight)
      returns (status: Status, ghost moves: seq<Label>, ghost m: State, ghost t: Flight)
      requires At(cfg, m0, moves0, m1, t1) && Agree(l, t1, r, Recording) && Mirrors(tracker.counters, m1.counters)
      modifies tracker
      ensures At(cfg, m0, moves, m, t) && SameData(l, t, r) && Mirrors(tracker.counters, m.counters)
      ensures t == t1.(phase := Recording) && status == t.status
    {
      moves, m, t := moves0, m1, t1;
      status := l.status;
      if l.error.Some? {
        if l.reservation.Some? && !status.Success? {
          IncrByMirrors(tracker.counters, m.counters, ReservedKey(t), 0 - r.estimate);
          tracker.Release(l.reservation.value);
          moves, m := Walk(cfg, m0, moves, m, t, Proceed);
          t := t.(phase := Recording);
        }
        if status.Success? {
          status := ProviderError;
        }
      }
    }

    /** The finally block: one usage record. */
    method WriteRecord(l: Locals, r: Request, requestId: nat, status: Status, ghost m0: State,
        ghost moves0: seq<Label>, ghost m1: State, ghost t: Flight) returns (ghost moves: seq<Label>, ghost m: State)
      requires requestId == |m0.flights| && log == m0.log
      requires At(cfg, m0, moves0, m1, t) && SameData(l, t, r) && t.phase.Recording? && t.status == status
      modifies this
      ensures Run(cfg, m0, moves) == Some(m) && m.flights == m0.flights + [t.(phase := Finished)]
      ensures m.counters == m1.counters && Accounted(cfg, m0, m, t.(phase := Finished))
      ensures log == m.log == old(log) + [RecordOf(requestId, t)]
    {
      var period := if l.reservation.Some? then l.reservation.value.period else "unknown";
      log := log + [UsageRecord(requestId, r.tenant, r.model, l.servedModel, l.backendUsed, status,
                                l.prompt, l.completion, l.failovers, period)];
      moves, m := Finish(cfg, m0, moves0, m1, t);
    }

    /** The except and finally blocks. */
    method Conclude(l: Locals, r: Request, requestId: nat, ghost m0: State, ghost moves0: seq<Label>, ghost m1: State,
        ghost t1: Flight) returns (ghost moves: seq<Label>, ghost m: State, ghost t: Flight)
      requires requestId == |m0.flights| && log == m0.log
      requires At(cfg, m0, moves0, m1, t1) && Agree(l, t1, r, Recording) && Mirrors(tracker.counters, m1.counters)
      modifies this, tracker
      ensures t == t1.(phase := Finished) && Accounted(cfg, m0, m, t) && Mirrors(tracker.counters, m.counters)
      ensures Run(cfg, m0, moves) == Some(m) && m.flights == m0.flights + [t]
      ensures log == m.log == old(log) + [RecordOf(requestId, t)] && Answers(ResultOf(l), RecordOf(requestId, t))
    {
      RecordAnswers(l, t1, r, requestId);
      var status;
      status, moves, m, t := Recover(l, r, m0, moves0, m1, t1);
      moves, m := WriteRecord(l, r, requestId, status, m0, moves, m, t);
      t := t.(phase := Finished);
    }

    /** _dispatch: the try block, then the except and finally blocks. The answer
        is what bucket, budget, routing and the backends' outcomes decide; only
        this request's bucket, its tried backends' breakers and its own counter
        move, the counter by the net charge.
        Whatever else the shared state holds (m0, with its other requests at
        any await), this request's run is a run of the state machine from
        there, it ends finished, and the answer agrees with its usage record. */
    method Dispatch(r: Request, requestId: nat, now: real, today: Date, answers: nat -> Outcome, at: nat -> real,
        embedding: bool, ghost m0: State)
      returns (result: Result<Answered, GatewayError>, ghost tried: Tried, ghost moves: seq<Label>, ghost m: State,
               ghost t: Flight)
      requires Valid() && requestId == |m0.flights|
      requires Mirrors(tracker.counters, m0.counters) && log == m0.log
      modifies this, limiter, tracker, breaker
      ensures var barred := Barred(cfg, r, BucketOf(r, old(limiter.buckets)), old(tracker.counters), now, today);
              var routing := Answer(registry.ByModel(embedding), old(breaker.store), r.model, now);
              Went(barred, routing, cfg.maxFailoverAttempts, breaker.settings, old(breaker.store), breaker.store,
                   r.model, answers, at, tried, result) &&
              FlownAs(cfg, t, r, today, barred, routing, tried, result) &&
              Charged(cfg, r, today, Net(r, barred, routing, result), old(tracker.counters), tracker.counters)
      ensures TokenTaken(cfg, r, now, old(limiter.buckets), limiter.buckets)
      ensures Run(cfg, m0, moves) == Some(m) && m.flights == m0.flights + [t] && t.phase.Finished?
      ensures Mirrors(tracker.counters, m.counters)
      ensures log == m.log == old(log) + [RecordOf(requestId, t)] && Answers(result, RecordOf(requestId, t))
    {
      var l;
      ghost var barred := Barred(cfg, r, BucketOf(r, limiter.buckets), tracker.counters, now, today);
      ghost var routing := Answer(registry.ByModel(embedding), breaker.store, r.model, now);
      UnbarredHasKey(cfg, r, BucketOf(r, limiter.buckets), tracker.counters, now, today);
      ghost var flown;
      l, tried, moves, m, flown := Attempt(r, now, today, answers, at, embedding, m0);
      moves, m, t := Conclude(l, r, requestId, m0, moves, m, flown);
      result := ResultOf(l);
      FinishedCharge(cfg, m0, m, flown, t, r, today, barred, routing, tried, result,
                     old(tracker.counters), tracker.counters);
    }
  }

  lemma Finish(cfg: Config, m0: State, moves: seq<Label>, m: State, t: Flight) returns (moves': seq<Label>, m': State)
    requires At(cfg, m0, moves, m, t) && t.phase.Recording?
    ensures Run(cfg, m0, moves') == Some(m') && m'.flights == m0.flights + [t.(phase := Finished)]
    ensures m'.counters == m.counters && m'.log == m0.log + [RecordOf(|m0.flights|, t)]
    ensures Accounted(cfg, m0, m', t.(phase := Finished))
  {
    var move := Advance(|m0.flights|, Proceed);
    moves' := moves + [move];
    RunSplits(cfg, m0, moves, [move]);
    m' := Step(cfg, m, move).value;
    assert Run(cfg, m', []) == Some(m');
    assert [move][1..] == [];
    assert Run(cfg, m, [move]) == Some(m');
    StepAccounted(cfg, m0, m, t, Proceed, m');
  }
}
