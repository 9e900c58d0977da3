/** What a dispatch decides, read off the maps, counters and outcomes it meets:
    which policies it finds, what a request costs, which error and status go
    with which cause, and what each provider call does to a breaker. */
module Decisions {
  import opened Wrappers
  import opened Errors
  import opened RedisKeys
  import TokenBucket
  import CircuitBreaker
  import Breaker
  import opened Registry
  import opened Routing
  import opened Budget
  import opened Pipeline
  import Accounting
  import opened Service

  // ---------------------------------------------------------------- policies

  /** The tenant's own entry for the model, else its "*" entry, else none. */
  lemma PolicyReads<P>(ps: map<(Uuid, string), P>, tenant: Uuid, model: string)
    ensures (tenant, model) in ps ==> PolicyFor(ps, tenant, model) == Some(ps[(tenant, model)])
    ensures (tenant, model) !in ps && (tenant, "*") in ps ==> PolicyFor(ps, tenant, model) == Some(ps[(tenant, "*")])
    ensures (tenant, model) !in ps && (tenant, "*") !in ps ==> PolicyFor(ps, tenant, model) == None
  {
  }

  /** An entry for the model overrides the wildcard, whichever was written
      last. */
  lemma ModelOverridesWildcard<P>(ps: map<(Uuid, string), P>, tenant: Uuid, model: string, own: P, wild: P)
    requires model != "*"
    ensures PolicyFor(ps[(tenant, model) := own][(tenant, "*") := wild], tenant, model) == Some(own)
    ensures PolicyFor(ps[(tenant, "*") := wild][(tenant, model) := own], tenant, model) == Some(own)
  {
  }

  /** What is written for another tenant, or for another model, never counts. */
  lemma OthersPoliciesIgnored<P>(ps: map<(Uuid, string), P>, tenant: Uuid, model: string, other: Uuid, m: string, p: P)
    requires other != tenant || (m != model && m != "*")
    ensures PolicyFor(ps[(other, m) := p], tenant, model) == PolicyFor(ps, tenant, model)
  {
  }

  /** The blocking cap on a key, from the same map. */
  lemma BlockCapReads(cfg: Config, key: BudgetKey, cap: nat)
    ensures var ps := cfg.policies.budgets;
            var found := if (key.tenant, key.model) in ps then (key.tenant, key.model) else (key.tenant, "*");
            Accounting.BlockCap(cfg, key) == Some(cap) <==>
            found in ps && ps[found].onExceed == Block && ps[found].maxTokens == Some(cap)
  {
  }

  /** Both maps hold an entry for the tenant, under the model or under "*". */
  predicate Entitled(cfg: Config, r: Request) {
    && ((r.tenant, r.model) in cfg.policies.rateLimits || (r.tenant, "*") in cfg.policies.rateLimits)
    && ((r.tenant, r.model) in cfg.policies.budgets || (r.tenant, "*") in cfg.policies.budgets)
  }

  function RateLimitOf(cfg: Config, r: Request): TokenBucket.Policy
    requires Entitled(cfg, r)
  {
    var ps := cfg.policies.rateLimits;
    if (r.tenant, r.model) in ps then ps[(r.tenant, r.model)] else ps[(r.tenant, "*")]
  }

  function BudgetOf(cfg: Config, r: Request): BudgetPolicy
    requires Entitled(cfg, r)
  {
    var ps := cfg.policies.budgets;
    if (r.tenant, r.model) in ps then ps[(r.tenant, r.model)] else ps[(r.tenant, "*")]
  }

  // ------------------------------------------------------- cost of a request

  /** The tokens in a bucket as the script finds it: full once an hour has
      passed, else refilled at the policy's rate per minute up to its burst. */
  lemma LevelReads(q: TokenBucket.Policy, tokens: real, since: real, idle: real)
    requires idle >= 0.0
    ensures var level := tokens + idle * (q.requestsPerMinute as real / 60.0);
            TokenBucket.Level(TokenBucket.LimitsOf(q),
                              TokenBucket.Surviving(TokenBucket.Stored(tokens, since), since + idle), since + idle)
            == if idle >= 3600.0 || level > q.burst as real then q.burst as real else level
  {
  }

  /** A request gets through exactly when one token is there, and takes it. */
  lemma RequestCostsOne(q: TokenBucket.Policy, bucket: TokenBucket.Bucket, now: real)
    ensures var level := TokenBucket.Level(TokenBucket.LimitsOf(q), TokenBucket.Surviving(bucket, now), now);
            var (b, reply) := TakeFrom(q, bucket, now);
            (reply.allowed <==> level >= 1.0) &&
            b == TokenBucket.Stored(if level >= 1.0 then level - 1.0 else level, now)
  {
  }

  /** These buckets follow one another as the tenant's requests for one model
      come in at one instant. */
  ghost predicate AtOnce(cfg: Config, r: Request, now: real, stores: seq<map<string, TokenBucket.Bucket>>) {
    forall i | 0 <= i < |stores| - 1 :: TokenTaken(cfg, r, now, stores[i], stores[i + 1])
  }

  lemma {:induction false} TokensLeft(cfg: Config, r: Request, now: real,
      stores: seq<map<string, TokenBucket.Bucket>>, i: nat)
    requires Entitled(cfg, r) && AtOnce(cfg, r, now, stores) && i < |stores| && i >= 1
    requires BucketOf(r, stores[0]) == TokenBucket.Missing
    ensures var burst := RateLimitOf(cfg, r).burst;
            BucketOf(r, stores[i]) == TokenBucket.Stored(if i <= burst then (burst - i) as real else 0.0, now)
    decreases i
  {
    var q := RateLimitOf(cfg, r);
    assert TokenTaken(cfg, r, now, stores[i - 1], stores[i]);
    PolicyReads(cfg.policies.rateLimits, r.tenant, r.model);
    PolicyReads(cfg.policies.budgets, r.tenant, r.model);
    RequestCostsOne(q, BucketOf(r, stores[i - 1]), now);
    if i > 1 {
      TokensLeft(cfg, r, now, stores, i - 1);
    }
  }

  /** From a missing bucket, of any number of requests at one instant the first
      `burst` are granted and no other. */
  lemma BurstAtOnce(cfg: Config, r: Request, now: real, stores: seq<map<string, TokenBucket.Bucket>>, i: nat)
    requires Entitled(cfg, r) && AtOnce(cfg, r, now, stores) && i < |stores|
    requires BucketOf(r, stores[0]) == TokenBucket.Missing
    ensures Ungranted(cfg, r, BucketOf(r, stores[i]), now) == None <==> i < RateLimitOf(cfg, r).burst
  {
    PolicyReads(cfg.policies.rateLimits, r.tenant, r.model);
    PolicyReads(cfg.policies.budgets, r.tenant, r.model);
    RequestCostsOne(RateLimitOf(cfg, r), BucketOf(r, stores[i]), now);
    if i > 0 {
      TokensLeft(cfg, r, now, stores, i);
    }
  }

  // ------------------------------------------------------------ the decision

  /** What the shared stores tell a request on arrival: the tokens in its
      bucket and on its budget counter. */
  function TokensFor(cfg: Config, r: Request, bucket: TokenBucket.Bucket, now: real): real
    requires Entitled(cfg, r)
  {
    TokenBucket.Level(TokenBucket.LimitsOf(RateLimitOf(cfg, r)), TokenBucket.Surviving(bucket, now), now)
  }

  function UsedBy(cfg: Config, r: Request, counters: map<string, int>, today: Date): int
    requires Entitled(cfg, r)
  {
    Read(counters, RedisKey(BudgetKey(r.tenant, r.model, PeriodKey(BudgetOf(cfg, r).period, today))))
  }

  /** Which requests are turned away, and why: without a policy in both maps;
      with less than one token; over a blocking cap. */
  lemma BarredReads(cfg: Config, r: Request, bucket: TokenBucket.Bucket, counters: map<string, int>, now: real,
      today: Date)
    ensures var barred := Barred(cfg, r, bucket, counters, now, today);
            if !Entitled(cfg, r) then barred == Some(ModelNotEntitled)
            else if TokensFor(cfg, r, bucket, now) < 1.0 then barred.Some? && barred.value.RateLimitExceeded?
            else
              var p := BudgetOf(cfg, r);
              barred == if p.onExceed == Block && p.maxTokens.Some? &&
                           UsedBy(cfg, r, counters, today) + r.estimate > p.maxTokens.value
                        then Some(GatewayError.BudgetExceeded) else None
  {
    PolicyReads(cfg.policies.rateLimits, r.tenant, r.model);
    PolicyReads(cfg.policies.budgets, r.tenant, r.model);
    if Entitled(cfg, r) {
      RequestCostsOne(RateLimitOf(cfg, r), bucket, now);
    }
  }

  /** A wait, rounded up to the millisecond, comes with a rate-limit error. */
  lemma RetryAfterReads(cfg: Config, r: Request, bucket: TokenBucket.Bucket, counters: map<string, int>, now: real,
      today: Date)
    requires Entitled(cfg, r) && TokensFor(cfg, r, bucket, now) < 1.0
    ensures var barred := Barred(cfg, r, bucket, counters, now, today);
            var rate := RateLimitOf(cfg, r).requestsPerMinute as real / 60.0;
            var wait := (1.0 - TokensFor(cfg, r, bucket, now)) / rate;
            barred.Some? && barred.value.RateLimitExceeded? &&
            wait <= barred.value.retryAfterSeconds < wait + 0.001
  {
    PolicyReads(cfg.policies.rateLimits, r.tenant, r.model);
    PolicyReads(cfg.policies.budgets, r.tenant, r.model);
  }

  /** The answer once a request is past policies, bucket and budget. */
  lemma AnswerReads(routing: Result<seq<Backend>, GatewayError>, limit: int, settings: CircuitBreaker.Settings,
      before: map<string, CircuitBreaker.Entry>, after: map<string, CircuitBreaker.Entry>, model: string,
      answers: nat -> Outcome, at: nat -> real, tried: Tried, result: Result<Answered, GatewayError>)
    requires Went(None, routing, limit, settings, before, after, model, answers, at, tried, result)
    ensures routing.Err? ==> result == Err(routing.error)
    ensures routing.Ok? ==>
              var attempts := Slice(routing.value, limit);
              match result
              case Ok(a) =>
                exists k: nat :: k < |attempts| && (forall j: nat | j < k :: !answers(j).Served?) &&
                  a.backendUsed == attempts[k].id && answers(k) == Served(a.servedModel, a.prompt, a.completion) &&
                  tried.failovers == k
              case Err(e) =>
                (forall j: nat | j < |attempts| :: !answers(j).Served?) &&
                tried.failovers == (if attempts == [] then 0 else |attempts| - 1) &&
                e == if attempts != [] && answers(|attempts| - 1) == TimedOut then ProviderTimeout
                     else AllProvidersUnavailable
  {
    if routing.Ok? && result.Ok? {
      var attempts := Slice(routing.value, limit);
      var k := tried.calls - 1;
      assert k < |attempts| && attempts[k].id == result.value.backendUsed;
    }
  }

  /** The status on record for each way a dispatch can end. */
  lemma StatusReads(barred: Option<GatewayError>, routing: Result<seq<Backend>, GatewayError>,
      result: Result<Answered, GatewayError>)
    requires barred.Some? ==>
               result == Err(barred.value) &&
               (barred.value.ModelNotEntitled? || barred.value.BudgetExceeded? || barred.value.RateLimitExceeded?)
    requires barred.None? && result.Err? && routing.Ok? ==>
               result.error.ProviderTimeout? || result.error.AllProvidersUnavailable?
    ensures var status := StatusOf(barred, routing, result);
            (status == Success <==> barred.None? && result.Ok?) &&
            (status == RateLimited <==> barred.Some? && barred.value.RateLimitExceeded?) &&
            (status == Status.BudgetExceeded <==> barred == Some(GatewayError.BudgetExceeded)) &&
            (status == Timeout <==> barred.None? && routing.Ok? && result == Err(ProviderTimeout)) &&
            (status == AllProvidersDown <==> barred.None? && routing.Ok? && result == Err(AllProvidersUnavailable)) &&
            (status == ProviderError <==>
              barred == Some(ModelNotEntitled) || (barred.None? && routing.Err? && result.Err?))
  {
  }

  /** What a usage record copies from its request's run. */
  lemma RecordReads(id: nat, t: Flight)
    ensures var record := RecordOf(id, t);
            record.requestId == id && record.tenant == t.request.tenant && record.model == t.request.model &&
            record.status == t.status && record.backendId == t.backendUsed && record.servedModel == t.servedModel &&
            record.prompt == t.prompt && record.completion == t.completion && record.failovers == t.failovers &&
            record.periodKey == match t.reservation case Some(period) => period case None => "unknown"
  {
  }

  /** A dispatch answers ModelNotEntitled exactly when, in one of the two maps,
      the tenant has neither an entry for the model nor a "*" entry. */
  lemma NotEntitledIff(cfg: Config, r: Request, bucket: TokenBucket.Bucket, counters: map<string, int>, now: real,
      today: Date, byModel: map<string, seq<Backend>>, settings: CircuitBreaker.Settings,
      before: map<string, CircuitBreaker.Entry>, after: map<string, CircuitBreaker.Entry>,
      answers: nat -> Outcome, at: nat -> real, tried: Tried, result: Result<Answered, GatewayError>)
    requires Went(Barred(cfg, r, bucket, counters, now, today), Answer(byModel, before, r.model, now),
                  cfg.maxFailoverAttempts, settings, before, after, r.model, answers, at, tried, result)
    ensures result == Err(ModelNotEntitled) <==>
            ((r.tenant, r.model) !in cfg.policies.rateLimits && (r.tenant, "*") !in cfg.policies.rateLimits) ||
            ((r.tenant, r.model) !in cfg.policies.budgets && (r.tenant, "*") !in cfg.policies.budgets)
  {
    BarredReads(cfg, r, bucket, counters, now, today);
    if Barred(cfg, r, bucket, counters, now, today).None? {
      AnswerReads(Answer(byModel, before, r.model, now), cfg.maxFailoverAttempts, settings, before, after, r.model,
                  answers, at, tried, result);
    }
  }

  // ---------------------------------------------- what calls do to breakers

  /** The breaker of the backend that served reads closed with nothing counted,
      for as long as nothing else is recorded. */
  lemma ServerReadsClosed(settings: CircuitBreaker.Settings, store: map<string, CircuitBreaker.Entry>, model: string,
      attempts: seq<Backend>, answers: nat -> Outcome, at: nat -> real, n: nat, later: real)
    requires 1 <= n <= |attempts| && answers(n - 1).Served? && at(n - 1) <= later
    ensures var after := Breaker.Lookup(Marked(settings, store, model, attempts, answers, at, n),
                                        Breaker.BreakerKey(attempts[n - 1].id, model));
            CircuitBreaker.StateOf(after, later) == CircuitBreaker.Closed && CircuitBreaker.Tally(after, later) == 0
  {
    MarkedNext(settings, store, model, attempts, answers, at, n - 1);
    var was := Breaker.Lookup(Marked(settings, store, model, attempts, answers, at, n - 1),
                              Breaker.BreakerKey(attempts[n - 1].id, model));
    CircuitBreaker.SuccessCloses(settings, was, at(n - 1), later);
  }

  /** A breaker no call went to is as it was. */
  lemma {:induction false} UncalledUnmarked(settings: CircuitBreaker.Settings,
      store: map<string, CircuitBreaker.Entry>, model: string, attempts: seq<Backend>, answers: nat -> Outcome,
      at: nat -> real, n: nat, key: string)
    requires n <= |attempts| && forall i | 0 <= i < n :: Breaker.BreakerKey(attempts[i].id, model) != key
    ensures Breaker.Lookup(Marked(settings, store, model, attempts, answers, at, n), key) == Breaker.Lookup(store, key)
    decreases n
  {
    if n > 0 {
      UncalledUnmarked(settings, store, model, attempts, answers, at, n - 1, key);
      MarkedNext(settings, store, model, attempts, answers, at, n - 1);
    }
  }

  /** Calls to other backends leave a breaker as an earlier call left it. */
  lemma {:induction false} LaterCallsElsewhere(settings: CircuitBreaker.Settings,
      store: map<string, CircuitBreaker.Entry>, model: string, attempts: seq<Backend>, answers: nat -> Outcome,
      at: nat -> real, j: nat, n: nat, key: string)
    requires j <= n <= |attempts| && forall i | j <= i < n :: Breaker.BreakerKey(attempts[i].id, model) != key
    ensures Breaker.Lookup(Marked(settings, store, model, attempts, answers, at, n), key)
            == Breaker.Lookup(Marked(settings, store, model, attempts, answers, at, j), key)
    decreases n
  {
    if n > j {
      LaterCallsElsewhere(settings, store, model, attempts, answers, at, j, n - 1, key);
      MarkedNext(settings, store, model, attempts, answers, at, n - 1);
    }
  }

  /** A call that failed, the only one to its backend, counts one failure on
      that backend's breaker; having read closed, it reads open exactly when
      the count reaches the threshold. */
  lemma FailedCallCounts(settings: CircuitBreaker.Settings, store: map<string, CircuitBreaker.Entry>, model: string,
      attempts: seq<Backend>, answers: nat -> Outcome, at: nat -> real, n: nat, j: nat)
    requires j < n <= |attempts| && !answers(j).Served? && settings.cooldown > 0
    requires forall i | 0 <= i < n && i != j :: attempts[i].id != attempts[j].id
    requires forall i | 0 <= i < n :: ':' !in attempts[i].id
    requires var key := Breaker.BreakerKey(attempts[j].id, model);
             CircuitBreaker.StateOf(Breaker.Lookup(store, key), at(j)) == CircuitBreaker.Closed
    ensures var key := Breaker.BreakerKey(attempts[j].id, model);
            var was := CircuitBreaker.Tally(Breaker.Lookup(store, key), at(j));
            var after := Breaker.Lookup(Marked(settings, store, model, attempts, answers, at, n), key);
            CircuitBreaker.Tally(after, at(j)) == was + 1 &&
            (CircuitBreaker.StateOf(after, at(j)) == CircuitBreaker.Open <==> was + 1 >= settings.threshold)
  {
    var key := Breaker.BreakerKey(attempts[j].id, model);
    forall i | 0 <= i < n && i != j
      ensures Breaker.BreakerKey(attempts[i].id, model) != key
    {
      if Breaker.BreakerKey(attempts[i].id, model) == key {
        EncodeInjective(Circuit(attempts[i].id, model), Circuit(attempts[j].id, model));
      }
    }
    UncalledUnmarked(settings, store, model, attempts, answers, at, j, key);
    MarkedNext(settings, store, model, attempts, answers, at, j);
    CircuitBreaker.FailureCounts(settings, Breaker.Lookup(store, key), at(j));
    LaterCallsElsewhere(settings, store, model, attempts, answers, at, j + 1, n, key);
  }
}
