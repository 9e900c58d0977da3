/** From the routing file to the backend that answers: configuration, breaker
    state and failover loop together. */
module Choice {
  import opened Wrappers
  import opened Errors
  import opened RedisKeys
  import CircuitBreaker
  import opened Registry
  import opened Routing
  import opened Budget
  import opened Pipeline
  import opened Service
  import opened FileOrder

  function Backends(es: seq<Entry>): set<string> {
    set e | e in es :: e.backend
  }

  /** Breaker state as routing sees it, for every backend the entries name. */
  function Seen(store: map<string, CircuitBreaker.Entry>, model: string, es: seq<Entry>, now: real): map<string, bool> {
    Ups(store, model, Backends(es), now)
  }

  lemma {:induction false} AvailableAgree(bs: seq<Backend>, up: map<string, bool>, wider: map<string, bool>)
    requires forall b | b in bs :: b.id in up && b.id in wider && up[b.id] == wider[b.id]
    ensures Available(bs, up) == Available(bs, wider)
    decreases bs
  {
    if bs != [] {
      assert bs == [bs[0]] + bs[1..];
      AvailableAgree(bs[1..], up, wider);
    }
  }

  /** get_backends on a resolved chain answers the routed list. */
  lemma AnswerIsRouted(cfgs: map<string, BackendConfig>, byModel: map<string, seq<Backend>>, model: string,
      es: seq<Entry>, store: map<string, CircuitBreaker.Entry>, now: real)
    requires Placed(es, 0) && model in byModel && byModel[model] == Chain(cfgs, model, es)
    ensures forall b | b in Enabled(Chain(cfgs, model, es)) :: b.id in Seen(store, model, es, now)
    ensures var routed := Routing.Routed(cfgs, model, es, Seen(store, model, es, now));
            Answer(byModel, store, model, now) == if routed == [] then Err(AllProvidersUnavailable) else Ok(routed)
  {
    var candidates := Enabled(Chain(cfgs, model, es));
    var wide := Seen(store, model, es, now);
    forall e | e in es
      ensures e.backend in wide
    {
      assert e.backend in Backends(es);
    }
    RoutedExact(cfgs, model, es, wide);
    var narrow := Ups(store, model, Ids(candidates), now);
    forall b | b in candidates
      ensures b.id in narrow && narrow[b.id] == wide[b.id]
    {
      assert b.id in Ids(candidates);
    }
    AvailableAgree(candidates, narrow, wide);
  }

  /** The loop serves the first success. */
  lemma LoopServesFirst(attempts: seq<Backend>, answers: nat -> Outcome, succeeds: nat -> bool, r: Tried)
    requires FailedOver(attempts, answers, r)
    requires forall k: nat | k < |attempts| :: answers(k).Served? == succeeds(attempts[k].place)
    ensures FirstSuccess(attempts, succeeds) == if r.answer.Some? then r.calls - 1 else |attempts|
  {
    var n := if r.answer.Some? then r.calls - 1 else |attempts|;
    NotServedBefore(attempts, answers, r);
    forall k: nat | k < n
      ensures !succeeds(attempts[k].place)
    {
      assert answers(k).Served? == succeeds(attempts[k].place);
    }
    FirstSuccessAt(attempts, succeeds, n);
  }

  lemma NotServedBefore(attempts: seq<Backend>, answers: nat -> Outcome, r: Tried)
    requires FailedOver(attempts, answers, r)
    ensures var n := if r.answer.Some? then r.calls - 1 else |attempts|;
            0 <= n <= |attempts| && (n < |attempts| ==> answers(n).Served?) &&
            forall k: nat | k < n :: !answers(k).Served?
  {
  }

  lemma FirstSuccessAt(bs: seq<Backend>, succeeds: nat -> bool, n: nat)
    ensures (n <= |bs| && forall k | 0 <= k < n :: !succeeds(bs[k].place)) && (n < |bs| ==> succeeds(bs[n].place)) ==>
            FirstSuccess(bs, succeeds) == n
  {
  }

  /** End to end, with breaker state as it stood when the request was routed:
      if get_backends raises, no entry is eligible; otherwise the loop's server
      is the least by (priority, place) of the eligible entries within the
      attempt limit whose call succeeds, and it fails exactly when there is
      none. */
  lemma EndToEndChoice(cfgs: map<string, BackendConfig>, byModel: map<string, seq<Backend>>, model: string,
      es: seq<Entry>, store: map<string, CircuitBreaker.Entry>, now: real, limit: int, answers: nat -> Outcome,
      succeeds: nat -> bool, r: Tried)
    requires Placed(es, 0) && model in byModel && byModel[model] == Chain(cfgs, model, es)
    requires var routing := Answer(byModel, store, model, now);
             routing.Ok? ==>
               FailedOver(Slice(routing.value, limit), answers, r) &&
               forall k: nat | k < |Slice(routing.value, limit)| ::
                 answers(k).Served? == succeeds(Slice(routing.value, limit)[k].place)
    ensures var up := Seen(store, model, es, now);
            match Answer(byModel, store, model, now)
            case Err(_) => forall i: nat :: !Eligible(cfgs, es, up, i)
            case Ok(routed) =>
              var tried := Slice(routed, limit);
              if r.answer.Some? then
                var server := tried[r.calls - 1];
                Wins(cfgs, es, up, |tried|, succeeds, server.place) &&
                server == Copy(cfgs, model, es[server.place]) &&
                forall i: nat | Wins(cfgs, es, up, |tried|, succeeds, i) && i != server.place ::
                  Earlier(es, server.place, i)
              else forall i: nat :: !Wins(cfgs, es, up, |tried|, succeeds, i)
  {
    var up := Seen(store, model, es, now);
    AnswerIsRouted(cfgs, byModel, model, es, store, now);
    var routed := Routing.Routed(cfgs, model, es, up);
    forall e | e in es
      ensures e.backend in up
    {
      assert e.backend in Backends(es);
    }
    RoutedExact(cfgs, model, es, up);
    forall i: nat
      ensures Eligible(cfgs, es, up, i) ==> Copy(cfgs, model, es[i]) in routed
    {
    }
    if routed != [] {
      LoopServesFirst(Slice(routed, limit), answers, succeeds, r);
      ServingBackend(cfgs, model, es, up, limit, succeeds);
    }
  }

  /** How many backends a dispatch may try. */
  function Tryable(routing: Result<seq<Backend>, GatewayError>, limit: int): nat {
    match routing
    case Ok(backends) => |Slice(backends, limit)|
    case Err(_) => 0
  }

  /** What a dispatch that reaches routing answers: it succeeds exactly when an
      eligible entry within the attempt limit has a call that succeeds, and
      the backend it names is the least of those by (priority, place). */
  lemma DispatchServesLeast(cfgs: map<string, BackendConfig>, byModel: map<string, seq<Backend>>, model: string,
      es: seq<Entry>, settings: CircuitBreaker.Settings, before: map<string, CircuitBreaker.Entry>,
      after: map<string, CircuitBreaker.Entry>, now: real, limit: int, answers: nat -> Outcome, at: nat -> real,
      succeeds: nat -> bool, tried: Tried, result: Result<Answered, GatewayError>)
    requires Placed(es, 0) && model in byModel && byModel[model] == Chain(cfgs, model, es)
    requires Went(None, Answer(byModel, before, model, now), limit, settings, before, after, model, answers, at,
                  tried, result)
    requires var routing := Answer(byModel, before, model, now);
             routing.Ok? ==> forall k: nat | k < |Slice(routing.value, limit)| ::
                               answers(k).Served? == succeeds(Slice(routing.value, limit)[k].place)
    ensures var up := Seen(before, model, es, now);
            var n := Tryable(Answer(byModel, before, model, now), limit);
            match result
            case Ok(a) =>
              exists i: nat :: Wins(cfgs, es, up, n, succeeds, i) && a.backendUsed == es[i].backend &&
                (forall j: nat | Wins(cfgs, es, up, n, succeeds, j) && j != i :: Earlier(es, i, j)) &&
                (forall j: nat | Wins(cfgs, es, up, n, succeeds, j) && j != i :: NotAhead(es[j], es[i]))
            case Err(_) => forall i: nat :: !Wins(cfgs, es, up, n, succeeds, i)
  {
    EndToEndChoice(cfgs, byModel, model, es, before, now, limit, answers, succeeds, tried);
    var routing, up := Answer(byModel, before, model, now), Seen(before, model, es, now);
    match routing {
      case Err(_) => NobodyWins(cfgs, es, up, succeeds);
      case Ok(routed) =>
        if result.Ok? {
          var server := Slice(routed, limit)[tried.calls - 1];
          assert Wins(cfgs, es, up, Tryable(routing, limit), succeeds, server.place);
          forall j: nat | Wins(cfgs, es, up, Tryable(routing, limit), succeeds, j) && j != server.place
            ensures NotAhead(es[j], es[server.place])
          {
            EarlierNotAhead(es, server.place, j);
          }
        }
    }
  }

  /** In the file's own numbers, the first entry does not come before the
      second: its priority is not smaller, 0 standing for a missing one. */
  predicate NotAhead(a: Entry, b: Entry) {
    match (a.priority, b.priority)
    case (Some(p), Some(q)) => p >= q
    case (Some(p), None) => p >= 0
    case (None, Some(q)) => 0 >= q
    case (None, None) => true
  }

  lemma EarlierNotAhead(es: seq<Entry>, i: nat, j: nat)
    requires i < |es| && j < |es| && Earlier(es, i, j)
    ensures NotAhead(es[j], es[i])
  {
    EarlierReads(es, i, j);
  }

  lemma NobodyWins(cfgs: map<string, BackendConfig>, es: seq<Entry>, up: map<string, bool>, succeeds: nat -> bool)
    ensures forall i: nat :: !Wins(cfgs, es, up, 0, succeeds, i)
  {
  }

  /** get_backends raises exactly when no known, enabled, non-open entry is
      configured for the model. */
  lemma RaisesIffNoneEligible(cfgs: map<string, BackendConfig>, byModel: map<string, seq<Backend>>, model: string,
      es: seq<Entry>, store: map<string, CircuitBreaker.Entry>, now: real)
    requires Placed(es, 0) && model in byModel && byModel[model] == Chain(cfgs, model, es)
    ensures Answer(byModel, store, model, now).Err? <==>
            forall i: nat :: !Eligible(cfgs, es, Seen(store, model, es, now), i)
  {
    var up := Seen(store, model, es, now);
    AnswerIsRouted(cfgs, byModel, model, es, store, now);
    forall e | e in es
      ensures e.backend in up
    {
      assert e.backend in Backends(es);
    }
    RoutedExact(cfgs, model, es, up);
    var routed := Routing.Routed(cfgs, model, es, up);
    if routed != [] {
      assert routed[0] in routed;
      assert Eligible(cfgs, es, up, routed[0].place);
    }
    forall i: nat
      ensures Eligible(cfgs, es, up, i) ==> Copy(cfgs, model, es[i]) in routed
    {
    }
  }

  /** When a reservation is stranded, from what can be looked up before the
      call: a request past policies, bucket and budget leaves its whole
      estimate on the counter, and "provider_error" on record, exactly when no
      known, enabled, non-open entry is configured for its model; else the
      counter gains the tokens it used, none if it failed. */
  lemma StrandedIff(cfg: Config, cfgs: map<string, BackendConfig>, byModel: map<string, seq<Backend>>, es: seq<Entry>,
      r: Request, today: Date, key: BudgetKey, settings: CircuitBreaker.Settings,
      before: map<string, CircuitBreaker.Entry>, after: map<string, CircuitBreaker.Entry>, now: real,
      answers: nat -> Outcome, at: nat -> real, tried: Tried, result: Result<Answered, GatewayError>,
      counters: map<string, int>, counters': map<string, int>)
    requires Placed(es, 0) && r.model in byModel && byModel[r.model] == Chain(cfgs, r.model, es)
    requires TodaysKey(cfg, r, today) == Some(key)
    requires var routing := Answer(byModel, before, r.model, now);
             Went(None, routing, cfg.maxFailoverAttempts, settings, before, after, r.model, answers, at, tried, result)
             && Charged(cfg, r, today, Net(r, None, routing, result), counters, counters')
    ensures var left := Read(counters', RedisKey(key)) - Read(counters, RedisKey(key));
            var none := forall i: nat :: !Eligible(cfgs, es, Seen(before, r.model, es, now), i);
            (StatusOf(None, Answer(byModel, before, r.model, now), result) == ProviderError <==> none) &&
            (none ==> result == Err(AllProvidersUnavailable) && left == r.estimate) &&
            (!none ==> left == match result case Ok(a) => a.prompt + a.completion case Err(_) => 0)
  {
    RaisesIffNoneEligible(cfgs, byModel, r.model, es, before, now);
  }
}
