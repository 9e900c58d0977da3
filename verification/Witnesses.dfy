/** Runs that show where the documented budget promises stop. */
module Witnesses {
  import opened Wrappers
  import opened RedisKeys
  import opened Pipeline
  import opened Accounting
  import Routing

  /** A tenant entitled to a model under a blocking cap. */
  ghost predicate Capped(cfg: Config, tenant: Uuid, model: string, cap: nat) {
    && PolicyFor(cfg.policies.rateLimits, tenant, model).Some?
    && PolicyFor(cfg.policies.budgets, tenant, model).Some?
    && PolicyFor(cfg.policies.budgets, tenant, model).value.onExceed.Block?
    && PolicyFor(cfg.policies.budgets, tenant, model).value.maxTokens == Some(cap)
    && cfg.maxFailoverAttempts >= 1
  }

  function PeriodOf(cfg: Config, tenant: Uuid, model: string, date: Date): PeriodText
    requires PolicyFor(cfg.policies.budgets, tenant, model).Some?
  {
    PeriodKey(PolicyFor(cfg.policies.budgets, tenant, model).value.period, date)
  }

  lemma ReachableStep(cfg: Config, s: State, move: Label)
    requires Reachable(cfg, s) && Step(cfg, s, move).Some?
    ensures Reachable(cfg, Step(cfg, s, move).value)
  {
    var s' := Step(cfg, s, move).value;
    assert Run(cfg, s', []) == Some(s');
    assert [move][1..] == [];
    ReachableRun(cfg, s, [move], s');
  }

  /** One more move of one request, from a state whose shape is known. */
  lemma Go(cfg: Config, s: State, id: nat, input: Input) returns (s': State)
    requires Reachable(cfg, s) && id < |s.flights| && FlightStep(cfg, s.flights[id], s.counters, input).Some?
    ensures Reachable(cfg, s') && Step(cfg, s, Advance(id, input)) == Some(s')
    ensures var m := FlightStep(cfg, s.flights[id], s.counters, input).value;
            s'.counters == m.counters && s'.flights == s.flights[id := m.flight]
            && s'.log == if m.recorded then s.log + [RecordOf(id, s.flights[id])] else s.log
  {
    ReachableStep(cfg, s, Advance(id, input));
    s' := Step(cfg, s, Advance(id, input)).value;
  }

  /** The key a request reserves on today. */
  ghost predicate ReservesOn(cfg: Config, key: BudgetKey, date: Date) {
    && PolicyFor(cfg.policies.budgets, key.tenant, key.model).Some?
    && key.period == PeriodOf(cfg, key.tenant, key.model, date)
  }

  /** A request that reserved e tokens, was served for `used`, of which as many
      as were reserved are completion tokens, and is about to settle. */
  function Busy(key: BudgetKey, e: nat, used: nat): Flight {
    Flight(Request(key.tenant, key.model, e), AwaitingReconcile, Some(key.period), Success,
           used - Generated(e, used), Generated(e, used), Some("b"), Some(key.model), 0, ["b"])
  }

  function Generated(e: nat, used: nat): (n: nat)
    ensures n <= used
  {
    if used < e then used else e
  }

  function Paid(key: BudgetKey, e: nat, used: nat): Flight {
    Busy(key, e, used).(phase := Recording)
  }

  /** A fresh request gets past the policies and the bucket. */
  lemma Enter(cfg: Config, s: State, r: Request, cap: nat) returns (s': State)
    requires Capped(cfg, r.tenant, r.model, cap) && Reachable(cfg, s)
    ensures Reachable(cfg, s') && s'.log == s.log && s'.counters == s.counters
    ensures s'.flights == s.flights + [Fresh(r).(phase := AwaitingReserve)]
  {
    var id := |s.flights|;
    ReachableStep(cfg, s, Arrive(r));
    var s0 := Step(cfg, s, Arrive(r)).value;
    assert s0.flights[id] == Fresh(r);
    var s1 := Go(cfg, s0, id, Proceed);
    assert s1.flights[id] == Fresh(r).(phase := AwaitingBucket);
    s' := Go(cfg, s1, id, BucketReply(true));
  }

  /** A fresh request under the cap gets its reservation. */
  lemma Reserve(cfg: Config, s: State, r: Request, cap: nat, date: Date) returns (s': State)
    requires Capped(cfg, r.tenant, r.model, cap) && Reachable(cfg, s)
    requires Read(s.counters, BudgetKey(r.tenant, r.model, PeriodOf(cfg, r.tenant, r.model, date))) + r.estimate <= cap
    ensures var period := PeriodOf(cfg, r.tenant, r.model, date);
            Reachable(cfg, s') && s'.log == s.log &&
            s'.flights == s.flights + [Fresh(r).(phase := AwaitingBackends, reservation := Some(period))] &&
            s'.counters == IncrBy(s.counters, BudgetKey(r.tenant, r.model, period), r.estimate)
  {
    var entered := Enter(cfg, s, r, cap);
    assert entered.flights[|s.flights|] == Fresh(r).(phase := AwaitingReserve);
    s' := Go(cfg, entered, |s.flights|, Today(date));
  }

  lemma Serve(cfg: Config, s: State, id: nat, key: BudgetKey, e: nat, used: nat) returns (s': State)
    requires Reachable(cfg, s) && id < |s.flights| && cfg.maxFailoverAttempts >= 1
    requires s.flights[id] == Fresh(Request(key.tenant, key.model, e)).(phase := AwaitingBackends,
                                                                        reservation := Some(key.period))
    ensures Reachable(cfg, s') && s'.flights == s.flights[id := Busy(key, e, used)] && s'.counters == s.counters
  {
    assert Routing.Slice(["b"], cfg.maxFailoverAttempts) == ["b"];
    var t := s.flights[id].(attempts := ["b"]);
    var s1 := Go(cfg, s, id, Routed(Some(["b"])));
    assert s1.flights[id] == t.(phase := Calling(0));
    var s2 := Go(cfg, s1, id, Replied(Served(key.model, used - Generated(e, used), Generated(e, used))));
    assert s2.flights[id] == Busy(key, e, used).(phase := MarkingUp(0));
    s' := Go(cfg, s2, id, Proceed);
  }

  lemma AdmitOne(cfg: Config, s: State, key: BudgetKey, cap: nat, date: Date, e: nat, used: nat) returns (s': State)
    requires Capped(cfg, key.tenant, key.model, cap) && ReservesOn(cfg, key, date) && Reachable(cfg, s)
    requires Read(s.counters, key) + e <= cap
    ensures Reachable(cfg, s') && Read(s'.counters, key) == Read(s.counters, key) + e
    ensures s'.flights == s.flights + [Busy(key, e, used)]
  {
    var reserved := Reserve(cfg, s, Request(key.tenant, key.model, e), cap, date);
    s' := Serve(cfg, reserved, |s.flights|, key, e, used);
  }

  lemma SettleFirst(cfg: Config, key: BudgetKey, cap: nat, date: Date, e: nat, used: nat) returns (s: State)
    requires Capped(cfg, key.tenant, key.model, cap) && ReservesOn(cfg, key, date) && e <= cap
    ensures Reachable(cfg, s) && s.flights == [Paid(key, e, used)] && Read(s.counters, key) == used
  {
    assert Run(cfg, INITIAL, []) == Some(INITIAL);
    var first := AdmitOne(cfg, INITIAL, key, cap, date, e, used);
    assert first.flights == [Busy(key, e, used)];
    s := SettleOne(cfg, first, 0, key, e, used);
  }

  lemma SettleOne(cfg: Config, s: State, id: nat, key: BudgetKey, e: nat, used: nat) returns (s': State)
    requires Reachable(cfg, s) && id < |s.flights| && s.flights[id] == Busy(key, e, used)
    ensures Reachable(cfg, s') && s'.flights == s.flights[id := Paid(key, e, used)]
    ensures Read(s'.counters, key) == Read(s.counters, key) + used - e
  {
    s' := Go(cfg, s, id, Proceed);
  }

  /** What k reservations of e come to. */
  function Reserved(e: nat, k: nat): nat {
    if k == 0 then 0 else Reserved(e, k - 1) + e
  }

  lemma {:induction false} ReservedIs(e: nat, k: nat)
    ensures Reserved(e, k) == k * e
    decreases k
  {
    if k > 0 {
      ReservedIs(e, k - 1);
    }
  }

  /** One request settles at r, then k reserve side by side. */
  lemma {:induction false} AdmitMany(cfg: Config, key: BudgetKey, cap: nat, date: Date, e: nat, r: nat, used: nat,
      k: nat) returns (s: State)
    requires Capped(cfg, key.tenant, key.model, cap) && ReservesOn(cfg, key, date)
    requires e <= cap && r + Reserved(e, k) <= cap
    ensures Reachable(cfg, s) && s.flights == [Paid(key, e, r)] + seq(k, _ => Busy(key, e, used))
    ensures Read(s.counters, key) == r + Reserved(e, k)
    decreases k
  {
    if k == 0 {
      s := SettleFirst(cfg, key, cap, date, e, r);
    } else {
      var before := AdmitMany(cfg, key, cap, date, e, r, used, k - 1);
      s := AdmitOne(cfg, before, key, cap, date, e, used);
      OneMoreAlike(Paid(key, e, r), Busy(key, e, used), k);
    }
  }

  lemma OneMoreAlike(first: Flight, t: Flight, k: nat)
    requires k >= 1
    ensures [first] + seq(k - 1, _ => t) + [t] == [first] + seq(k, _ => t)
  {
  }

  /** Then the first j of them settle. */
  lemma {:induction false} SettleMany(cfg: Config, key: BudgetKey, cap: nat, date: Date, e: nat, r: nat, used: nat,
      k: nat, j: nat) returns (s: State)
    requires Capped(cfg, key.tenant, key.model, cap) && ReservesOn(cfg, key, date)
    requires e <= cap && r + Reserved(e, k) <= cap && j <= k
    ensures Reachable(cfg, s)
    ensures s.flights == [Paid(key, e, r)] + seq(j, _ => Paid(key, e, used)) + seq(k - j, _ => Busy(key, e, used))
    decreases j
  {
    if j == 0 {
      s := AdmitMany(cfg, key, cap, date, e, r, used, k);
    } else {
      var before := SettleMany(cfg, key, cap, date, e, r, used, k, j - 1);
      assert before.flights[j] == Busy(key, e, used);
      s := SettleOne(cfg, before, j, key, e, used);
    }
  }

  lemma {:induction false} SumOfPaid(guard: Guard, key: BudgetKey, e: nat, used: nat, n: nat)
    ensures Sum(guard, Held(key), seq(n, _ => Paid(key, e, used))) == n * used
    decreases n
  {
    if n > 0 {
      var t := Paid(key, e, used);
      assert seq(n, _ => t)[1..] == seq(n - 1, _ => t);
      SumOfPaid(guard, key, e, used, n - 1);
      assert Weigh(guard, Held(key), t) == used;
    }
  }

  /** With reservations of e and uses of up to u >= e, a run exists in which
      cap / e requests settle side by side and admitted requests end up holding
      cap + (cap / e) x (u - e). */
  lemma WorstCaseReached(cfg: Config, key: BudgetKey, cap: nat, date: Date, e: nat, u: nat) returns (s: State)
    requires Capped(cfg, key.tenant, key.model, cap) && ReservesOn(cfg, key, date) && 1 <= e <= cap && e <= u
    ensures Reachable(cfg, s) && Sum(cfg.guard, Held(key), s.flights) == cap + cap / e * (u - e)
    ensures forall t | t in s.flights :: t.request.estimate == e && t.prompt <= u - e && t.completion <= e
  {
    WorstCase(cap, e, u);
    ReservedIs(e, cap / e);
    s := SettleMany(cfg, key, cap, date, e, cap % e, u, cap / e, cap / e);
    assert s.flights == [Paid(key, e, cap % e)] + seq(cap / e, _ => Paid(key, e, u));
    WorstCaseSum(cfg.guard, key, e, u, cap % e, cap / e);
  }

  lemma WorstCaseSum(guard: Guard, key: BudgetKey, e: nat, u: nat, r: nat, k: nat)
    ensures Sum(guard, Held(key), [Paid(key, e, r)] + seq(k, _ => Paid(key, e, u))) == r + k * u
  {
    var first, others := Paid(key, e, r), seq(k, _ => Paid(key, e, u));
    assert ([first] + others)[1..] == others;
    SumOfPaid(guard, key, e, u, k);
    assert Weigh(guard, Held(key), first) == r;
  }

  lemma WorstCase(cap: nat, e: nat, u: nat)
    requires 1 <= e <= u
    ensures cap % e + cap / e * e == cap && cap % e + cap / e * u == cap + cap / e * (u - e)
  {
    assert cap == cap / e * e + cap % e;
  }

  lemma OneEach(cap: nat, used: nat)
    ensures used >= 1 ==> cap + cap / 1 * (used - 1) == cap * used
  {
  }

  /** For every cap n and every u there is a run in which n requests, each
      admitted under the cap for one token and each using u, settle at n x u. */
  lemma OvershootGrowsWithConcurrency(cfg: Config, tenant: Uuid, model: string, cap: nat, date: Date, used: nat)
    requires Capped(cfg, tenant, model, cap)
    ensures var key := BudgetKey(tenant, model, PeriodOf(cfg, tenant, model, date));
            BlockCap(cfg, key) == Some(cap) &&
            exists s :: Reachable(cfg, s) && Sum(cfg.guard, Held(key), s.flights) == cap * used
  {
    var key := BudgetKey(tenant, model, PeriodOf(cfg, tenant, model, date));
    if cap == 0 || used == 0 {
      assert Run(cfg, INITIAL, []) == Some(INITIAL);
      assert Reachable(cfg, INITIAL) && Sum(cfg.guard, Held(key), INITIAL.flights) == 0 == cap * used;
    } else {
      var s := WorstCaseReached(cfg, key, cap, date, 1, used);
      OneEach(cap, used);
    }
  }

  /** As written, a request for which get_backends raises keeps its
      reservation charged after it has finished with no tokens on record. */
  lemma ReservationStranded(cfg: Config, tenant: Uuid, model: string, cap: nat, date: Date, estimate: nat)
    requires Capped(cfg, tenant, model, cap) && estimate <= cap && cfg.guard.AsWritten?
    ensures var key := BudgetKey(tenant, model, PeriodOf(cfg, tenant, model, date));
            exists s :: Reachable(cfg, s) && Quiescent(s) && |s.flights| == 1 &&
                        Read(s.counters, key) == estimate && LogTokens(s.log, key) == 0
  {
    var key := BudgetKey(tenant, model, PeriodOf(cfg, tenant, model, date));
    assert Run(cfg, INITIAL, []) == Some(INITIAL);
    var s0 := Reserve(cfg, INITIAL, Request(tenant, model, estimate), cap, date);
    var s1 := Fail(cfg, s0, key, estimate);
  }

  lemma Fail(cfg: Config, s: State, key: BudgetKey, estimate: nat) returns (s': State)
    requires Reachable(cfg, s) && cfg.guard.AsWritten? && s.log == []
    requires s.flights == [Fresh(Request(key.tenant, key.model, estimate)).(phase := AwaitingBackends,
                                                                            reservation := Some(key.period))]
    ensures Reachable(cfg, s') && Quiescent(s') && |s'.flights| == 1
    ensures s'.counters == s.counters && LogTokens(s'.log, key) == 0
  {
    var t := s.flights[0];
    var s1 := Go(cfg, s, 0, Routed(None));
    assert s1.flights[0] == t.(phase := Recording, status := ProviderError);
    s' := Go(cfg, s1, 0, Proceed);
    assert s'.log == [RecordOf(0, s1.flights[0])];
    assert s'.log[..0] == [];
  }
}
