/** gateway/budget/tracker.py on the flat Redis keyspace, and how that keyspace
    mirrors the state machine's counters. */
module Budget {
  import opened Wrappers
  import opened Errors
  import opened RedisKeys
  import opened Pipeline

  datatype BudgetReservation = BudgetReservation(tenant: Uuid, model: string, period: PeriodText, reserved: nat)

  function RedisKey(k: BudgetKey): string {
    Encode(RedisKeys.Budget(k.tenant, k.model, k.period))
  }

  /** Every budget key reads the same in both. */
  ghost predicate Mirrors(flat: map<string, int>, counters: map<BudgetKey, int>) {
    forall k: BudgetKey :: Read(flat, RedisKey(k)) == Read(counters, k)
  }

  /** An INCRBY on one tenant, model and period moves no other's counter. */
  lemma IncrByMirrors(flat: map<string, int>, counters: map<BudgetKey, int>, key: BudgetKey, delta: int)
    requires Mirrors(flat, counters)
    ensures Mirrors(IncrBy(flat, RedisKey(key), delta), IncrBy(counters, key, delta))
  {
    forall k: BudgetKey
      ensures Read(IncrBy(flat, RedisKey(key), delta), RedisKey(k)) == Read(IncrBy(counters, key, delta), k)
    {
      if k != key && RedisKey(k) == RedisKey(key) {
        EncodeInjective(RedisKeys.Budget(k.tenant, k.model, k.period),
                        RedisKeys.Budget(key.tenant, key.model, key.period));
      }
    }
  }

  /** The reservation a policy refuses. */
  predicate Refused(policy: BudgetPolicy, total: int) {
    policy.maxTokens.Some? && total > policy.maxTokens.value && policy.onExceed.Block?
  }

  class BudgetTracker {
    var counters: map<string, int>

    constructor ()
      ensures counters == map[]
    {
      counters := map[];
    }

    method Incrby(key: string, delta: int) returns (total: int)
      modifies this
      ensures counters == IncrBy(old(counters), key, delta) && total == Read(counters, key)
    {
      counters := IncrBy(counters, key, delta);
      total := counters[key];
    }

    /** Increments first and compares after; a refused reservation is undone
        by a second increment. */
    method Reserve(tenant: Uuid, model: string, policy: BudgetPolicy, estimate: nat, today: Date)
      returns (r: Result<BudgetReservation, GatewayError>)
      modifies this
      ensures var period := PeriodKey(policy.period, today);
              var key := RedisKey(BudgetKey(tenant, model, period));
              var charged := IncrBy(old(counters), key, estimate);
              if Refused(policy, Read(charged, key))
              then r == Err(GatewayError.BudgetExceeded) && counters == IncrBy(charged, key, 0 - estimate)
              else r == Ok(BudgetReservation(tenant, model, period, estimate)) && counters == charged
    {
      var period := PeriodKey(policy.period, today);
      var key := RedisKey(BudgetKey(tenant, model, period));
      var newTotal := Incrby(key, estimate);
      if policy.maxTokens.Some? && newTotal > policy.maxTokens.value {
        if policy.onExceed.Block? {
          var undone := Incrby(key, 0 - estimate);
          return Err(GatewayError.BudgetExceeded);
        }
      }
      return Ok(BudgetReservation(tenant, model, period, estimate));
    }

    method Reconcile(r: BudgetReservation, actual: nat)
      modifies this
      ensures var delta := actual - r.reserved;
              var key := RedisKey(BudgetKey(r.tenant, r.model, r.period));
              counters == if delta == 0 then old(counters) else IncrBy(old(counters), key, delta)
    {
      var delta := actual - r.reserved;
      if delta == 0 {
        return;
      }
      var total := Incrby(RedisKey(BudgetKey(r.tenant, r.model, r.period)), delta);
    }

    method Release(r: BudgetReservation)
      modifies this
      ensures counters == IncrBy(old(counters), RedisKey(BudgetKey(r.tenant, r.model, r.period)), 0 - r.reserved)
    {
      var total := Incrby(RedisKey(BudgetKey(r.tenant, r.model, r.period)), 0 - r.reserved);
    }
  }
}
