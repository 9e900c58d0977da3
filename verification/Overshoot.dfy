/** How far concurrent requests can carry a blocking budget past its cap, as a
    number that the policy and the request sizes decide. */
module Overshoot {
  import opened Wrappers
  import opened RedisKeys
  import opened Pipeline
  import opened Accounting
  import opened Witnesses

  /** Every request of this tenant and model reserves at least e, and uses at
      most g more than it reserves. */
  ghost predicate Traffic(s: State, key: BudgetKey, e: nat, g: nat) {
    forall t | t in s.flights :: Fits(t, key, e, g)
  }

  predicate Fits(t: Flight, key: BudgetKey, e: nat, g: nat) {
    t.request.tenant == key.tenant && t.request.model == key.model ==>
      t.request.estimate >= e && Actual(t) <= t.request.estimate + g
  }

  /** What is held now, and what open reservations may still add, is within
      the worst case of as many reservations as fit under the cap. */
  ghost predicate Within(cfg: Config, s: State, key: BudgetKey, cap: nat, e: nat, g: nat)
    requires e >= 1
  {
    Sum(cfg.guard, Held(key), s.flights) + g * Sum(cfg.guard, Unsettled(key), s.flights)
    <= cap + g * (cap / e)
  }

  // ------------------------------------------------------------- one request

  lemma FitsBefore(cfg: Config, t: Flight, counters: map<BudgetKey, int>, input: Input, key: BudgetKey, e: nat, g: nat)
    requires FlightOk(cfg.guard, t) && FlightStep(cfg, t, counters, input).Some?
    requires Fits(FlightStep(cfg, t, counters, input).value.flight, key, e, g)
    ensures Fits(t, key, e, g)
  {
  }

  lemma StepGainsHolding(cfg: Config, t: Flight, counters: map<BudgetKey, int>, input: Input, key: BudgetKey,
      e: nat, g: nat)
    requires HoldsReservation(t.phase)
    requires FlightOk(cfg.guard, t) && FlightStep(cfg, t, counters, input).Some?
    requires Fits(FlightStep(cfg, t, counters, input).value.flight, key, e, g)
    ensures var m := FlightStep(cfg, t, counters, input).value;
            var held := Weigh(cfg.guard, Held(key), m.flight) - Weigh(cfg.guard, Held(key), t);
            var open := Weigh(cfg.guard, Unsettled(key), m.flight) - Weigh(cfg.guard, Unsettled(key), t);
            m.actions == [Admitted(key)] || (open == 0 && held <= 0) || (open == -1 && held <= g)
  {
  }

  lemma StepGainsFree(cfg: Config, t: Flight, counters: map<BudgetKey, int>, input: Input, key: BudgetKey,
      e: nat, g: nat)
    requires !HoldsReservation(t.phase)
    requires FlightOk(cfg.guard, t) && FlightStep(cfg, t, counters, input).Some?
    requires Fits(FlightStep(cfg, t, counters, input).value.flight, key, e, g)
    ensures var m := FlightStep(cfg, t, counters, input).value;
            var held := Weigh(cfg.guard, Held(key), m.flight) - Weigh(cfg.guard, Held(key), t);
            var open := Weigh(cfg.guard, Unsettled(key), m.flight) - Weigh(cfg.guard, Unsettled(key), t);
            m.actions == [Admitted(key)] || (open == 0 && held <= 0) || (open == -1 && held <= g)
  {
  }

  /** Between admissions, what a request holds grows only as its reservation
      closes, and by no more than the worst case above it. */
  lemma StepGains(cfg: Config, t: Flight, counters: map<BudgetKey, int>, input: Input, key: BudgetKey, e: nat, g: nat)
    requires FlightOk(cfg.guard, t) && FlightStep(cfg, t, counters, input).Some?
    requires Fits(FlightStep(cfg, t, counters, input).value.flight, key, e, g)
    ensures var m := FlightStep(cfg, t, counters, input).value;
            var held := Weigh(cfg.guard, Held(key), m.flight) - Weigh(cfg.guard, Held(key), t);
            var open := Weigh(cfg.guard, Unsettled(key), m.flight) - Weigh(cfg.guard, Unsettled(key), t);
            m.actions == [Admitted(key)] || (open == 0 && held <= 0) || (open == -1 && held <= g)
  {
    if HoldsReservation(t.phase) {
      StepGainsHolding(cfg, t, counters, input, key, e, g);
    } else {
      StepGainsFree(cfg, t, counters, input, key, e, g);
    }
  }

  lemma {:induction false} OpenIsHeld(guard: Guard, key: BudgetKey, ts: seq<Flight>, e: nat, g: nat)
    requires forall t | t in ts :: Fits(t, key, e, g)
    ensures Sum(guard, Unsettled(key), ts) * e <= Sum(guard, Held(key), ts)
    decreases ts
  {
    if ts != [] {
      assert ts[0] in ts && forall t | t in ts[1..] :: t in ts;
      OpenIsHeld(guard, key, ts[1..], e, g);
      OneMoreOpen(guard, key, ts[0], e, g, Sum(guard, Unsettled(key), ts[1..]));
    }
  }

  lemma OneMoreOpen(guard: Guard, key: BudgetKey, t: Flight, e: nat, g: nat, n: nat)
    ensures Fits(t, key, e, g) ==> (Weigh(guard, Unsettled(key), t) + n) * e <= Weigh(guard, Held(key), t) + n * e
  {
  }

  // -------------------------------------------------------------- every run

  lemma TrafficBefore(cfg: Config, s: State, move: Label, key: BudgetKey, e: nat, g: nat)
    requires Inv(cfg, s) && Step(cfg, s, move).Some? && Traffic(Step(cfg, s, move).value, key, e, g)
    ensures Traffic(s, key, e, g)
  {
    var s' := Step(cfg, s, move).value;
    forall t | t in s.flights
      ensures Fits(t, key, e, g)
    {
      var i :| 0 <= i < |s.flights| && s.flights[i] == t;
      assert s'.flights[i] in s'.flights;
      if move.Advance? && move.id == i {
        FitsBefore(cfg, t, s.counters, move.input, key, e, g);
      }
    }
  }

  lemma {:induction false} TrafficThroughout(cfg: Config, s: State, moves: seq<Label>, key: BudgetKey, e: nat, g: nat)
    requires Inv(cfg, s) && Run(cfg, s, moves).Some? && Traffic(Run(cfg, s, moves).value, key, e, g)
    ensures Traffic(s, key, e, g)
    decreases moves
  {
    if moves != [] {
      StepKeeps(cfg, s, moves[0]);
      TrafficThroughout(cfg, Step(cfg, s, moves[0]).value, moves[1..], key, e, g);
      TrafficBefore(cfg, s, moves[0], key, e, g);
    }
  }

  /** Under the cap no more reservations are open than fit there. */
  lemma UnderCap(cfg: Config, s: State, key: BudgetKey, cap: nat, e: nat, g: nat)
    requires e >= 1 && Traffic(s, key, e, g) && Sum(cfg.guard, Held(key), s.flights) <= cap
    ensures Within(cfg, s, key, cap, e, g)
  {
    OpenIsHeld(cfg.guard, key, s.flights, e, g);
    var n := Sum(cfg.guard, Unsettled(key), s.flights);
    Fewer(n, cap, e);
    Scaled(g, n, cap / e);
  }

  lemma Fewer(n: nat, cap: nat, e: nat)
    requires e >= 1 && n * e <= cap
    ensures n <= cap / e
  {
    if n > cap / e {
      Scaled(e, cap / e + 1, n);
    }
  }

  lemma Scaled(g: nat, x: nat, y: nat)
    ensures x <= y ==> g * x <= g * y
  {
  }

  /** Any step but an admission closes what it adds. */
  lemma OtherStepWithin(cfg: Config, s: State, id: nat, input: Input, key: BudgetKey, cap: nat, e: nat, g: nat)
    requires Inv(cfg, s) && Step(cfg, s, Advance(id, input)).Some? && e >= 1
    requires Traffic(Step(cfg, s, Advance(id, input)).value, key, e, g) && Within(cfg, s, key, cap, e, g)
    requires FlightStep(cfg, s.flights[id], s.counters, input).value.actions != [Admitted(key)]
    ensures Within(cfg, Step(cfg, s, Advance(id, input)).value, key, cap, e, g)
  {
    var t, s' := s.flights[id], Step(cfg, s, Advance(id, input)).value;
    var m := FlightStep(cfg, t, s.counters, input).value;
    assert s'.flights[id] in s'.flights;
    StepGains(cfg, t, s.counters, input, key, e, g);
    SumUpdate(cfg.guard, Held(key), s.flights, id, m.flight);
    SumUpdate(cfg.guard, Unsettled(key), s.flights, id, m.flight);
    var n, n' := Sum(cfg.guard, Unsettled(key), s.flights), Sum(cfg.guard, Unsettled(key), s'.flights);
    if n' != n {
      assert n' == n - 1;
      OneFewer(g, n, n');
    }
  }

  lemma OneFewer(g: nat, n: nat, n': nat)
    requires n' == n - 1
    ensures g * n' == g * n - g
  {
    assert g * (n' + 1) == g * n' + g;
  }

  lemma AdvanceWithin(cfg: Config, s: State, id: nat, input: Input, key: BudgetKey, cap: nat, e: nat, g: nat)
    requires Inv(cfg, s) && Step(cfg, s, Advance(id, input)).Some? && e >= 1 && BlockCap(cfg, key) == Some(cap)
    requires Traffic(Step(cfg, s, Advance(id, input)).value, key, e, g) && Within(cfg, s, key, cap, e, g)
    ensures Within(cfg, Step(cfg, s, Advance(id, input)).value, key, cap, e, g)
  {
    var t, s' := s.flights[id], Step(cfg, s, Advance(id, input)).value;
    if FlightStep(cfg, t, s.counters, input).value.actions == [Admitted(key)] {
      AdmissionWithinCap(cfg, t, s.counters, input, key);
      AdvanceKeepsCounters(cfg, s, id, input, key);
      ChargeSplits(cfg.guard, key, s'.flights);
      UnderCap(cfg, s', key, cap, e, g);
    } else {
      OtherStepWithin(cfg, s, id, input, key, cap, e, g);
    }
  }

  lemma {:induction false} WithinReached(cfg: Config, s: State, moves: seq<Label>, key: BudgetKey, cap: nat,
      e: nat, g: nat)
    requires Inv(cfg, s) && Run(cfg, s, moves).Some? && e >= 1 && BlockCap(cfg, key) == Some(cap)
    requires Traffic(Run(cfg, s, moves).value, key, e, g) && Within(cfg, s, key, cap, e, g)
    ensures Within(cfg, Run(cfg, s, moves).value, key, cap, e, g)
    decreases moves
  {
    if moves != [] {
      var s' := Step(cfg, s, moves[0]).value;
      StepKeeps(cfg, s, moves[0]);
      TrafficThroughout(cfg, s', moves[1..], key, e, g);
      match moves[0] {
        case Arrive(r) =>
          SumAppend(cfg.guard, Held(key), s.flights, Fresh(r));
          SumAppend(cfg.guard, Unsettled(key), s.flights, Fresh(r));
        case Advance(id, input) => AdvanceWithin(cfg, s, id, input, key, cap, e, g);
      }
      WithinReached(cfg, s', moves[1..], key, cap, e, g);
    }
  }

  // ---------------------------------------------------------------- theorems

  /** Whatever the interleaving, admitted requests never hold more than the cap
      and one worst case for each reservation that fits under it. */
  lemma ConcurrentBound(cfg: Config, s: State, key: BudgetKey, cap: nat, e: nat, g: nat)
    requires Reachable(cfg, s) && BlockCap(cfg, key) == Some(cap) && e >= 1 && Traffic(s, key, e, g)
    ensures Sum(cfg.guard, Held(key), s.flights) <= cap + cap / e * g
  {
    var moves :| Run(cfg, INITIAL, moves) == Some(s);
    assert Inv(cfg, INITIAL) && Within(cfg, INITIAL, key, cap, e, g);
    WithinReached(cfg, INITIAL, moves, key, cap, e, g);
    Drop(Sum(cfg.guard, Held(key), s.flights), g, Sum(cfg.guard, Unsettled(key), s.flights), cap, cap / e);
  }

  lemma Drop(held: nat, g: nat, open: nat, cap: nat, k: nat)
    requires held + g * open <= cap + g * k
    ensures held <= cap + k * g
  {
    Scaled(g, 0, open);
  }

  /** Overshoot stays within this allowance in every run of such requests. */
  ghost predicate StaysWithin(cfg: Config, key: BudgetKey, cap: nat, e: nat, g: nat, allowance: nat) {
    forall s | Reachable(cfg, s) && Traffic(s, key, e, g) ::
      Sum(cfg.guard, Held(key), s.flights) <= cap + allowance
  }

  /** Overshoot stays within an allowance, whatever the sizes and however the
      requests interleave, exactly when the allowance covers one worst case for
      each smallest reservation that fits under the cap. */
  lemma AllowanceExact(cfg: Config, key: BudgetKey, date: Date, cap: nat, e: nat, g: nat, allowance: nat)
    requires Capped(cfg, key.tenant, key.model, cap) && ReservesOn(cfg, key, date) && e >= 1
    ensures StaysWithin(cfg, key, cap, e, g, allowance) <==> cap / e * g <= allowance
  {
    if cap / e * g <= allowance {
      forall s | Reachable(cfg, s) && Traffic(s, key, e, g)
        ensures Sum(cfg.guard, Held(key), s.flights) <= cap + allowance
      {
        ConcurrentBound(cfg, s, key, cap, e, g);
      }
    } else {
      AllowancePassed(cfg, key, date, cap, e, g, allowance);
    }
  }

  lemma AllowancePassed(cfg: Config, key: BudgetKey, date: Date, cap: nat, e: nat, g: nat, allowance: nat)
    requires Capped(cfg, key.tenant, key.model, cap) && ReservesOn(cfg, key, date) && e >= 1
    requires cap / e * g > allowance
    ensures !StaysWithin(cfg, key, cap, e, g, allowance)
  {
    Positive(cap, e, g);
    var s := WorstCaseReached(cfg, key, cap, date, e, e + g);
    assert Traffic(s, key, e, g);
  }

  lemma Positive(cap: nat, e: nat, g: nat)
    ensures e >= 1 && cap / e * g > 0 ==> cap >= e && g >= 1
  {
  }

  /** The documented bound of one in-flight request's worst case above its
      reservation holds exactly when requests never use more than they reserve,
      or no two reservations fit under the cap together. */
  lemma OneInFlightIff(cfg: Config, key: BudgetKey, date: Date, cap: nat, e: nat, g: nat)
    requires Capped(cfg, key.tenant, key.model, cap) && ReservesOn(cfg, key, date) && e >= 1
    ensures StaysWithin(cfg, key, cap, e, g, g) <==> g == 0 || cap < 2 * e
  {
    AllowanceExact(cfg, key, date, cap, e, g, g);
    OneWorstCase(cap, e, g);
  }

  lemma OneWorstCase(cap: nat, e: nat, g: nat)
    requires e >= 1
    ensures cap / e * g <= g <==> g == 0 || cap < 2 * e
  {
    var k := cap / e;
    if cap < 2 * e {
      assert k <= 1;
      Scaled(g, k, 1);
    } else {
      Fewer(2, cap, e);
      Scaled(g, 2, k);
    }
  }

  /** Every request of this tenant and model reserves e and uses at most u. */
  ghost predicate SameSize(s: State, key: BudgetKey, e: nat, u: nat) {
    forall t | t in s.flights && t.request.tenant == key.tenant && t.request.model == key.model ::
      t.request.estimate == e && Actual(t) <= u
  }

  /** The same for requests that are all of one size. */
  lemma OneInFlightSameSizeIff(cfg: Config, key: BudgetKey, date: Date, cap: nat, e: nat, u: nat)
    requires Capped(cfg, key.tenant, key.model, cap) && ReservesOn(cfg, key, date) && e >= 1
    ensures (forall s | Reachable(cfg, s) && SameSize(s, key, e, u) ::
               Sum(cfg.guard, Held(key), s.flights) <= cap + if u > e then u - e else 0)
            <==> u <= e || cap < 2 * e
  {
    var g := if u > e then u - e else 0;
    OneInFlightIff(cfg, key, date, cap, e, g);
    OneWorstCase(cap, e, g);
    if u <= e || cap < 2 * e {
      forall s | Reachable(cfg, s) && SameSize(s, key, e, u)
        ensures Sum(cfg.guard, Held(key), s.flights) <= cap + g
      {
        assert Traffic(s, key, e, g);
      }
    } else {
      var s := WorstCaseReached(cfg, key, cap, date, e, u);
      assert SameSize(s, key, e, u);
    }
  }

  /** Chat requests of this tenant and model: num_predict, at least e, is both
      the reservation and a hard cap on completion tokens, and prompts have at
      most p tokens. */
  ghost predicate ChatTraffic(s: State, key: BudgetKey, e: nat, p: nat) {
    forall t | t in s.flights && t.request.tenant == key.tenant && t.request.model == key.model ::
      t.request.estimate >= e && t.completion <= t.request.estimate && t.prompt <= p
  }

  /** Overshoot of chat requests stays within this allowance in every run. */
  ghost predicate ChatStaysWithin(cfg: Config, key: BudgetKey, cap: nat, e: nat, p: nat, allowance: nat) {
    forall s | Reachable(cfg, s) && ChatTraffic(s, key, e, p) ::
      Sum(cfg.guard, Held(key), s.flights) <= cap + allowance
  }

  lemma ChatFits(s: State, key: BudgetKey, e: nat, p: nat)
    ensures ChatTraffic(s, key, e, p) ==> Traffic(s, key, e, p)
  {
  }

  lemma ChatAllowancePassed(cfg: Config, key: BudgetKey, date: Date, cap: nat, e: nat, p: nat, allowance: nat)
    requires Capped(cfg, key.tenant, key.model, cap) && ReservesOn(cfg, key, date) && e >= 1
    requires cap / e * p > allowance
    ensures !ChatStaysWithin(cfg, key, cap, e, p, allowance)
  {
    Positive(cap, e, p);
    var s := WorstCaseReached(cfg, key, cap, date, e, e + p);
    assert ChatTraffic(s, key, e, p);
  }

  /** What the prompt's absence from a chat reservation costs: overshoot stays
      within an allowance exactly when the allowance covers one prompt for each
      smallest reservation that fits under the cap. */
  lemma ChatOvershootExact(cfg: Config, key: BudgetKey, date: Date, cap: nat, e: nat, p: nat, allowance: nat)
    requires Capped(cfg, key.tenant, key.model, cap) && ReservesOn(cfg, key, date) && e >= 1
    ensures ChatStaysWithin(cfg, key, cap, e, p, allowance) <==> cap / e * p <= allowance
  {
    if cap / e * p <= allowance {
      forall s | Reachable(cfg, s) && ChatTraffic(s, key, e, p)
        ensures Sum(cfg.guard, Held(key), s.flights) <= cap + allowance
      {
        ChatFits(s, key, e, p);
        ConcurrentBound(cfg, s, key, cap, e, p);
      }
    } else {
      ChatAllowancePassed(cfg, key, date, cap, e, p, allowance);
    }
  }
}
