/** gateway/routing/circuit_breaker.py. One breaker is a Redis hash with an
    expiry; a lapsed key is invisible to every command. HSET and HINCRBY never
    clear the expiry, so a breaker closed by a success keeps the deadline of
    its last opening. Times are the Redis server's, in seconds. */
module CircuitBreaker {
  import opened Wrappers

  /** The two values ever written to the field "state"; the docstring's
      half-open state is never stored. */
  datatype CircuitState = Closed | Open

  datatype Entry =
    | Absent
    | Hash(state: Option<CircuitState>, failures: nat, deadline: Option<real>)

  datatype Settings = Settings(threshold: int, cooldown: int)

  // --------------------------------------------------------------- commands

  function Live(e: Entry, now: real): Entry {
    if e.Hash? && e.deadline.Some? && now >= e.deadline.value then Absent else e
  }

  function Hincrby(e: Entry, now: real): (Entry, nat) {
    match Live(e, now)
    case Absent => (Hash(None, 1, None), 1)
    case Hash(st, n, d) => (Hash(st, n + 1, d), n + 1)
  }

  function HsetOpen(e: Entry, now: real): Entry {
    match Live(e, now)
    case Absent => Hash(Some(Open), 0, None)
    case Hash(_, n, d) => Hash(Some(Open), n, d)
  }

  function HsetClosed(e: Entry, now: real): Entry {
    match Live(e, now)
    case Absent => Hash(Some(Closed), 0, None)
    case Hash(_, _, d) => Hash(Some(Closed), 0, d)
  }

  /** EXPIRE: nothing on a missing key, and a delete for a non-positive time. */
  function Expire(e: Entry, now: real, seconds: int): Entry {
    match Live(e, now)
    case Absent => Absent
    case Hash(st, n, _) => if seconds <= 0 then Absent else Hash(st, n, Some(now + seconds as real))
  }

  function StateOf(e: Entry, now: real): CircuitState {
    match Live(e, now)
    case Absent => Closed
    case Hash(st, _, _) => if st == Some(Open) then Open else Closed
  }

  // ------------------------------------------------------------ whole calls

  /** Whether a failure recorded now reaches the threshold and opens. */
  predicate Trips(s: Settings, e: Entry, now: real) {
    Hincrby(e, now).1 >= s.threshold
  }

  /** record_failure, undisturbed. */
  function Fail(s: Settings, e: Entry, now: real): Entry {
    var (e1, failures) := Hincrby(e, now);
    if failures >= s.threshold then Expire(HsetOpen(e1, now), now, s.cooldown) else e1
  }

  datatype Event = Failure(at: real) | Success(at: real)

  function Record(s: Settings, e: Entry, ev: Event): Entry {
    match ev
    case Failure(t) => Fail(s, e, t)
    case Success(t) => HsetClosed(e, t)
  }

  function Replay(s: Settings, e: Entry, events: seq<Event>): Entry
    decreases events
  {
    if events == [] then e else Replay(s, Record(s, e, events[0]), events[1..])
  }

  function FailAll(s: Settings, e: Entry, ts: seq<real>): Entry
    decreases ts
  {
    if ts == [] then e else FailAll(s, Fail(s, e, ts[0]), ts[1..])
  }

  /** A run of failures at the given times opens the breaker somewhere. */
  predicate Tripped(s: Settings, e: Entry, ts: seq<real>)
    decreases ts
  {
    ts != [] && (Trips(s, e, ts[0]) || Tripped(s, Fail(s, e, ts[0]), ts[1..]))
  }

  /** A trip leaves the breaker open for exactly the cooldown. */
  lemma TripHolds(s: Settings, e: Entry, now: real, later: real)
    requires Trips(s, e, now) && now <= later
    ensures StateOf(Fail(s, e, now), later) == Open <==> later < now + s.cooldown as real
  {
  }

  /** A failure recorded while the breaker is open starts its cooldown again. */
  lemma OpenRearms(s: Settings, e: Entry, now: real, again: real, later: real)
    requires Trips(s, e, now) && now <= again < now + s.cooldown as real && again <= later
    ensures Trips(s, Fail(s, e, now), again)
    ensures StateOf(Fail(s, Fail(s, e, now), again), later) == Open <==> later < again + s.cooldown as real
  {
  }

  /** Failures on record that a command would still see. */
  function Tally(e: Entry, now: real): nat {
    match Live(e, now)
    case Absent => 0
    case Hash(_, n, _) => n
  }

  /** A success closes the breaker and clears its count, from any state and for
      as long as nothing else is recorded. */
  lemma SuccessCloses(s: Settings, e: Entry, now: real, later: real)
    requires now <= later
    ensures var after := Record(s, e, Success(now)); StateOf(after, later) == Closed && Tally(after, later) == 0
  {
  }

  /** A failure adds one to the count; a breaker that read closed reads open
      exactly when the count has reached the threshold. */
  lemma FailureCounts(s: Settings, e: Entry, now: real)
    requires StateOf(e, now) == Closed && s.cooldown > 0
    ensures var after := Record(s, e, Failure(now));
            Tally(after, now) == Tally(e, now) + 1 &&
            (StateOf(after, now) == Open <==> Tally(e, now) + 1 >= s.threshold)
  {
  }

  // ---------------------------------------------------------- opening bound

  /** Failures in a row that are sure to trip the breaker from this state. */
  function Need(s: Settings, e: Entry): int {
    if e.Absent? then s.threshold
    else
      var missing := if s.threshold - e.failures >= 1 then s.threshold - e.failures else 1;
      if e.deadline.None? then missing else missing - 1 + s.threshold
  }

  lemma {:induction false} NeedSuffices(s: Settings, e: Entry, ts: seq<real>)
    requires s.threshold >= 1 && |ts| >= Need(s, e)
    ensures Tripped(s, e, ts)
    decreases ts
  {
    if !Trips(s, e, ts[0]) {
      NeedSuffices(s, Fail(s, e, ts[0]), ts[1..]);
    }
  }

  /** Opening bound: from any state at all, 2 x threshold - 1 failures with no
      success among them open the breaker, however expiry falls. */
  lemma OpeningBound(s: Settings, e: Entry, ts: seq<real>)
    requires s.threshold >= 1 && |ts| >= 2 * s.threshold - 1
    ensures Tripped(s, e, ts)
  {
    NeedSuffices(s, e, ts);
  }

  lemma {:induction false} TooFewToTrip(s: Settings, e: Entry, ts: seq<real>)
    requires (if e.Hash? then e.failures else 0) + |ts| < s.threshold
    ensures !Tripped(s, e, ts)
    decreases ts
  {
    if ts != [] {
      TooFewToTrip(s, Fail(s, e, ts[0]), ts[1..]);
    }
  }

  lemma {:induction false} TrippedSplits(s: Settings, e: Entry, xs: seq<real>, ys: seq<real>)
    ensures Tripped(s, e, xs + ys) <==> Tripped(s, e, xs) || Tripped(s, FailAll(s, e, xs), ys)
    decreases xs
  {
    if xs == [] {
      assert xs + ys == ys;
    } else {
      assert (xs + ys)[1..] == xs[1..] + ys;
      TrippedSplits(s, Fail(s, e, xs[0]), xs[1..], ys);
    }
  }

  /** While the key neither lapses nor trips, failures simply add up. */
  lemma {:induction false} FailuresAddUp(s: Settings, e: Entry, ts: seq<real>)
    requires e.Hash? && e.failures + |ts| < s.threshold
    requires e.deadline.Some? ==> forall t | t in ts :: t < e.deadline.value
    ensures FailAll(s, e, ts) == e.(failures := e.failures + |ts|)
    decreases ts
  {
    if ts != [] {
      assert ts[0] in ts && forall t | t in ts[1..] :: t in ts;
      FailuresAddUp(s, Fail(s, e, ts[0]), ts[1..]);
    }
  }

  function Repeat(t: real, n: nat): seq<real> {
    seq(n, _ => t)
  }

  ghost predicate Sorted(ts: seq<real>) {
    forall i, j | 0 <= i <= j < |ts| :: ts[i] <= ts[j]
  }

  lemma {:induction false} FailuresToOpen(s: Settings, n: nat)
    requires 0 <= n < s.threshold
    ensures Replay(s, Absent, seq(n, _ => Failure(0.0)))
            == (if n == 0 then Absent else Hash(None, n, None))
    decreases n
  {
    if n > 0 {
      FailuresToOpen(s, n - 1);
      var before := seq(n - 1, _ => Failure(0.0));
      assert seq(n, _ => Failure(0.0)) == before + [Failure(0.0)];
      ReplaySplits(s, Absent, before, [Failure(0.0)]);
    }
  }

  lemma {:induction false} ReplaySplits(s: Settings, e: Entry, xs: seq<Event>, ys: seq<Event>)
    ensures Replay(s, e, xs + ys) == Replay(s, Replay(s, e, xs), ys)
    decreases xs
  {
    if xs == [] {
      assert xs + ys == ys;
    } else {
      assert (xs + ys)[1..] == xs[1..] + ys;
      ReplaySplits(s, Record(s, e, xs[0]), xs[1..], ys);
    }
  }

  /** An opening followed by a success, all at time zero. */
  function OpenThenClose(s: Settings): seq<Event>
    requires s.threshold >= 1
  {
    seq(s.threshold, _ => Failure(0.0)) + [Success(0.0)]
  }

  /** What they leave: closed, no failures, and the opening's deadline. */
  lemma StaleDeadline(s: Settings)
    requires s.threshold >= 1 && s.cooldown > 0
    ensures Replay(s, Absent, OpenThenClose(s)) == Hash(Some(Closed), 0, Some(s.cooldown as real))
  {
    var n := s.threshold;
    var before := seq(n - 1, _ => Failure(0.0));
    FailuresToOpen(s, n - 1);
    assert OpenThenClose(s) == before + [Failure(0.0), Success(0.0)];
    ReplaySplits(s, Absent, before, [Failure(0.0), Success(0.0)]);
    var e := Replay(s, Absent, before);
    assert Replay(s, e, [Failure(0.0), Success(0.0)])
        == Replay(s, Fail(s, e, 0.0), [Success(0.0)])
        == Replay(s, HsetClosed(Fail(s, e, 0.0), 0.0), []);
  }

  /** One short of the threshold before the stale deadline, and one short of
      it again from the deadline on. */
  function Straddling(s: Settings): seq<real>
    requires s.threshold >= 1
  {
    Repeat(0.0, s.threshold - 1) + Repeat(s.cooldown as real, s.threshold - 1)
  }

  /** The bound is sharp: after an opening and a success, 2 x threshold - 2
      failures in time order can all go by without opening the breaker. */
  lemma OpeningBoundIsSharp(s: Settings)
    requires s.threshold >= 1 && s.cooldown > 0
    ensures Sorted([0.0] + Straddling(s)) && |Straddling(s)| == 2 * s.threshold - 2
    ensures !Tripped(s, Replay(s, Absent, OpenThenClose(s)), Straddling(s))
  {
    StaleDeadline(s);
    var e := Hash(Some(Closed), 0, Some(s.cooldown as real));
    var early, late := Repeat(0.0, s.threshold - 1), Repeat(s.cooldown as real, s.threshold - 1);
    TooFewToTrip(s, e, early);
    FailuresAddUp(s, e, early);
    TrippedSplits(s, e, early, late);
    var spent := FailAll(s, e, early);
    if late != [] {
      assert Fail(s, spent, late[0]) == Fail(s, Absent, late[0]);
      assert !Tripped(s, Absent, late) by {
        TooFewToTrip(s, Absent, late);
      }
    }
  }

  /** The documented rule, N failures in a row open, holds after a success
      exactly when the key's old deadline does not fall between the first of
      them and the last. */
  lemma NominalOpeningIff(s: Settings, e: Entry, ts: seq<real>)
    requires s.threshold >= 1 && |ts| == s.threshold && Sorted(ts)
    requires e.Hash? && e.failures == 0
    ensures Tripped(s, e, ts) <==>
            e.deadline.None? || ts[|ts| - 1] < e.deadline.value || e.deadline.value <= ts[0]
  {
    if e.deadline.None? || ts[|ts| - 1] < e.deadline.value {
      DeadlineAheadTrips(s, e, ts);
    } else if e.deadline.value <= ts[0] {
      assert Fail(s, e, ts[0]) == Fail(s, Absent, ts[0]) && Trips(s, e, ts[0]) == Trips(s, Absent, ts[0]);
      NeedSuffices(s, Absent, ts);
    } else {
      StaleDeadlineDelays(s, e, ts);
    }
  }

  /** With no deadline before its end the row of failures adds up. */
  lemma DeadlineAheadTrips(s: Settings, e: Entry, ts: seq<real>)
    requires s.threshold >= 1 && |ts| == s.threshold && Sorted(ts)
    requires e.Hash? && e.failures == 0 && (e.deadline.None? || ts[|ts| - 1] < e.deadline.value)
    ensures Tripped(s, e, ts)
  {
    var n := s.threshold;
    var before, last := ts[..n - 1], [ts[n - 1]];
    assert ts == before + last;
    TooFewToTrip(s, e, before);
    FailuresAddUp(s, e, before);
    TrippedSplits(s, e, before, last);
  }

  /** A deadline that falls among the failures wipes the first of them. */
  lemma StaleDeadlineDelays(s: Settings, e: Entry, ts: seq<real>)
    requires s.threshold >= 1 && |ts| == s.threshold && Sorted(ts)
    requires e.Hash? && e.failures == 0 && e.deadline.Some? && ts[0] < e.deadline.value <= ts[|ts| - 1]
    ensures !Tripped(s, e, ts)
  {
    var m := FirstAtOrAfter(ts, e.deadline.value);
    var early, late := ts[..m], ts[m..];
    assert ts == early + late;
    TooFewToTrip(s, e, early);
    FailuresAddUp(s, e, early);
    TrippedSplits(s, e, early, late);
    assert Fail(s, FailAll(s, e, early), late[0]) == Fail(s, Absent, late[0]);
    TooFewToTrip(s, Absent, late);
  }

  /** From a missing key the breaker opens at the threshold, not before. */
  lemma FreshOpensIff(s: Settings, ts: seq<real>)
    requires s.threshold >= 1
    ensures Tripped(s, Absent, ts) <==> |ts| >= s.threshold
  {
    if |ts| >= s.threshold {
      NeedSuffices(s, Absent, ts);
    } else {
      TooFewToTrip(s, Absent, ts);
    }
  }

  /** After a trip and its cooldown the count starts again: failures from then
      on open the breaker exactly when they reach the threshold. */
  lemma ReopensIff(s: Settings, e: Entry, now: real, ts: seq<real>)
    requires s.threshold >= 1 && s.cooldown > 0 && Trips(s, e, now)
    requires ts != [] ==> ts[0] >= now + s.cooldown as real
    ensures Tripped(s, Fail(s, e, now), ts) <==> |ts| >= s.threshold
  {
    FreshOpensIff(s, ts);
    if ts != [] {
      var open := Fail(s, e, now);
      assert Fail(s, open, ts[0]) == Fail(s, Absent, ts[0]) && Trips(s, open, ts[0]) == Trips(s, Absent, ts[0]);
    }
  }

  /** The documented half-open rule, one probe whose failure opens the breaker
      again, is what the code does exactly when the threshold is one. */
  lemma HalfOpenIff(s: Settings, e: Entry, now: real, probe: real)
    requires s.threshold >= 1 && s.cooldown > 0 && Trips(s, e, now) && probe >= now + s.cooldown as real
    ensures StateOf(Fail(s, Fail(s, e, now), probe), probe) == Open <==> s.threshold == 1
  {
  }

  lemma FirstAtOrAfter(ts: seq<real>, d: real) returns (m: nat)
    requires Sorted(ts) && |ts| > 0 && ts[0] < d <= ts[|ts| - 1]
    ensures 0 < m < |ts| && d <= ts[m] && forall t | t in ts[..m] :: t < d
  {
    m := 1;
    while ts[m] < d
      invariant 0 < m < |ts|
      invariant forall i | 0 <= i < m :: ts[i] < d
      decreases |ts| - m
    {
      m := m + 1;
    }
  }

  // ------------------------------------------------- command interleavings

  /** Where a caller stands between the commands of record_failure. */
  datatype Caller = Idle | Counted | Marked

  /** One key shared by any number of callers; lastExpire is the history of
      the latest EXPIRE, kept only to state the bound. */
  datatype World = World(now: real, entry: Entry, callers: seq<Caller>, lastExpire: real)

  datatype Step =
    | Tick(dt: real)
    | Count(who: nat)
    | Mark(who: nat)
    | Arm(who: nat)
    | Succeed

  function Apply(s: Settings, w: World, step: Step): Option<World> {
    match step
    case Tick(dt) =>
      if dt < 0.0 then None else Some(w.(now := w.now + dt))
    case Succeed =>
      Some(w.(entry := HsetClosed(w.entry, w.now)))
    case Count(c) =>
      if c >= |w.callers| || w.callers[c] != Idle then None
      else
        var (e, failures) := Hincrby(w.entry, w.now);
        var next := if failures >= s.threshold then Counted else Idle;
        Some(w.(entry := e, callers := w.callers[c := next]))
    case Mark(c) =>
      if c >= |w.callers| || w.callers[c] != Counted then None
      else Some(w.(entry := HsetOpen(w.entry, w.now), callers := w.callers[c := Marked]))
    case Arm(c) =>
      if c >= |w.callers| || w.callers[c] != Marked then None
      else Some(w.(entry := Expire(w.entry, w.now, s.cooldown),
                   callers := w.callers[c := Idle], lastExpire := w.now))
  }

  function ApplyAll(s: Settings, w: World, steps: seq<Step>): Option<World>
    decreases steps
  {
    if steps == [] then Some(w)
    else match Apply(s, w, steps[0])
      case None => None
      case Some(w') => ApplyAll(s, w', steps[1..])
  }

  ghost predicate Start(w: World) {
    w.entry == Absent && (forall c | c in w.callers :: c == Idle) && w.lastExpire == w.now
  }

  ghost predicate OpenUntimed(e: Entry) {
    e.Hash? && e.state == Some(Open) && e.deadline.None?
  }

  ghost predicate Inv(s: Settings, w: World) {
    && (OpenUntimed(w.entry) ==> Marked in w.callers)
    && w.lastExpire <= w.now
    && (w.entry.Hash? && w.entry.deadline.Some? ==>
          w.entry.deadline.value <= w.lastExpire + s.cooldown as real)
  }

  lemma InvStep(s: Settings, w: World, step: Step)
    requires Inv(s, w) && Apply(s, w, step).Some?
    ensures Inv(s, Apply(s, w, step).value)
  {
    var w' := Apply(s, w, step).value;
    match step {
      case Tick(_) =>
      case Succeed =>
      case Count(c) =>
        if OpenUntimed(w'.entry) {
          StillMarked(w.callers, c, w'.callers[c]);
        }
      case Mark(c) =>
        assert w'.callers[c] == Marked;
      case Arm(c) =>
    }
  }

  lemma StillMarked(cs: seq<Caller>, c: nat, next: Caller)
    requires c < |cs| && cs[c] == Idle && Marked in cs
    ensures Marked in cs[c := next]
  {
    var k :| 0 <= k < |cs| && cs[k] == Marked;
    assert cs[c := next][k] == Marked;
  }

  lemma {:induction false} InvReached(s: Settings, w: World, steps: seq<Step>)
    requires Inv(s, w) && ApplyAll(s, w, steps).Some?
    ensures Inv(s, ApplyAll(s, w, steps).value)
    decreases steps
  {
    if steps != [] {
      InvStep(s, w, steps[0]);
      InvReached(s, Apply(s, w, steps[0]).value, steps[1..]);
    }
  }

  /** Never stuck open: under every interleaving of the three commands of any
      number of failing callers with successes, time and expiry, an open
      breaker without a deadline has a caller about to set one, and a deadline
      is never later than a cooldown after the last EXPIRE. So once callers
      have finished, a cooldown after that EXPIRE routing may use the backend. */
  lemma NeverStuckOpen(s: Settings, start: World, steps: seq<Step>)
    requires Start(start) && ApplyAll(s, start, steps).Some?
    ensures var w := ApplyAll(s, start, steps).value;
            (OpenUntimed(w.entry) ==> Marked in w.callers) &&
            ((Marked !in w.callers && w.now >= w.lastExpire + s.cooldown as real) ==>
              StateOf(w.entry, w.now) == Closed)
  {
    InvReached(s, start, steps);
  }

  /** Undisturbed, the three commands are record_failure. */
  lemma CommandsMakeFail(s: Settings, w: World, c: nat)
    requires c < |w.callers| && w.callers[c] == Idle
    ensures var steps := if Trips(s, w.entry, w.now) then [Count(c), Mark(c), Arm(c)] else [Count(c)];
            var r := ApplyAll(s, w, steps);
            r.Some? && r.value.entry == Fail(s, w.entry, w.now) && r.value.callers == w.callers
  {
    var w1 := Apply(s, w, Count(c)).value;
    if Trips(s, w.entry, w.now) {
      var w2 := Apply(s, w1, Mark(c)).value;
      var w3 := Apply(s, w2, Arm(c)).value;
      assert ApplyAll(s, w2, [Arm(c)]) == ApplyAll(s, w3, []) == Some(w3);
      assert [Mark(c), Arm(c)][1..] == [Arm(c)];
      assert ApplyAll(s, w1, [Mark(c), Arm(c)]) == Some(w3);
      assert [Count(c), Mark(c), Arm(c)][1..] == [Mark(c), Arm(c)];
      assert w3.callers == w.callers;
    } else {
      assert ApplyAll(s, w1, []) == Some(w1);
      assert w1.callers == w.callers;
    }
  }

  /** Time, and failing callers finishing what they have begun. */
  predicate Finishing(step: Step) {
    step.Tick? || step.Mark? || step.Arm?
  }

  /** It reads closed after any such steps. */
  ghost predicate StaysClosed(s: Settings, w: World) {
    forall steps | ApplyAll(s, w, steps).Some? && (forall x | x in steps :: Finishing(x)) ::
      var w' := ApplyAll(s, w, steps).value; StateOf(w'.entry, w'.now) == Closed
  }

  lemma {:induction false} ClosedStays(s: Settings, w: World, steps: seq<Step>)
    requires Counted !in w.callers && StateOf(w.entry, w.now) == Closed
    requires (forall x | x in steps :: Finishing(x)) && ApplyAll(s, w, steps).Some?
    ensures var w' := ApplyAll(s, w, steps).value; StateOf(w'.entry, w'.now) == Closed
    decreases steps
  {
    if steps != [] {
      assert steps[0] in steps && forall x | x in steps[1..] :: x in steps;
      var w' := Apply(s, w, steps[0]).value;
      forall c | 0 <= c < |w'.callers|
        ensures w'.callers[c] != Counted
      {
        assert w.callers[c] in w.callers;
      }
      ClosedStays(s, w', steps[1..]);
    }
  }

  lemma MarkOpens(s: Settings, w: World, c: nat)
    requires c < |w.callers| && w.callers[c] == Counted
    ensures !StaysClosed(s, w)
  {
    var steps, w' := [Mark(c)], Apply(s, w, Mark(c)).value;
    assert steps[1..] == [] && ApplyAll(s, w', []) == Some(w');
    assert ApplyAll(s, w, steps) == Some(w');
    assert forall x | x in steps :: Finishing(x);
  }

  /** A recorded success leaves the breaker closed for as long as no new
      failure is counted, whatever time passes and however the callers already
      at work finish, exactly when none of them stands between its HINCRBY and
      its HSET. */
  lemma SuccessSticksIff(s: Settings, w: World)
    ensures StaysClosed(s, Apply(s, w, Succeed).value) <==> Counted !in w.callers
  {
    var w0 := Apply(s, w, Succeed).value;
    if Counted in w.callers {
      var c :| 0 <= c < |w.callers| && w.callers[c] == Counted;
      MarkOpens(s, w0, c);
    } else {
      forall steps | ApplyAll(s, w0, steps).Some? && (forall x | x in steps :: Finishing(x))
        ensures var w' := ApplyAll(s, w0, steps).value; StateOf(w'.entry, w'.now) == Closed
      {
        ClosedStays(s, w0, steps);
      }
    }
  }

  /** The smallest case: a success between the HINCRBY that reaches the
      threshold and the HSET is overwritten, and the breaker ends open with no
      failure on its count. */
  lemma SuccessOverwritten(s: Settings, w: World, c: nat)
    requires c < |w.callers| && w.callers[c] == Idle
    requires s.cooldown > 0 && Trips(s, w.entry, w.now)
    ensures var r := ApplyAll(s, w, [Count(c), Succeed, Mark(c), Arm(c)]);
            r.Some? && r.value.entry.Hash? && r.value.entry.failures == 0 &&
            StateOf(r.value.entry, r.value.now) == Open
  {
    var w1 := Apply(s, w, Count(c)).value;
    var w2 := Apply(s, w1, Succeed).value;
    var w3 := Apply(s, w2, Mark(c)).value;
    var w4 := Apply(s, w3, Arm(c)).value;
    assert ApplyAll(s, w3, [Arm(c)]) == ApplyAll(s, w4, []) == Some(w4);
    assert [Mark(c), Arm(c)][1..] == [Arm(c)];
    assert ApplyAll(s, w2, [Mark(c), Arm(c)]) == Some(w4);
    assert [Succeed, Mark(c), Arm(c)][1..] == [Mark(c), Arm(c)];
    assert ApplyAll(s, w1, [Succeed, Mark(c), Arm(c)]) == Some(w4);
    assert [Count(c), Succeed, Mark(c), Arm(c)][1..] == [Succeed, Mark(c), Arm(c)];
  }
}
