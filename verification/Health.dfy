/** gateway/routing/health.py: the background poller, a second writer of
    breaker state, and how soon it takes a dead backend out of routing. */
module Health {
  import opened RedisKeys
  import opened CircuitBreaker
  import opened Breaker
  import opened Routing

  /** One configured (backend, model) pair to probe. */
  datatype Probe = Probe(backend: string, model: string)

  datatype Section = Section(model: string, backends: seq<Backend>)

  /** Something recorded on a pair's breaker, by the poller or by a request. */
  datatype Note = Note(probe: Probe, event: Event)

  function ProbesOf(model: string, bs: seq<Backend>): seq<Probe> {
    seq(|bs|, i requires 0 <= i < |bs| => Probe(bs[i].id, model))
  }

  function Probes(sections: seq<Section>): seq<Probe> {
    if sections == [] then []
    else ProbesOf(sections[0].model, sections[0].backends) + Probes(sections[1..])
  }

  /** What a round records: its k-th probe answers with results(first + k). */
  function Notes(work: seq<Probe>, results: nat -> Event, first: nat): seq<Note> {
    seq(|work|, k requires 0 <= k < |work| => Note(work[k], results(first + k)))
  }

  function KeyOf(p: Probe): string {
    BreakerKey(p.backend, p.model)
  }

  /** The store after these notes, in order. */
  function Noted(s: Settings, store: map<string, CircuitBreaker.Entry>, notes: seq<Note>)
      : map<string, CircuitBreaker.Entry>
    decreases notes
  {
    if notes == [] then store
    else
      var key := KeyOf(notes[0].probe);
      Noted(s, store[key := Record(s, Lookup(store, key), notes[0].event)], notes[1..])
  }

  lemma {:induction false} NotedAppend(s: Settings, store: map<string, CircuitBreaker.Entry>, xs: seq<Note>, y: Note)
    ensures var key, before := KeyOf(y.probe), Noted(s, store, xs);
            Noted(s, store, xs + [y]) == before[key := Record(s, Lookup(before, key), y.event)]
    decreases xs
  {
    if xs == [] {
      assert xs + [y] == [y];
    } else {
      assert (xs + [y])[1..] == xs[1..] + [y] && (xs + [y])[0] == xs[0];
      var key := KeyOf(xs[0].probe);
      NotedAppend(s, store[key := Record(s, Lookup(store, key), xs[0].event)], xs[1..], y);
    }
  }

  lemma {:induction false} NotedSplits(s: Settings, store: map<string, CircuitBreaker.Entry>, xs: seq<Note>,
      ys: seq<Note>)
    ensures Noted(s, store, xs + ys) == Noted(s, Noted(s, store, xs), ys)
    decreases xs
  {
    if xs == [] {
      assert xs + ys == ys;
    } else {
      assert (xs + ys)[1..] == xs[1..] + ys && (xs + ys)[0] == xs[0];
      var key := KeyOf(xs[0].probe);
      NotedSplits(s, store[key := Record(s, Lookup(store, key), xs[0].event)], xs[1..], ys);
    }
  }

  lemma {:induction false} ProbesAppend(xs: seq<Section>, y: Section)
    ensures Probes(xs + [y]) == Probes(xs) + ProbesOf(y.model, y.backends)
    decreases xs
  {
    if xs == [] {
      assert xs + [y] == [y];
    } else {
      assert (xs + [y])[1..] == xs[1..] + [y];
      ProbesAppend(xs[1..], y);
    }
  }

  lemma ProbesNext(sections: seq<Section>, i: nat)
    requires i < |sections|
    ensures var work := ProbesOf(sections[i].model, sections[i].backends);
            Probes(sections[..i + 1]) == Probes(sections[..i]) + work[..|sections[i].backends|]
  {
    ProbesAppend(sections[..i], sections[i]);
    assert sections[..i + 1] == sections[..i] + [sections[i]];
  }

  lemma NextProbe(model: string, bs: seq<Backend>, j: nat, before: seq<Probe>)
    ensures j < |bs| ==>
            before + ProbesOf(model, bs)[..j] + [Probe(bs[j].id, model)] == before + ProbesOf(model, bs)[..j + 1]
  {
  }

  lemma OneMoreProbe(s: Settings, store: map<string, CircuitBreaker.Entry>, done: seq<Probe>, p: Probe,
      results: nat -> Event, first: nat)
    ensures var before := Noted(s, store, Notes(done, results, first));
            Noted(s, store, Notes(done + [p], results, first))
            == before[KeyOf(p) := Record(s, Lookup(before, KeyOf(p)), results(first + |done|))]
  {
    var next := Note(p, results(first + |done|));
    assert Notes(done + [p], results, first) == Notes(done, results, first) + [next];
    NotedAppend(s, store, Notes(done, results, first), next);
  }

  lemma NotesSplit(xs: seq<Probe>, ys: seq<Probe>, results: nat -> Event)
    ensures Notes(xs + ys, results, 0) == Notes(xs, results, 0) + Notes(ys, results, |xs|)
  {
  }

  class HealthPoller {
    const breaker: BreakerStore

    constructor (breaker: BreakerStore)
      ensures this.breaker == breaker
    {
      this.breaker := breaker;
    }

    /** _check_one: any GatewayError from the probe counts as a failure. */
    method CheckOne(p: Probe, result: Event)
      modifies breaker
      ensures var was := Lookup(old(breaker.store), KeyOf(p));
              breaker.store == old(breaker.store)[KeyOf(p) := Record(breaker.settings, was, result)]
    {
      match result {
        case Success(now) => breaker.RecordSuccess(p.backend, p.model, now);
        case Failure(now) => breaker.RecordFailure(p.backend, p.model, now);
      }
    }

    /** One of _poll_once's two loops over a section; `next` counts probes. */
    method PollSections(sections: seq<Section>, results: nat -> Event, first: nat) returns (next: nat)
      modifies breaker
      ensures breaker.store == Noted(breaker.settings, old(breaker.store), Notes(Probes(sections), results, first))
      ensures next == first + |Probes(sections)|
    {
      next := first;
      ghost var done: seq<Probe> := [];
      for i := 0 to |sections|
        invariant done == Probes(sections[..i]) && next == first + |done|
        invariant breaker.store == Noted(breaker.settings, old(breaker.store), Notes(done, results, first))
      {
        var model, bs := sections[i].model, sections[i].backends;
        for j := 0 to |bs|
          invariant done == Probes(sections[..i]) + ProbesOf(model, bs)[..j] && next == first + |done|
          invariant breaker.store == Noted(breaker.settings, old(breaker.store), Notes(done, results, first))
        {
          var p := Probe(bs[j].id, model);
          CheckOne(p, results(next));
          OneMoreProbe(breaker.settings, old(breaker.store), done, p, results, first);
          NextProbe(model, bs, j, Probes(sections[..i]));
          done, next := done + [p], next + 1;
        }
        ProbesNext(sections, i);
      }
      assert sections[..|sections|] == sections;
    }

    /** _poll_once: chat models, then embedding models if there is a provider.
        Each probe has its own answer, at its own time. */
    method PollOnce(chat: seq<Section>, embedding: seq<Section>, hasEmbeddingProvider: bool, results: nat -> Event)
      modifies breaker
      ensures var work := Probes(chat) + if hasEmbeddingProvider then Probes(embedding) else [];
              breaker.store == Noted(breaker.settings, old(breaker.store), Notes(work, results, 0))
    {
      var next := PollSections(chat, results, 0);
      ghost var front, more := Notes(Probes(chat), results, 0), Notes(Probes(embedding), results, next);
      assert Probes(chat) + [] == Probes(chat);
      if hasEmbeddingProvider {
        NotedSplits(breaker.settings, old(breaker.store), front, more);
        NotesSplit(Probes(chat), Probes(embedding), results);
        next := PollSections(embedding, results, next);
      }
    }
  }

  // ------------------------------------------------------------------ rounds

  /** When failures were noted on a pair. */
  function FailuresOf(notes: seq<Note>, p: Probe): seq<real> {
    if notes == [] then []
    else (if notes[0].probe == p then [notes[0].event.at] else []) + FailuresOf(notes[1..], p)
  }

  /** Nothing but failures is noted on the pair. */
  ghost predicate OnlyFailures(notes: seq<Note>, p: Probe) {
    forall n | n in notes && n.probe == p :: n.event.Failure?
  }

  ghost predicate ColonFree(notes: seq<Note>) {
    forall n | n in notes :: ':' !in n.probe.backend
  }

  /** Notes on other pairs do not touch a pair's breaker. */
  lemma {:induction false} NotesOnOnePair(s: Settings, store: map<string, CircuitBreaker.Entry>, notes: seq<Note>,
      p: Probe)
    requires OnlyFailures(notes, p) && ColonFree(notes) && ':' !in p.backend
    ensures Lookup(Noted(s, store, notes), KeyOf(p)) == FailAll(s, Lookup(store, KeyOf(p)), FailuresOf(notes, p))
    decreases notes
  {
    if notes != [] {
      var q, touched := notes[0].probe, KeyOf(notes[0].probe);
      assert notes[0] in notes && forall x | x in notes[1..] :: x in notes;
      if touched == KeyOf(p) {
        EncodeInjective(Circuit(q.backend, q.model), Circuit(p.backend, p.model));
        assert FailuresOf(notes, p)[1..] == FailuresOf(notes[1..], p);
      } else {
        assert FailuresOf(notes, p) == FailuresOf(notes[1..], p);
      }
      NotesOnOnePair(s, store[touched := Record(s, Lookup(store, touched), notes[0].event)], notes[1..], p);
    }
  }

  /** Some round of notes tripped the pair's breaker. */
  ghost predicate TrippedInRounds(s: Settings, store: map<string, CircuitBreaker.Entry>, rounds: seq<seq<Note>>,
      p: Probe)
    decreases rounds
  {
    rounds != [] &&
    (Tripped(s, Lookup(store, KeyOf(p)), FailuresOf(rounds[0], p))
     || TrippedInRounds(s, Noted(s, store, rounds[0]), rounds[1..], p))
  }

  /** From one poll to the next the pair was noted at least once, always as a
      failure, whatever else anyone noted before, between and after. */
  ghost predicate DeadRound(notes: seq<Note>, p: Probe) {
    ColonFree(notes) && OnlyFailures(notes, p) && FailuresOf(notes, p) != []
  }

  lemma {:induction false} RoundsSpendNeed(s: Settings, store: map<string, CircuitBreaker.Entry>,
      rounds: seq<seq<Note>>, p: Probe)
    requires s.threshold >= 1 && ':' !in p.backend && forall r | r in rounds :: DeadRound(r, p)
    requires |rounds| >= Need(s, Lookup(store, KeyOf(p)))
    ensures TrippedInRounds(s, store, rounds, p)
    decreases rounds
  {
    var e := Lookup(store, KeyOf(p));
    var failures := FailuresOf(rounds[0], p);
    assert rounds[0] in rounds && forall r | r in rounds[1..] :: r in rounds;
    if !Tripped(s, e, failures) {
      NotesOnOnePair(s, store, rounds[0], p);
      NeedShrinks(s, e, failures);
      RoundsSpendNeed(s, Noted(s, store, rounds[0]), rounds[1..], p);
    }
  }

  lemma {:induction false} NeedShrinks(s: Settings, e: CircuitBreaker.Entry, ts: seq<real>)
    requires s.threshold >= 1 && ts != [] && !Tripped(s, e, ts)
    ensures Need(s, FailAll(s, e, ts)) < Need(s, e)
    decreases ts
  {
    if |ts| > 1 {
      NeedShrinks(s, Fail(s, e, ts[0]), ts[1..]);
    }
  }

  lemma {:induction false} NotedFails(notes: seq<Note>, p: Probe)
    requires exists n :: n in notes && n.probe == p
    ensures FailuresOf(notes, p) != []
    decreases notes
  {
    if notes[0].probe != p {
      NotedFails(notes[1..], p);
    }
  }

  /** The notes of a polling round are among these, in whatever company. */
  ghost predicate RoundAmong(work: seq<Probe>, results: nat -> Event, notes: seq<Note>) {
    forall n | n in Notes(work, results, 0) :: n in notes
  }

  /** A configured backend that fails every probe is taken out: if no one notes
      a success on the pair, its breaker is opened within 2 x threshold - 1
      rounds of polling, whatever state it was found in, however the other
      pairs fare from round to round and whatever requests note meanwhile. */
  lemma DeadBackendIsTakenOut(s: Settings, store: map<string, CircuitBreaker.Entry>, work: seq<Probe>,
      results: seq<nat -> Event>, rounds: seq<seq<Note>>, p: Probe)
    requires s.threshold >= 1 && |rounds| == |results| >= 2 * s.threshold - 1
    requires p in work && ':' !in p.backend
    requires forall i | 0 <= i < |rounds| ::
               RoundAmong(work, results[i], rounds[i]) && OnlyFailures(rounds[i], p) && ColonFree(rounds[i])
    ensures TrippedInRounds(s, store, rounds, p)
  {
    var k :| 0 <= k < |work| && work[k] == p;
    forall r | r in rounds
      ensures DeadRound(r, p)
    {
      var i :| 0 <= i < |rounds| && rounds[i] == r;
      assert Notes(work, results[i], 0)[k] in Notes(work, results[i], 0);
      NotedFails(r, p);
    }
    RoundsSpendNeed(s, store, rounds, p);
  }

  /** A round probes exactly the configured pairs, whether enabled or not. */
  lemma {:induction false} ProbesExact(sections: seq<Section>, p: Probe)
    ensures p in Probes(sections) <==>
            exists s, b :: s in sections && s.model == p.model && b in s.backends && b.id == p.backend
    decreases sections
  {
    if sections != [] {
      ProbesExact(sections[1..], p);
      var work := ProbesOf(sections[0].model, sections[0].backends);
      assert sections == [sections[0]] + sections[1..];
      if p in work {
        var i :| 0 <= i < |work| && work[i] == p;
        assert sections[0].backends[i] in sections[0].backends;
      }
      forall b | b in sections[0].backends && b.id == p.backend && sections[0].model == p.model
        ensures p in work
      {
        var i :| 0 <= i < |sections[0].backends| && sections[0].backends[i] == b;
        assert work[i] == p;
      }
    }
  }
}
