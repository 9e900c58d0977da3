/** gateway/routing/registry.py: from the parsed routing file to the backends
    a request tries, and the theorem saying which one serves it. */
module Routing {
  import opened Wrappers

  /** One entry of a model's list; `place` is its index in that list, carried
      along for the statements below and read by no step. */
  datatype Entry = Entry(backend: string, priority: Option<int>, modelName: Option<string>, place: nat)

  datatype BackendConfig = BackendConfig(enabled: Option<bool>)

  datatype Backend = Backend(id: string, enabled: bool, priority: int, targetModel: string, place: nat)

  function GetOr<T>(o: Option<T>, default: T): T {
    match o
    case None => default
    case Some(v) => v
  }

  function Priority(e: Entry): int {
    GetOr(e.priority, 0)
  }

  // ----------------------------------------------------------- stable sort

  /** Insertion that keeps an earlier entry ahead of its equals. */
  function Insert(e: Entry, es: seq<Entry>): seq<Entry> {
    if es == [] || Priority(e) <= Priority(es[0]) then [e] + es
    else [es[0]] + Insert(e, es[1..])
  }

  /** sorted(entries, key=priority): stable. */
  function StableSort(es: seq<Entry>): seq<Entry> {
    if es == [] then [] else Insert(es[0], StableSort(es[1..]))
  }

  /** Least by (priority, place in the file). */
  ghost predicate Before(p: int, i: nat, q: int, j: nat) {
    p < q || (p == q && i < j)
  }

  ghost predicate EntryBefore(a: Entry, b: Entry) {
    Before(Priority(a), a.place, Priority(b), b.place)
  }

  ghost predicate InOrder(es: seq<Entry>) {
    forall i, j | 0 <= i < j < |es| :: EntryBefore(es[i], es[j])
  }

  ghost predicate Placed(es: seq<Entry>, from: nat) {
    forall i | 0 <= i < |es| :: es[i].place == from + i
  }

  lemma HeadEntryBeforeRest(es: seq<Entry>)
    requires InOrder(es) && es != []
    ensures forall x | x in es[1..] :: EntryBefore(es[0], x)
  {
    forall x | x in es[1..]
      ensures EntryBefore(es[0], x)
    {
      var k :| 0 <= k < |es[1..]| && es[1..][k] == x;
      assert EntryBefore(es[0], es[k + 1]);
    }
  }

  lemma ConsInOrder(e: Entry, es: seq<Entry>)
    ensures (InOrder(es) && forall x | x in es :: EntryBefore(e, x)) ==> InOrder([e] + es)
  {
  }

  lemma {:induction false} InsertInOrder(e: Entry, es: seq<Entry>)
    requires InOrder(es) && forall x | x in es :: e.place < x.place
    ensures InOrder(Insert(e, es))
    ensures multiset(Insert(e, es)) == multiset([e]) + multiset(es)
  {
    if es == [] {
    } else {
      HeadEntryBeforeRest(es);
      assert es == [es[0]] + es[1..];
      if Priority(e) <= Priority(es[0]) {
        ConsInOrder(e, es);
      } else {
        InsertInOrder(e, es[1..]);
        var rest := Insert(e, es[1..]);
        forall x | x in rest
          ensures EntryBefore(es[0], x)
        {
          assert x in multiset(rest);
        }
        ConsInOrder(es[0], rest);
      }
    }
  }

  /** The sort is a permutation in strict (priority, place) order, which fixes
      it completely. */
  lemma {:induction false} StableSortExact(es: seq<Entry>, from: nat)
    requires Placed(es, from)
    ensures InOrder(StableSort(es)) && multiset(StableSort(es)) == multiset(es)
    decreases es
  {
    if es != [] {
      StableSortExact(es[1..], from + 1);
      assert es == [es[0]] + es[1..];
      forall x | x in StableSort(es[1..])
        ensures es[0].place < x.place
      {
        assert x in multiset(es[1..]);
      }
      InsertInOrder(es[0], StableSort(es[1..]));
    }
  }

  // ------------------------------------------------------------- resolution

  /** The copy made for a known backend's entry. */
  function Copy(cfgs: map<string, BackendConfig>, model: string, e: Entry): Backend
    requires e.backend in cfgs
  {
    Backend(e.backend, GetOr(cfgs[e.backend].enabled, true), Priority(e), GetOr(e.modelName, model), e.place)
  }

  function Known(cfgs: map<string, BackendConfig>, model: string, es: seq<Entry>): seq<Backend> {
    if es == [] then []
    else (if es[0].backend in cfgs then [Copy(cfgs, model, es[0])] else []) + Known(cfgs, model, es[1..])
  }

  /** The chain _resolve builds for one model. */
  function Chain(cfgs: map<string, BackendConfig>, model: string, es: seq<Entry>): seq<Backend> {
    Known(cfgs, model, StableSort(es))
  }

  /** _resolve over a whole section. */
  method Resolve(cfgs: map<string, BackendConfig>, section: map<string, seq<Entry>>)
    returns (resolved: map<string, seq<Backend>>)
    ensures resolved.Keys == section.Keys
    ensures forall m | m in section :: resolved[m] == Chain(cfgs, m, section[m])
  {
    resolved := map[];
    var todo := section.Keys;
    while todo != {}
      invariant todo <= section.Keys && resolved.Keys == section.Keys - todo
      invariant forall m | m in resolved :: resolved[m] == Chain(cfgs, m, section[m])
      decreases todo
    {
      var model :| model in todo;
      var ordered := StableSort(section[model]);
      resolved := resolved[model := Known(cfgs, model, ordered)];
      todo := todo - {model};
    }
  }

  // -------------------------------------------------------------- filtering

  function Enabled(bs: seq<Backend>): seq<Backend> {
    if bs == [] then []
    else (if bs[0].enabled then [bs[0]] else []) + Enabled(bs[1..])
  }

  /** The backends whose breaker does not read "open". */
  function Available(bs: seq<Backend>, up: map<string, bool>): seq<Backend>
    requires forall b | b in bs :: b.id in up
  {
    if bs == [] then []
    else (if up[bs[0].id] then [bs[0]] else []) + Available(bs[1..], up)
  }

  /** How many of n items the slice [:limit] keeps, negative limits included. */
  function SliceLength(limit: int, n: nat): nat {
    if limit >= 0 then (if limit <= n then limit else n)
    else if n + limit >= 0 then n + limit else 0
  }

  function Slice<T>(xs: seq<T>, limit: int): seq<T> {
    xs[..SliceLength(limit, |xs|)]
  }

  // ------------------------------------------------------------ which serves

  /** The entry can be tried: known, enabled and not open. */
  predicate Eligible(cfgs: map<string, BackendConfig>, es: seq<Entry>, up: map<string, bool>, i: nat) {
    && i < |es|
    && es[i].backend in cfgs
    && GetOr(cfgs[es[i].backend].enabled, true)
    && es[i].backend in up && up[es[i].backend]
  }

  ghost predicate Earlier(es: seq<Entry>, i: nat, j: nat)
    requires i < |es| && j < |es|
  {
    Before(Priority(es[i]), i, Priority(es[j]), j)
  }

  /** How many eligible entries come before this one. */
  ghost function Rank(cfgs: map<string, BackendConfig>, es: seq<Entry>, up: map<string, bool>, i: nat): nat
    requires i < |es|
  {
    |set j: nat | j < |es| && Eligible(cfgs, es, up, j) && Earlier(es, j, i)|
  }

  ghost predicate Covers(up: map<string, bool>, es: seq<Entry>) {
    forall e | e in es :: e.backend in up
  }

  /** The list get_backends hands to the failover loop. */
  function Routed(cfgs: map<string, BackendConfig>, model: string, es: seq<Entry>, up: map<string, bool>): seq<Backend>
    requires forall b | b in Enabled(Chain(cfgs, model, es)) :: b.id in up
  {
    Available(Enabled(Chain(cfgs, model, es)), up)
  }

  ghost predicate Strict(bs: seq<Backend>) {
    forall i, j | 0 <= i < j < |bs| :: Before(bs[i].priority, bs[i].place, bs[j].priority, bs[j].place)
  }

  /** Filtering a sorted list: still sorted, exactly the copies that pass. */
  lemma {:induction false} KnownExact(cfgs: map<string, BackendConfig>, model: string, es: seq<Entry>)
    requires InOrder(es)
    ensures Strict(Known(cfgs, model, es))
    ensures forall b :: b in Known(cfgs, model, es) <==>
                        exists e :: e in es && e.backend in cfgs && b == Copy(cfgs, model, e)
    decreases es
  {
    if es != [] {
      KnownExact(cfgs, model, es[1..]);
      assert es == [es[0]] + es[1..];
      var rest := Known(cfgs, model, es[1..]);
      forall b | b in rest
        ensures Before(Priority(es[0]), es[0].place, b.priority, b.place)
      {
        var e :| e in es[1..] && e.backend in cfgs && b == Copy(cfgs, model, e);
        var k :| 0 <= k < |es[1..]| && es[1..][k] == e;
        assert EntryBefore(es[0], es[k + 1]);
      }
    }
  }

  lemma {:induction false} EnabledExact(bs: seq<Backend>)
    requires Strict(bs)
    ensures Strict(Enabled(bs))
    ensures forall b :: b in Enabled(bs) <==> b in bs && b.enabled
    decreases bs
  {
    if bs != [] {
      var rest := Enabled(bs[1..]);
      EnabledExact(bs[1..]);
      HeadBeforeRest(bs);
      assert forall b :: b in bs <==> b == bs[0] || b in bs[1..];
      assert Enabled(bs) == if bs[0].enabled then [bs[0]] + rest else rest;
    }
  }

  lemma {:induction false} AvailableExact(bs: seq<Backend>, up: map<string, bool>)
    requires Strict(bs) && forall b | b in bs :: b.id in up
    ensures Strict(Available(bs, up))
    ensures forall b :: b in Available(bs, up) <==> b in bs && up[b.id]
    decreases bs
  {
    if bs != [] {
      var rest := Available(bs[1..], up);
      AvailableExact(bs[1..], up);
      HeadBeforeRest(bs);
      assert forall b :: b in bs <==> b == bs[0] || b in bs[1..];
      assert Available(bs, up) == if up[bs[0].id] then [bs[0]] + rest else rest;
    }
  }

  lemma HeadBeforeRest(bs: seq<Backend>)
    requires Strict(bs) && bs != []
    ensures forall b | b in bs[1..] :: Before(bs[0].priority, bs[0].place, b.priority, b.place)
  {
    forall b | b in bs[1..]
      ensures Before(bs[0].priority, bs[0].place, b.priority, b.place)
    {
      var k :| 0 <= k < |bs[1..]| && bs[1..][k] == b;
      assert bs[k + 1] == b;
    }
  }

  /** The routed list is the eligible entries, each once, in (priority, place)
      order. */
  lemma RoutedExact(cfgs: map<string, BackendConfig>, model: string, es: seq<Entry>, up: map<string, bool>)
    requires Placed(es, 0) && Covers(up, es)
    ensures forall b | b in Enabled(Chain(cfgs, model, es)) :: b.id in up
    ensures Strict(Routed(cfgs, model, es, up))
    ensures forall b :: b in Routed(cfgs, model, es, up) <==>
                        Eligible(cfgs, es, up, b.place) && b == Copy(cfgs, model, es[b.place])
  {
    StableSortExact(es, 0);
    var sorted := StableSort(es);
    KnownExact(cfgs, model, sorted);
    var known := Known(cfgs, model, sorted);
    EnabledExact(known);
    forall b
      ensures b in known <==> b.place < |es| && es[b.place].backend in cfgs && b == Copy(cfgs, model, es[b.place])
    {
      if b in known {
        var e :| e in sorted && e.backend in cfgs && b == Copy(cfgs, model, e);
        assert e in multiset(sorted);
        assert e in es;
        var k :| 0 <= k < |es| && es[k] == e;
      }
      if b.place < |es| && es[b.place].backend in cfgs && b == Copy(cfgs, model, es[b.place]) {
        assert es[b.place] in multiset(es);
        assert es[b.place] in multiset(sorted);
      }
    }
    AvailableExact(Enabled(known), up);
  }

  ghost function Places(bs: seq<Backend>): set<nat> {
    set b | b in bs :: b.place
  }

  lemma {:induction false} PlacesCount(bs: seq<Backend>)
    requires forall i, j | 0 <= i < j < |bs| :: bs[i].place != bs[j].place
    ensures |Places(bs)| == |bs|
    decreases bs
  {
    if bs != [] {
      var last := bs[|bs| - 1];
      var init := bs[..|bs| - 1];
      PlacesCount(init);
      assert bs == init + [last];
      assert last.place !in Places(init);
      assert Places(bs) == Places(init) + {last.place};
    }
  }

  lemma BeforeIsAhead(r: seq<Backend>, k: nat, b: Backend)
    requires Strict(r) && k < |r| && b in r && Before(b.priority, b.place, r[k].priority, r[k].place)
    ensures b in r[..k]
  {
    var m :| 0 <= m < |r| && r[m] == b;
    if m < k {
      assert r[..k][m] == b;
    }
  }

  lemma AheadIsBefore(r: seq<Backend>, k: nat, b: Backend)
    requires Strict(r) && k < |r| && b in r[..k]
    ensures b in r && Before(b.priority, b.place, r[k].priority, r[k].place)
  {
    var m :| 0 <= m < k && r[m] == b;
  }

  /** An entry's rank is its index in the routed list. */
  lemma RankIsIndex(cfgs: map<string, BackendConfig>, model: string, es: seq<Entry>, up: map<string, bool>, k: nat)
    requires Placed(es, 0) && Covers(up, es)
    requires (forall b | b in Enabled(Chain(cfgs, model, es)) :: b.id in up) && k < |Routed(cfgs, model, es, up)|
    ensures var place := Routed(cfgs, model, es, up)[k].place;
            Eligible(cfgs, es, up, place) && Rank(cfgs, es, up, place) == k
  {
    RoutedExact(cfgs, model, es, up);
    var r := Routed(cfgs, model, es, up);
    var i := r[k].place;
    assert r[k] in r;
    var earlier := set j: nat | j < |es| && Eligible(cfgs, es, up, j) && Earlier(es, j, i);
    forall j: nat
      ensures j in earlier <==> j in Places(r[..k])
    {
      if j in earlier {
        assert Copy(cfgs, model, es[j]) in r;
        BeforeIsAhead(r, k, Copy(cfgs, model, es[j]));
      }
      if j in Places(r[..k]) {
        var b :| b in r[..k] && b.place == j;
        AheadIsBefore(r, k, b);
      }
    }
    assert earlier == Places(r[..k]);
    PlacesCount(r[..k]);
  }

  /** Index of the first backend whose call succeeds, or the length. */
  function FirstSuccess(bs: seq<Backend>, succeeds: nat -> bool): (k: nat)
    ensures k <= |bs|
    ensures k < |bs| ==> succeeds(bs[k].place)
    ensures forall j | 0 <= j < k :: !succeeds(bs[j].place)
    decreases bs
  {
    if bs == [] then 0
    else if succeeds(bs[0].place) then 0
    else 1 + FirstSuccess(bs[1..], succeeds)
  }

  /** The entry is among those tried and its call succeeds. */
  ghost predicate Wins(cfgs: map<string, BackendConfig>, es: seq<Entry>, up: map<string, bool>, limit: nat,
      succeeds: nat -> bool, i: nat) {
    Eligible(cfgs, es, up, i) && Rank(cfgs, es, up, i) < limit && succeeds(i)
  }

  /** End-to-end choice: the backend that serves a request is the least, by
      (priority, place in the file), of the first max_failover_attempts known,
      enabled, non-open entries for the requested model whose call succeeds,
      and no backend serves exactly when none of those succeeds. */
  lemma ServingBackend(cfgs: map<string, BackendConfig>, model: string, es: seq<Entry>, up: map<string, bool>,
      limit: int, succeeds: nat -> bool)
    requires Placed(es, 0) && Covers(up, es)
    ensures forall b | b in Enabled(Chain(cfgs, model, es)) :: b.id in up
    ensures var r := Routed(cfgs, model, es, up);
            var tried := Slice(r, limit);
            var k := FirstSuccess(tried, succeeds);
            if k < |tried| then
              Wins(cfgs, es, up, |tried|, succeeds, tried[k].place) &&
              tried[k] == Copy(cfgs, model, es[tried[k].place]) &&
              forall i: nat | Wins(cfgs, es, up, |tried|, succeeds, i) && i != tried[k].place ::
                Earlier(es, tried[k].place, i)
            else
              forall i: nat :: !Wins(cfgs, es, up, |tried|, succeeds, i)
  {
    RoutedExact(cfgs, model, es, up);
    var r := Routed(cfgs, model, es, up);
    var tried := Slice(r, limit);
    var k := FirstSuccess(tried, succeeds);
    if k < |tried| {
      RankIsIndex(cfgs, model, es, up, k);
      assert r[k] in r;
    }
    forall i: nat | Wins(cfgs, es, up, |tried|, succeeds, i)
      ensures k < |tried| && (i != tried[k].place ==> Earlier(es, tried[k].place, i))
    {
      var b := Copy(cfgs, model, es[i]);
      assert b in r;
      var m :| 0 <= m < |r| && r[m] == b;
      RankIsIndex(cfgs, model, es, up, m);
      assert tried[m] == b;
      if m != k {
        assert Before(r[k].priority, r[k].place, r[m].priority, r[m].place);
      }
    }
  }

  /** With at least as many attempts as the chain is long, a request fails
      only when every eligible backend failed it. */
  lemma LongEnoughTriesAll(cfgs: map<string, BackendConfig>, model: string, es: seq<Entry>, up: map<string, bool>,
      limit: int, succeeds: nat -> bool, i: nat)
    requires Placed(es, 0) && Covers(up, es) && limit >= |es|
    requires forall b | b in Enabled(Chain(cfgs, model, es)) :: b.id in up
    requires Eligible(cfgs, es, up, i) && succeeds(i)
    ensures var tried := Slice(Routed(cfgs, model, es, up), limit);
            FirstSuccess(tried, succeeds) < |tried|
  {
    RoutedExact(cfgs, model, es, up);
    var r := Routed(cfgs, model, es, up);
    PlacesDistinct(r);
    PlacesCount(r);
    forall p | p in Places(r)
      ensures p < |es|
    {
      var b :| b in r && b.place == p;
    }
    BoundedSet(Places(r), |es|);
    assert Slice(r, limit) == r;
    var b := Copy(cfgs, model, es[i]);
    assert b in r;
  }

  lemma PlacesDistinct(bs: seq<Backend>)
    requires Strict(bs) && forall i, j | 0 <= i < |bs| && 0 <= j < |bs| && bs[i].place == bs[j].place :: bs[i] == bs[j]
    ensures forall i, j | 0 <= i < j < |bs| :: bs[i].place != bs[j].place
  {
    forall i, j | 0 <= i < j < |bs|
      ensures bs[i].place != bs[j].place
    {
      assert Before(bs[i].priority, bs[i].place, bs[j].priority, bs[j].place);
    }
  }

  lemma {:induction false} BoundedSet(s: set<nat>, n: nat)
    requires forall x | x in s :: x < n
    ensures |s| <= n
    decreases n
  {
    if n > 0 {
      BoundedSet(s - {n - 1}, n - 1);
    } else {
      assert s == {};
    }
  }
}
