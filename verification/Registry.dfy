/** The BackendRegistry object: configured chains filtered by breaker state. */
module Registry {
  import opened Wrappers
  import opened Errors
  import opened Routing
  import CircuitBreaker
  import opened Breaker

  function Configured(byModel: map<string, seq<Backend>>, model: string): seq<Backend> {
    if model in byModel then byModel[model] else []
  }

  function Ids(bs: seq<Backend>): set<string> {
    set b | b in bs :: b.id
  }

  /** Which of these backends routing may use for the model right now. */
  function Ups(store: map<string, CircuitBreaker.Entry>, model: string, ids: set<string>, now: real)
      : map<string, bool> {
    map id | id in ids :: CircuitBreaker.StateOf(Lookup(store, BreakerKey(id, model)), now) != CircuitBreaker.Open
  }

  /** What get_backends answers: the enabled, non-open part of the chain, or an
      error when that is empty. */
  function Answer(byModel: map<string, seq<Backend>>, store: map<string, CircuitBreaker.Entry>, model: string,
      now: real): (r: Result<seq<Backend>, GatewayError>)
    ensures r.Ok? ==> r.value != []
  {
    var candidates := Enabled(Configured(byModel, model));
    var up := Ups(store, model, Ids(candidates), now);
    if candidates == [] || Available(candidates, up) == [] then Err(AllProvidersUnavailable)
    else Ok(Available(candidates, up))
  }

  lemma {:induction false} AvailableAppend(bs: seq<Backend>, b: Backend, up: map<string, bool>)
    requires b.id in up && forall x | x in bs :: x.id in up
    ensures Available(bs + [b], up) == Available(bs, up) + if up[b.id] then [b] else []
    decreases bs
  {
    var last := if up[b.id] then [b] else [];
    if bs == [] {
      assert bs + [b] == [b];
      assert Available([b], up) == last + Available([], up) == last;
    } else {
      var head := if up[bs[0].id] then [bs[0]] else [];
      var rest := bs[1..];
      assert (bs + [b])[1..] == rest + [b] && (bs + [b])[0] == bs[0];
      AvailableAppend(rest, b, up);
      assert Available(bs + [b], up) == head + Available(rest + [b], up) == head + (Available(rest, up) + last);
      assert Available(bs, up) == head + Available(rest, up);
    }
  }

  lemma AvailableNext(bs: seq<Backend>, i: nat, up: map<string, bool>)
    requires i < |bs| && up.Keys == Ids(bs)
    ensures bs[i].id in up && (forall j | 0 <= j <= i :: bs[j].id in up)
    ensures Available(bs[..i + 1], up) == Available(bs[..i], up) + if up[bs[i].id] then [bs[i]] else []
  {
    forall j | 0 <= j < |bs|
      ensures bs[j].id in up
    {
      assert bs[j] in bs;
    }
    AvailableAppend(bs[..i], bs[i], up);
    assert bs[..i + 1] == bs[..i] + [bs[i]];
  }

  class BackendRegistry {
    const chat: map<string, seq<Backend>>
    const embedding: map<string, seq<Backend>>
    const breaker: BreakerStore

    constructor (chat: map<string, seq<Backend>>, embedding: map<string, seq<Backend>>, breaker: BreakerStore)
      ensures this.chat == chat && this.embedding == embedding && this.breaker == breaker
    {
      this.chat := chat;
      this.embedding := embedding;
      this.breaker := breaker;
    }

    function ByModel(embedding: bool): map<string, seq<Backend>> {
      if embedding then this.embedding else chat
    }

    method Filtered(byModel: map<string, seq<Backend>>, model: string, now: real)
      returns (r: Result<seq<Backend>, GatewayError>)
      ensures r == Answer(byModel, breaker.store, model, now)
    {
      var candidates := Enabled(Configured(byModel, model));
      if candidates == [] {
        return Err(AllProvidersUnavailable);
      }
      ghost var up := Ups(breaker.store, model, Ids(candidates), now);
      var available: seq<Backend> := [];
      for i := 0 to |candidates|
        invariant available == Available(candidates[..i], up)
      {
        var usable := breaker.IsAvailable(candidates[i].id, model, now);
        AvailableNext(candidates, i, up);
        if usable {
          available := available + [candidates[i]];
        }
      }
      assert candidates[..|candidates|] == candidates;
      if available == [] {
        return Err(AllProvidersUnavailable);
      }
      return Ok(available);
    }

    method GetBackends(model: string, now: real) returns (r: Result<seq<Backend>, GatewayError>)
      ensures r == Answer(chat, breaker.store, model, now)
    {
      r := Filtered(chat, model, now);
    }

    method GetEmbeddingBackends(model: string, now: real) returns (r: Result<seq<Backend>, GatewayError>)
      ensures r == Answer(embedding, breaker.store, model, now)
    {
      r := Filtered(embedding, model, now);
    }
  }

  /** What get_backends answers, backend by backend: those configured for the
      model, enabled, and whose breaker for it does not read open. */
  lemma {:induction false} AnswerExact(byModel: map<string, seq<Backend>>, store: map<string, CircuitBreaker.Entry>,
      model: string, now: real)
    ensures var answer := Answer(byModel, store, model, now);
            var usable := (b: Backend) =>
              model in byModel && b in byModel[model] && b.enabled &&
              CircuitBreaker.StateOf(Lookup(store, BreakerKey(b.id, model)), now) == CircuitBreaker.Closed;
            (answer.Ok? ==> forall b :: b in answer.value <==> usable(b)) &&
            (answer.Err? ==> forall b :: !usable(b))
  {
    var chain := Configured(byModel, model);
    var candidates := Enabled(chain);
    var up := Ups(store, model, Ids(candidates), now);
    EnabledMembers(chain);
    forall b | b in candidates
      ensures b.id in up
    {
      assert b.id in Ids(candidates);
    }
    AvailableMembers(candidates, up);
  }

  lemma {:induction false} EnabledMembers(bs: seq<Backend>)
    ensures forall b :: b in Enabled(bs) <==> b in bs && b.enabled
    decreases bs
  {
    if bs != [] {
      EnabledMembers(bs[1..]);
      assert forall b :: b in bs <==> b == bs[0] || b in bs[1..];
    }
  }

  lemma {:induction false} AvailableMembers(bs: seq<Backend>, up: map<string, bool>)
    requires forall b | b in bs :: b.id in up
    ensures forall b :: b in Available(bs, up) <==> b in bs && up[b.id]
    decreases bs
  {
    if bs != [] {
      AvailableMembers(bs[1..], up);
      assert forall b :: b in bs <==> b == bs[0] || b in bs[1..];
    }
  }
}
