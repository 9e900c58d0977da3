/** The CircuitBreaker object: its Redis commands issued one after another on
    the shared hashes, proved against the whole-call functions. */
module Breaker {
  import opened RedisKeys
  import opened CircuitBreaker

  function Lookup(store: map<string, Entry>, key: string): Entry {
    if key in store then store[key] else Absent
  }

  function BreakerKey(backend: string, model: string): string {
    Encode(Circuit(backend, model))
  }

  class BreakerStore {
    const settings: Settings
    var store: map<string, Entry>

    constructor (s: Settings)
      ensures settings == s && store == map[]
    {
      settings := s;
      store := map[];
    }

    method State(backend: string, model: string, now: real) returns (st: CircuitState)
      ensures st == StateOf(Lookup(store, BreakerKey(backend, model)), now)
    {
      var e := Live(Lookup(store, BreakerKey(backend, model)), now);
      if e.Hash? && e.state.Some? {
        return e.state.value;
      }
      return Closed;
    }

    /** Routing may send traffic here unless the state reads "open". */
    method IsAvailable(backend: string, model: string, now: real) returns (available: bool)
      ensures available <==> StateOf(Lookup(store, BreakerKey(backend, model)), now) != Open
    {
      var st := State(backend, model, now);
      return st != Open;
    }

    method RecordSuccess(backend: string, model: string, now: real)
      modifies this
      ensures var key := BreakerKey(backend, model);
              store == old(store)[key := Record(settings, Lookup(old(store), key), Success(now))]
    {
      var key := BreakerKey(backend, model);
      store := store[key := HsetClosed(Lookup(store, key), now)];
    }

    method RecordFailure(backend: string, model: string, now: real)
      modifies this
      ensures var key := BreakerKey(backend, model);
              store == old(store)[key := Record(settings, Lookup(old(store), key), Failure(now))]
    {
      var key := BreakerKey(backend, model);
      var (e, failures) := Hincrby(Lookup(store, key), now);
      store := store[key := e];
      if failures >= settings.threshold {
        store := store[key := HsetOpen(store[key], now)];
        store := store[key := Expire(store[key], now, settings.cooldown)];
      }
    }
  }
}
