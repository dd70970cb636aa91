/**
  The Redis read-through cache around a function. A call is up to three awaited steps (get,
  run the function, set); between them other callers run, time passes, keys
  are invalidated, and Redis may fail. Values, arguments and the codec are parameters.
 */
module ReadThroughCache {
  import opened Common

  /** `serialize_value` and `deserialize_value`; `None` is an exception. */
  datatype Codec<!V> = Codec(ser: V -> Option<string>, deser: string -> Option<V>)

  /** The decorator's arguments: cache key of a call, codec, time to live. */
  datatype Config<!A, !V> = Config(keyOf: A -> string, codec: Codec<V>, ttl: real)

  /** A stored value, when it expires, and which write put it there. */
  datatype Cell = Cell(data: string, expiry: real, writtenBy: nat)

  /** An execution of the function, and a write of its result to the store. */
  datatype Ran<A, V> = Ran(id: nat, args: A, value: V)
  datatype Write<V> = Write(key: string, ranBy: nat, value: V, at: real)

  datatype Source = Own(ran: nat) | Cached(write: nat, at: real)

  datatype Call<A, V> =
    | Getting(args: A)
    | Running(args: A)
    | Storing(args: A, value: V, ran: nat)
    | Returned(args: A, value: V, source: Source)
    | Raised(args: A)

  datatype Reply = Good | Bad(applied: bool)

  datatype State<A, V> = State(
    store: map<string, Cell>, calls: map<nat, Call<A, V>>, clock: real,
    runs: seq<Ran<A, V>>, writes: seq<Write<V>>)

  datatype Action<A, V> =
    | Invoke(id: nat, args: A)
    | Get(id: nat, reply: Reply)
    | Execute(id: nat, result: Option<V>)
    | Set(id: nat, reply: Reply)
    | Invalidate(keys: set<string>)
    | Wait(delta: real)

  function GetStep<A, V>(cfg: Config<A, V>, s: State<A, V>, id: nat, reply: Reply): State<A, V>
    requires id in s.calls && s.calls[id].Getting?
  {
    var args := s.calls[id].args;
    var key := cfg.keyOf(args);
    if reply.Good? && key in s.store && s.clock < s.store[key].expiry then
      var v := cfg.codec.deser(s.store[key].data);
      if v.Some? then s.(calls := s.calls[id := Returned(args, v.value, Cached(s.store[key].writtenBy, s.clock))])
      else s.(calls := s.calls[id := Running(args)])
    else s.(calls := s.calls[id := Running(args)])
  }

  function ExecuteStep<A, V>(s: State<A, V>, id: nat, result: Option<V>): State<A, V>
    requires id in s.calls && s.calls[id].Running?
  {
    var args := s.calls[id].args;
    if result.Some? then
      s.(calls := s.calls[id := Storing(args, result.value, |s.runs|)], runs := s.runs + [Ran(id, args, result.value)])
    else s.(calls := s.calls[id := Raised(args)])
  }

  /** SETEX with a time to live that is not positive is an error. */
  function SetStep<A, V>(cfg: Config<A, V>, s: State<A, V>, id: nat, reply: Reply): State<A, V>
    requires id in s.calls && s.calls[id].Storing?
  {
    var c := s.calls[id];
    var key := cfg.keyOf(c.args);
    var data := cfg.codec.ser(c.value);
    var calls := s.calls[id := Returned(c.args, c.value, Own(c.ran))];
    if data.Some? && cfg.ttl > 0.0 && (reply.Good? || reply.applied) then
      s.(calls := calls,
         store := s.store[key := Cell(data.value, s.clock + cfg.ttl, |s.writes|)],
         writes := s.writes + [Write(key, c.ran, c.value, s.clock)])
    else s.(calls := calls)
  }

  function Step<A, V>(cfg: Config<A, V>, s: State<A, V>, a: Action<A, V>): State<A, V> {
    match a
    case Invoke(id, args) => if id in s.calls then s else s.(calls := s.calls[id := Getting(args)])
    case Get(id, reply) => if id in s.calls && s.calls[id].Getting? then GetStep(cfg, s, id, reply) else s
    case Execute(id, result) => if id in s.calls && s.calls[id].Running? then ExecuteStep(s, id, result) else s
    case Set(id, reply) => if id in s.calls && s.calls[id].Storing? then SetStep(cfg, s, id, reply) else s
    case Invalidate(keys) => s.(store := s.store - keys)
    case Wait(delta) => if delta >= 0.0 then s.(clock := s.clock + delta) else s
  }

  function Start<A, V>(): State<A, V> {
    State(map[], map[], 0.0, [], [])
  }

  function Run<A, V>(cfg: Config<A, V>, actions: seq<Action<A, V>>): State<A, V> {
    if actions == [] then Start()
    else Step(cfg, Run(cfg, actions[..|actions| - 1]), actions[|actions| - 1])
  }

  // ------------------------------------------------------------------- the wrapper

  /** The wrapper as an object over one Redis: its methods update the state in place. */
  class CachedFunction<A, V> {
    const cfg: Config<A, V>
    var store: map<string, Cell>
    var calls: map<nat, Call<A, V>>
    var clock: real
    var runs: seq<Ran<A, V>>
    var writes: seq<Write<V>>

    function View(): State<A, V>
      reads this
    {
      State(store, calls, clock, runs, writes)
    }

    constructor (cfg: Config<A, V>)
      ensures View() == Start() && this.cfg == cfg
    {
      this.cfg := cfg;
      store, calls, clock, runs, writes := map[], map[], 0.0, [], [];
    }

    method LookUp(id: nat, reply: Reply) returns (hit: Option<V>)
      requires id in calls && calls[id].Getting?
      modifies this`calls
      ensures View() == GetStep(cfg, old(View()), id, reply)
      ensures if hit.Some? then calls[id].Returned? && calls[id].value == hit.value else calls[id].Running?
    {
      var args := calls[id].args;
      var key := cfg.keyOf(args);
      hit := None;
      if reply.Good? && key in store && clock < store[key].expiry {
        hit := cfg.codec.deser(store[key].data);
      }
      if hit.Some? {
        calls := calls[id := Returned(args, hit.value, Cached(store[key].writtenBy, clock))];
      } else {
        calls := calls[id := Running(args)];
      }
    }

    method Save(id: nat, reply: Reply)
      requires id in calls && calls[id].Storing?
      modifies this
      ensures View() == SetStep(cfg, old(View()), id, reply)
    {
      var c := calls[id];
      var data := cfg.codec.ser(c.value);
      if data.Some? && cfg.ttl > 0.0 && (reply.Good? || reply.applied) {
        var key := cfg.keyOf(c.args);
        store := store[key := Cell(data.value, clock + cfg.ttl, |writes|)];
        writes := writes + [Write(key, c.ran, c.value, clock)];
      }
      calls := calls[id := Returned(c.args, c.value, Own(c.ran))];
    }

    /** One call of the wrapped function with nobody interleaved: a hit answers without
        running it, everything else runs it and answers with its result, whatever
        happens to Redis. */
    method Wrapper(id: nat, args: A, func: A -> Option<V>, onGet: Reply, onSet: Reply) returns (r: Option<V>)
      requires id !in calls
      modifies this
      ensures View() ==
              Step(cfg, Step(cfg, Step(cfg, Step(cfg, old(View()), Invoke(id, args)), Get(id, onGet)),
                             Execute(id, func(args))), Set(id, onSet))
      ensures id in calls && (r.Some? ==> calls[id].Returned? && calls[id].value == r.value)
      ensures r.None? ==> calls[id].Raised? && func(args).None?
      ensures runs != old(runs) ==> r == func(args)
    {
      calls := calls[id := Getting(args)];
      r := LookUp(id, onGet);
      if r.Some? { return; }
      r := func(args);
      if r.None? {
        calls := calls[id := Raised(args)];
        return;
      }
      calls := calls[id := Storing(args, r.value, |runs|)];
      runs := runs + [Ran(id, args, r.value)];
      Save(id, onSet);
    }
  }
}
