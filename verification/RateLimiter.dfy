/**
  The fixed-window rate limiter. Each check reads the clock, increments a counter in
  Redis and, if it was the first, gives the counter a time to live. Between these
  awaited calls other clients run, time passes, and Redis may fail.
 */
module RateLimiter {
  import opened Common
  import Decimal

  const WINDOW_SIZE: int := 60
  const DEFAULT_IP_LIMIT: int := 100
  const DEFAULT_TENANT_LIMIT: int := 1000

  /** `int(time.time() / WINDOW_SIZE)`. */
  function Window(t: real): int {
    (t / 60.0).Floor
  }

  // ---------------------------------------------------------------------- keys

  function RedisKey(key: string, window: nat): string {
    key + ":" + Decimal.Print(window)
  }

  /** `_get_rate_limit_key`: a verified tenant and user, or the client address. */
  function RateLimitKey(tenant: Option<string>, user: Option<string>, ip: string): (string, int) {
    if Truthy(tenant) && Truthy(user) then
      ("rate_limit:tenant:" + tenant.value + ":" + user.value, DEFAULT_TENANT_LIMIT)
    else ("rate_limit:ip:" + ip, DEFAULT_IP_LIMIT)
  }

  function EndpointKey(namespace: string, ip: string): string {
    "rate_limit:ep:" + namespace + ":" + ip
  }

  // ------------------------------------------------------------------- the store

  datatype Counter = Counter(count: nat, expiry: Option<real>)

  type Store = map<string, Counter>

  predicate Alive(store: Store, rk: string, now: real) {
    rk in store && (store[rk].expiry.Some? ==> now < store[rk].expiry.value)
  }

  /** INCR: an expired counter is gone, and a new one has no time to live. */
  function Incr(store: Store, rk: string, now: real): Store {
    store[rk := if Alive(store, rk, now) then store[rk].(count := store[rk].count + 1) else Counter(1, None)]
  }

  /** EXPIRE rk 60. */
  function SetExpiry(store: Store, rk: string, now: real): Store {
    if Alive(store, rk, now) then store[rk := store[rk].(expiry := Some(now + 60.0))] else store
  }

  // ------------------------------------------------------------------- the protocol

  datatype Verdict = Pending | Allowed | Rejected | FailOpen

  /** What is known of one call once its INCR has been sent. */
  datatype Record = Record(key: string, window: nat, limit: int, at: real, applied: bool, count: nat, verdict: Verdict)

  datatype Call =
    | Ready(key: string, limit: int, window: nat)
    | Expiring(slot: nat)
    | Answered(slot: nat)

  /** How Redis answers: normally, or not, having executed the command or not. */
  datatype Reply = Good | Bad(applied: bool)

  datatype State = State(store: Store, calls: map<nat, Call>, clock: real, log: seq<Record>)

  datatype Action =
    | Begin(id: nat, key: string, limit: int)
    | Increment(id: nat, reply: Reply)
    | Expire(id: nat, reply: Reply)
    | Wait(delta: real)

  function Decide(count: nat, limit: int): Verdict {
    if count > limit then Rejected else Allowed
  }

  function IncrementStep(s: State, id: nat, reply: Reply): State
    requires id in s.calls && s.calls[id].Ready?
  {
    var c := s.calls[id];
    var rk := RedisKey(c.key, c.window);
    var store := if reply.Good? || reply.applied then Incr(s.store, rk, s.clock) else s.store;
    var count := if reply.Good? || reply.applied then store[rk].count else 0;
    var verdict := if reply.Bad? then FailOpen else if count == 1 then Pending else Decide(count, c.limit);
    var record := Record(c.key, c.window, c.limit, s.clock, reply.Good? || reply.applied, count, verdict);
    State(store,
          s.calls[id := if verdict.Pending? then Expiring(|s.log|) else Answered(|s.log|)],
          s.clock, s.log + [record])
  }

  function ExpireStep(s: State, id: nat, reply: Reply): State
    requires id in s.calls && s.calls[id].Expiring? && s.calls[id].slot < |s.log|
  {
    var slot := s.calls[id].slot;
    var r := s.log[slot];
    var store := if reply.Good? || reply.applied then SetExpiry(s.store, RedisKey(r.key, r.window), s.clock)
                 else s.store;
    State(store, s.calls[id := Answered(slot)], s.clock,
          s.log[slot := r.(verdict := if reply.Bad? then FailOpen else Decide(r.count, r.limit))])
  }

  /** One step of the clients, of Redis or of the clock. */
  function Step(s: State, a: Action): State {
    match a
    case Begin(id, key, limit) =>
      if id in s.calls || Window(s.clock) < 0 then s
      else s.(calls := s.calls[id := Ready(key, limit, Window(s.clock))])
    case Increment(id, reply) =>
      if id in s.calls && s.calls[id].Ready? then IncrementStep(s, id, reply) else s
    case Expire(id, reply) =>
      if id in s.calls && s.calls[id].Expiring? && s.calls[id].slot < |s.log| then ExpireStep(s, id, reply) else s
    case Wait(delta) => if delta >= 0.0 then s.(clock := s.clock + delta) else s
  }

  /** The INCR lands in the window that its caller read. */
  predicate Punctual(s: State, a: Action) {
    a.Increment? && a.id in s.calls && s.calls[a.id].Ready? ==> Window(s.clock) == s.calls[a.id].window
  }

  const START := State(map[], map[], 0.0, [])

  function Run(actions: seq<Action>): State {
    if actions == [] then START else Step(Run(actions[..|actions| - 1]), actions[|actions| - 1])
  }

  predicate PunctualRun(actions: seq<Action>) {
    forall i :: 0 <= i < |actions| ==> Punctual(Run(actions[..i]), actions[i])
  }

  /** How many INCRs of this counter were executed among the first `n` records. */
  function Hits(log: seq<Record>, n: nat, key: string, window: nat): nat
    requires n <= |log|
  {
    if n == 0 then 0
    else Hits(log, n - 1, key, window) +
         (if log[n - 1].applied && log[n - 1].key == key && log[n - 1].window == window then 1 else 0)
  }

  predicate Within(r: Record, key: string, a: real) {
    r.key == key && a <= r.at <= a + 60.0
  }

  /** Calls for `key` let through in the minute that starts at `a`. */
  function LetThrough(log: seq<Record>, n: nat, key: string, a: real): nat
    requires n <= |log|
  {
    if n == 0 then 0
    else LetThrough(log, n - 1, key, a) +
         (if Within(log[n - 1], key, a) && (log[n - 1].verdict.Allowed? || log[n - 1].verdict.FailOpen?) then 1 else 0)
  }

  function FailedOpen(log: seq<Record>, n: nat, key: string, a: real): nat
    requires n <= |log|
  {
    if n == 0 then 0
    else FailedOpen(log, n - 1, key, a) + (if Within(log[n - 1], key, a) && log[n - 1].verdict.FailOpen? then 1 else 0)
  }

  /** `WINDOW_SIZE - (int(time.time()) % WINDOW_SIZE)`. */
  function RetryAfter(t: real): int {
    WINDOW_SIZE - (t.Floor % WINDOW_SIZE)
  }
}
