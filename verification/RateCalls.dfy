/**
  One call of the rate limiter from its own point of view: which bucket and limit it gets, and
  what its answer depends on.
 */
module RateCalls {
  import opened Common
  import opened RateLimiter
  import opened RateRestarts
  import RateBounds

  // ------------------------------------------------------------------ bucket and limit

  /** A caller with a verified tenant and user has a bucket of its own with 1000 calls a
      minute; everybody else shares the bucket of the address, with 100. */
  lemma BucketAndLimit(tenant: Option<string>, user: Option<string>, ip: string)
    ensures var verified := tenant != None && tenant != Some("") && user != None && user != Some("");
            RateLimitKey(tenant, user, ip) ==
            if verified then ("rate_limit:tenant:" + tenant.value + ":" + user.value, 1000)
            else ("rate_limit:ip:" + ip, 100)
  {}

  /** Without a verified tenant and user, two callers share a bucket if and only if they come
      from the same address, whatever else they claim; and never with a verified caller. */
  lemma AddressesAreSeparate(t1: Option<string>, u1: Option<string>, ip1: string,
                             t2: Option<string>, u2: Option<string>, ip2: string,
                             tenant: string, user: string)
    requires !(Truthy(t1) && Truthy(u1)) && !(Truthy(t2) && Truthy(u2)) && tenant != "" && user != ""
    ensures RateLimitKey(t1, u1, ip1).0 == RateLimitKey(t2, u2, ip2).0 <==> ip1 == ip2
    ensures RateLimitKey(t1, u1, ip1).0 != RateLimitKey(Some(tenant), Some(user), ip2).0
  {
    BucketAndLimit(t1, u1, ip1);
    BucketAndLimit(t2, u2, ip2);
    BucketAndLimit(Some(tenant), Some(user), ip2);
    var prefix := "rate_limit:ip:";
    assert (prefix + ip1)[|prefix|..] == ip1 && (prefix + ip2)[|prefix|..] == ip2;
    assert (prefix + ip1)[11] == 'i';
    assert ("rate_limit:tenant:" + tenant + ":" + user)[11] == 't';
  }

  // ------------------------------------------------------------------------- counters

  /** A counter that was given its time to live is gone one minute later, and not before. */
  lemma CountersLastAMinute(store: Store, rk: string, now: real, later: real)
    requires Alive(store, rk, now) && now <= later
    ensures Alive(SetExpiry(store, rk, now), rk, later) <==> later < now + 60.0
  {}

  // ------------------------------------------------------------------ a call's history

  /** The actions of one call: its begin, its INCR, and its EXPIRE if it has come to that. */
  datatype History = History(id: nat, begin: nat, increment: nat, expire: Option<nat>)

  predicate BeganAs(actions: seq<Action>, h: History, key: string, limit: int, window: int) {
    && h.begin < |actions| && actions[h.begin] == Begin(h.id, key, limit)
    && window == (Run(actions[..h.begin]).clock / 60.0).Floor
  }

  /** The answer to a normal count. */
  predicate Answers(count: nat, limit: int, verdict: Verdict) {
    if count > limit then verdict.Rejected? else verdict.Allowed?
  }

  /** What became of the call: an INCR that fails lets it through; a first one waits for its
      EXPIRE, and lets it through too if that fails; every other is measured by its count. */
  predicate EndedAs(actions: seq<Action>, h: History, r: Record) {
    && h.begin < h.increment < |actions|
    && actions[h.increment].Increment? && actions[h.increment].id == h.id
    && var reply := actions[h.increment].reply;
       && r.at == Run(actions[..h.increment]).clock
       && (r.applied <==> reply.Good? || reply.applied)
       && (reply.Bad? ==> r.verdict.FailOpen? && h.expire.None?)
       && (reply.Good? && r.count != 1 ==> Answers(r.count, r.limit, r.verdict) && h.expire.None?)
       && (reply.Good? && r.count == 1 && h.expire.None? ==> r.verdict.Pending?)
       && (h.expire.Some? ==>
             && h.increment < h.expire.value < |actions|
             && actions[h.expire.value].Expire? && actions[h.expire.value].id == h.id
             && if actions[h.expire.value].reply.Bad? then r.verdict.FailOpen?
                else Answers(r.count, r.limit, r.verdict))
  }

  predicate Tells(actions: seq<Action>, h: History, r: Record) {
    BeganAs(actions, h, r.key, r.limit, r.window) && EndedAs(actions, h, r)
  }

  lemma LongerTells(actions: seq<Action>, a: Action, h: History, r: Record)
    requires Tells(actions, h, r)
    ensures Tells(actions + [a], h, r)
  {
    var more := actions + [a];
    assert more[..h.begin] == actions[..h.begin] && more[..h.increment] == actions[..h.increment];
  }

  /** A call that is ready began with the key and the limit it has, in the window it has. */
  lemma {:induction false} ReadyBegan(actions: seq<Action>, id: nat) returns (h: History)
    requires id in Run(actions).calls && Run(actions).calls[id].Ready?
    ensures var c := Run(actions).calls[id];
            h.id == id && BeganAs(actions, h, c.key, c.limit, c.window)
  {
    hide IncrementStep, ExpireStep;
    var init, a := actions[..|actions| - 1], actions[|actions| - 1];
    var s := Run(init);
    if id in s.calls {
      CallStays(s, a, id);
      h := ReadyBegan(init, id);
      assert actions[..h.begin] == init[..h.begin];
    } else {
      OnlyBeginCreates(s, a, id);
      h := History(id, |init|, 0, None);
    }
  }

  lemma CallStays(s: State, a: Action, id: nat)
    requires id in s.calls && id in Step(s, a).calls && Step(s, a).calls[id].Ready?
    ensures s.calls[id] == Step(s, a).calls[id]
  {}

  lemma OnlyBeginCreates(s: State, a: Action, id: nat)
    requires id !in s.calls && id in Step(s, a).calls
    ensures a.Begin? && a.id == id && Step(s, a).calls[id] == Ready(a.key, a.limit, Window(s.clock))
  {}

  /** The call that made record `i` is the only one that may still have to expire it. */
  ghost predicate Owns(s: State, h: History, i: nat) {
    forall id :: id in s.calls && s.calls[id].Expiring? && s.calls[id].slot == i ==> id == h.id
  }

  /** For every run and every record: it tells the whole story of one call. */
  lemma {:induction false} EveryRecordHasItsCall(actions: seq<Action>, i: nat) returns (h: History)
    requires i < |Run(actions).log|
    ensures Tells(actions, h, Run(actions).log[i]) && Owns(Run(actions), h, i)
  {
    hide IncrementStep, ExpireStep, Tells, Owns;
    var init, a := actions[..|actions| - 1], actions[|actions| - 1];
    var s := Run(init);
    assert actions == init + [a];
    RunNeverAhead(init);
    if i < |s.log| {
      h := EveryRecordHasItsCall(init, i);
      if Run(actions).log[i] == s.log[i] {
        LongerTells(init, a, h, s.log[i]);
        SameOwner(s, a, h, i);
      } else {
        h := ExpireTells(init, a, h, i);
      }
    } else {
      h := NewRecordTells(init, a, i);
    }
  }

  lemma SameOwner(s: State, a: Action, h: History, i: nat)
    requires SlotsOk(s) && i < |s.log| && Owns(s, h, i)
    ensures Owns(Step(s, a), h, i)
  {}

  /** Only its own EXPIRE changes a record. */
  lemma ExpireTells(init: seq<Action>, a: Action, h: History, i: nat) returns (h2: History)
    requires SlotsOk(Run(init)) && i < |Run(init).log| && Tells(init, h, Run(init).log[i]) && Owns(Run(init), h, i)
    requires i < |Step(Run(init), a).log| && Step(Run(init), a).log[i] != Run(init).log[i]
    ensures Tells(init + [a], h2, Step(Run(init), a).log[i]) && Owns(Step(Run(init), a), h2, i)
  {
    hide SetExpiry, Incr, RedisKey;
    var s := Run(init);
    LongerTells(init, a, h, s.log[i]);
    SameOwner(s, a, h, i);
    assert a.Expire? && a.id in s.calls && s.calls[a.id].Expiring? && s.calls[a.id].slot == i;
    assert s.log[i].verdict.Pending?;
    h2 := h.(expire := Some(|init|));
    assert (init + [a])[|init|] == a;
  }

  lemma NewRecordTells(init: seq<Action>, a: Action, i: nat) returns (h: History)
    requires SlotsOk(Run(init)) && |Run(init).log| <= i < |Step(Run(init), a).log|
    ensures Tells(init + [a], h, Step(Run(init), a).log[i]) && Owns(Step(Run(init), a), h, i)
  {
    hide SetExpiry, Incr, RedisKey;
    var s := Run(init);
    assert a.Increment? && a.id in s.calls && s.calls[a.id].Ready?;
    h := ReadyBegan(init, a.id);
    h := h.(increment := |init|, expire := None);
    var more := init + [a];
    assert more[..h.begin] == init[..h.begin] && more[..|init|] == init && more[|init|] == a;
  }
}
