/** How many calls the rate limiter lets through, over every interleaving. */
module RateBounds {
  import opened Common
  import opened RateLimiter
  import opened Joined
  import Decimal

  // ---------------------------------------------------------------- distinct keys

  /** A counter belongs to one key and one window, whatever the key contains. */
  lemma RedisKeysAreDistinct(k1: string, w1: nat, k2: string, w2: nat)
    ensures RedisKey(k1, w1) == RedisKey(k2, w2) <==> k1 == k2 && w1 == w2
  {
    if RedisKey(k1, w1) == RedisKey(k2, w2) {
      SplitAtLast(k1, Decimal.Print(w1), k2, Decimal.Print(w2));
      Decimal.PrintInjective(w1, w2);
    }
  }

  /** Endpoint buckets with colon-free namespaces are separate for each namespace and
      address, even for IPv6 addresses, and are never a global bucket. */
  lemma BucketsAreSeparate(ns1: string, ip1: string, ns2: string, ip2: string,
                           tenant: Option<string>, user: Option<string>, ip: string)
    requires ColonFree(ns1) && ColonFree(ns2)
    ensures EndpointKey(ns1, ip1) == EndpointKey(ns2, ip2) <==> ns1 == ns2 && ip1 == ip2
    ensures EndpointKey(ns1, ip1) != RateLimitKey(tenant, user, ip).0
  {
    var prefix := "rate_limit:ep:";
    if EndpointKey(ns1, ip1) == EndpointKey(ns2, ip2) {
      assert EndpointKey(ns1, ip1)[|prefix|..] == ns1 + ":" + ip1;
      assert EndpointKey(ns2, ip2)[|prefix|..] == ns2 + ":" + ip2;
      SplitAtFirst(ns1, ip1, ns2, ip2);
    }
    var other := RateLimitKey(tenant, user, ip).0;
    assert EndpointKey(ns1, ip1)[11] == 'e';
    assert other[11] == 't' || other[11] == 'i';
  }

  /** Two verified callers share a bucket exactly when tenant and user read the same with a
      colon between them: the same user of the same tenant if tenant ids have no colon. */
  lemma TenantBucketsAreSeparate(t1: string, u1: string, t2: string, u2: string, ip: string)
    requires t1 != "" && t2 != "" && u1 != "" && u2 != ""
    ensures RateLimitKey(Some(t1), Some(u1), ip) == RateLimitKey(Some(t2), Some(u2), ip) <==>
            t1 + ":" + u1 == t2 + ":" + u2
    ensures ColonFree(t1) && ColonFree(t2) ==> (t1 + ":" + u1 == t2 + ":" + u2 <==> t1 == t2 && u1 == u2)
  {
    var prefix := "rate_limit:tenant:";
    var (k1, k2) := (RateLimitKey(Some(t1), Some(u1), ip).0, RateLimitKey(Some(t2), Some(u2), ip).0);
    assert k1[|prefix|..] == t1 + ":" + u1 && k2[|prefix|..] == t2 + ":" + u2;
    assert k1 == prefix + (t1 + ":" + u1) && k2 == prefix + (t2 + ":" + u2);
    if t1 + ":" + u1 == t2 + ":" + u2 && ColonFree(t1) && ColonFree(t2) {
      SplitAtFirst(t1, u1, t2, u2);
    }
  }

  /** With a colon in a tenant id, users of different tenants can share a bucket. */
  lemma ColonsMergeBuckets(a: string, b: string, c: string, ip: string)
    requires a != "" && c != ""
    ensures RateLimitKey(Some(a + (":" + b)), Some(c), ip) == RateLimitKey(Some(a), Some(b + (":" + c)), ip)
    ensures a + (":" + b) != a
  {
    assert a + (":" + b) + ":" + c == a + ":" + (b + (":" + c));
    TenantBucketsAreSeparate(a + (":" + b), c, a, b + (":" + c), ip);
    assert |a + (":" + b)| > |a|;
  }

  // ------------------------------------------------------------------ the invariant

  ghost predicate StoreOk(s: State) {
    forall key, window ::
      && (RedisKey(key, window) in s.store <==> Hits(s.log, |s.log|, key, window) > 0)
      && (RedisKey(key, window) in s.store ==>
            var c := s.store[RedisKey(key, window)];
            && c.count == Hits(s.log, |s.log|, key, window)
            && (c.expiry.Some? ==> c.expiry.value >= 60.0 * (window + 1) as real))
  }

  ghost predicate RecordOk(s: State, i: nat)
    requires i < |s.log|
  {
    var r := s.log[i];
    && r.at <= s.clock && Window(r.at) == r.window
    && (r.applied ==> r.count == Hits(s.log, i + 1, r.key, r.window))
    && (r.verdict.Allowed? ==> r.applied && r.count <= r.limit)
    && (r.verdict.Rejected? ==> r.applied && r.count > r.limit)
    && (r.verdict.Pending? ==> r.applied && r.count == 1)
  }

  ghost predicate Inv(s: State) {
    && s.clock >= 0.0
    && StoreOk(s)
    && (forall i :: 0 <= i < |s.log| ==> RecordOk(s, i))
    && (forall id :: id in s.calls && s.calls[id].Expiring? ==>
          s.calls[id].slot < |s.log| && s.log[s.calls[id].slot].verdict.Pending?)
    && (forall a, b :: a in s.calls && b in s.calls && s.calls[a].Expiring? && s.calls[b].Expiring? && a != b ==>
          s.calls[a].slot != s.calls[b].slot)
  }

  lemma {:induction false} HitsAppend(log: seq<Record>, r: Record, n: nat, key: string, window: nat)
    requires n <= |log|
    ensures Hits(log + [r], n, key, window) == Hits(log, n, key, window)
  {
    if n > 0 { HitsAppend(log, r, n - 1, key, window); }
  }

  lemma {:induction false} HitsUpdate(log: seq<Record>, slot: nat, v: Verdict, n: nat, key: string, window: nat)
    requires n <= |log| && slot < |log|
    ensures Hits(log[slot := log[slot].(verdict := v)], n, key, window) == Hits(log, n, key, window)
  {
    if n > 0 { HitsUpdate(log, slot, v, n - 1, key, window); }
  }

  lemma WindowBounds(t: real)
    ensures 60.0 * Window(t) as real <= t < 60.0 * (Window(t) + 1) as real
  {}

  /** An INCR in the window of its key finds the counter alive if it was ever created. */
  lemma CounterIsAlive(s: State, key: string, window: nat)
    requires Inv(s) && Window(s.clock) == window
    ensures Alive(s.store, RedisKey(key, window), s.clock) <==> Hits(s.log, |s.log|, key, window) > 0
    ensures Alive(s.store, RedisKey(key, window), s.clock) ==>
              s.store[RedisKey(key, window)].count == Hits(s.log, |s.log|, key, window)
  {
    WindowBounds(s.clock);
  }

  lemma IncrementKeeps(s: State, id: nat, reply: Reply)
    requires Inv(s) && id in s.calls && s.calls[id].Ready? && Window(s.clock) == s.calls[id].window
    ensures Inv(IncrementStep(s, id, reply))
  {
    var c := s.calls[id];
    var s' := IncrementStep(s, id, reply);
    var r := s'.log[|s.log|];
    var rk := RedisKey(c.key, c.window);
    CounterIsAlive(s, c.key, c.window);
    HitsAppend(s.log, r, |s.log|, c.key, c.window);
    assert Hits(s'.log, |s'.log|, c.key, c.window) ==
           Hits(s.log, |s.log|, c.key, c.window) + (if r.applied then 1 else 0);
    forall key, window
      ensures RedisKey(key, window) in s'.store <==> Hits(s'.log, |s'.log|, key, window) > 0
      ensures RedisKey(key, window) in s'.store ==>
                var c := s'.store[RedisKey(key, window)];
                && c.count == Hits(s'.log, |s'.log|, key, window)
                && (c.expiry.Some? ==> c.expiry.value >= 60.0 * (window + 1) as real)
    {
      HitsAppend(s.log, r, |s.log|, key, window);
      RedisKeysAreDistinct(key, window, c.key, c.window);
      assert RedisKey(key, window) in s.store <==> Hits(s.log, |s.log|, key, window) > 0;
    }
    forall i | 0 <= i < |s'.log| ensures RecordOk(s', i) {
      if i < |s.log| {
        assert RecordOk(s, i);
        HitsAppend(s.log, r, i + 1, s.log[i].key, s.log[i].window);
      }
    }
  }

  lemma ExpireKeeps(s: State, id: nat, reply: Reply)
    requires Inv(s) && id in s.calls && s.calls[id].Expiring? && s.calls[id].slot < |s.log|
    ensures Inv(ExpireStep(s, id, reply))
  {
    var slot := s.calls[id].slot;
    var r := s.log[slot];
    var s' := ExpireStep(s, id, reply);
    var v := s'.log[slot].verdict;
    assert RecordOk(s, slot);
    WindowBounds(r.at);
    forall key, window
      ensures RedisKey(key, window) in s'.store <==> Hits(s'.log, |s'.log|, key, window) > 0
      ensures RedisKey(key, window) in s'.store ==>
                var c := s'.store[RedisKey(key, window)];
                && c.count == Hits(s'.log, |s'.log|, key, window)
                && (c.expiry.Some? ==> c.expiry.value >= 60.0 * (window + 1) as real)
    {
      HitsUpdate(s.log, slot, v, |s.log|, key, window);
      RedisKeysAreDistinct(key, window, r.key, r.window);
      assert RedisKey(key, window) in s.store <==> Hits(s.log, |s.log|, key, window) > 0;
    }
    forall i | 0 <= i < |s'.log| ensures RecordOk(s', i) {
      assert RecordOk(s, i);
      HitsUpdate(s.log, slot, v, i + 1, s.log[i].key, s.log[i].window);
    }
  }

  lemma StepKeeps(s: State, a: Action)
    requires Inv(s) && Punctual(s, a)
    ensures Inv(Step(s, a))
  {
    match a
    case Begin(_, _, _) =>
      var s' := Step(s, a);
      assert forall i :: 0 <= i < |s'.log| ==> RecordOk(s, i) ==> RecordOk(s', i);
    case Increment(id, reply) => if id in s.calls && s.calls[id].Ready? { IncrementKeeps(s, id, reply); }
    case Expire(id, reply) =>
      if id in s.calls && s.calls[id].Expiring? && s.calls[id].slot < |s.log| { ExpireKeeps(s, id, reply); }
    case Wait(_) =>
      var s' := Step(s, a);
      forall i | 0 <= i < |s'.log| ensures RecordOk(s', i) {
        assert RecordOk(s, i);
      }
  }

  lemma PunctualPrefix(actions: seq<Action>)
    requires actions != [] && PunctualRun(actions)
    ensures PunctualRun(actions[..|actions| - 1])
    ensures Punctual(Run(actions[..|actions| - 1]), actions[|actions| - 1])
  {
    var init := actions[..|actions| - 1];
    forall i | 0 <= i < |init| ensures Punctual(Run(init[..i]), init[i]) {
      assert init[..i] == actions[..i];
    }
  }

  lemma {:induction false} RunKeeps(actions: seq<Action>)
    requires PunctualRun(actions)
    ensures Inv(Run(actions))
  {
    if actions != [] {
      PunctualPrefix(actions);
      RunKeeps(actions[..|actions| - 1]);
      StepKeeps(Run(actions[..|actions| - 1]), actions[|actions| - 1]);
    }
  }

  // ------------------------------------------------------------------ main theorems

  /** With Redis up, every INCR is executed and nobody fails open. */
  lemma {:induction false} RedisUpMeansNoFailOpen(actions: seq<Action>, i: nat)
    requires forall a :: a in actions && a.Increment? ==> a.reply.Good?
    requires forall a :: a in actions && a.Expire? ==> a.reply.Good?
    requires i < |Run(actions).log|
    ensures Run(actions).log[i].applied && !Run(actions).log[i].verdict.FailOpen?
  {
    var init := actions[..|actions| - 1];
    assert actions[|actions| - 1] in actions;
    assert forall a :: a in init ==> a in actions;
    if i < |Run(init).log| { RedisUpMeansNoFailOpen(init, i); }
  }

  function AllowedIn(log: seq<Record>, n: nat, key: string, window: int): nat
    requires n <= |log|
  {
    if n == 0 then 0
    else AllowedIn(log, n - 1, key, window) +
         (if log[n - 1].key == key && log[n - 1].window == window && log[n - 1].verdict.Allowed? then 1 else 0)
  }

  lemma {:induction false} AllowedAtMostLimit(s: State, n: nat, key: string, window: int, limit: nat)
    requires n <= |s.log| && (forall i :: 0 <= i < |s.log| ==> RecordOk(s, i))
    requires forall i :: 0 <= i < |s.log| && s.log[i].key == key ==> s.log[i].limit == limit
    ensures AllowedIn(s.log, n, key, window) <= limit
    ensures window >= 0 ==> AllowedIn(s.log, n, key, window) <= Hits(s.log, n, key, window)
  {
    if n > 0 {
      AllowedAtMostLimit(s, n - 1, key, window, limit);
      assert RecordOk(s, n - 1);
    }
  }

  lemma WindowsOfAMinute(a: real, t: real)
    requires a <= t <= a + 60.0
    ensures Window(a) <= Window(t) <= Window(a) + 1
  {
    WindowBounds(a);
    WindowBounds(t);
  }

  lemma {:induction false} LetThroughSplits(s: State, n: nat, key: string, a: real)
    requires n <= |s.log| && (forall i :: 0 <= i < |s.log| ==> RecordOk(s, i))
    ensures LetThrough(s.log, n, key, a) <=
            AllowedIn(s.log, n, key, Window(a)) + AllowedIn(s.log, n, key, Window(a) + 1) + FailedOpen(s.log, n, key, a)
  {
    if n > 0 {
      LetThroughSplits(s, n - 1, key, a);
      assert RecordOk(s, n - 1);
      if Within(s.log[n - 1], key, a) { WindowsOfAMinute(a, s.log[n - 1].at); }
    }
  }

  /** In any interval of one window length, however it lies, at most twice the limit of
      calls with the same key get through, plus one for each call that failed open. */
  lemma AtMostTwiceTheLimit(actions: seq<Action>, key: string, limit: nat, a: real)
    requires PunctualRun(actions)
    requires forall i :: 0 <= i < |Run(actions).log| && Run(actions).log[i].key == key ==>
               Run(actions).log[i].limit == limit
    ensures var log := Run(actions).log;
            LetThrough(log, |log|, key, a) <= 2 * limit + FailedOpen(log, |log|, key, a)
  {
    RunKeeps(actions);
    var s := Run(actions);
    LetThroughSplits(s, |s.log|, key, a);
    AllowedAtMostLimit(s, |s.log|, key, Window(a), limit);
    AllowedAtMostLimit(s, |s.log|, key, Window(a) + 1, limit);
  }

  /** The advertised wait is between 1 and 60 seconds and leads exactly to the first whole
      second of the next window. */
  lemma RetryReachesNextWindow(t: real)
    requires t >= 0.0
    ensures 1 <= RetryAfter(t) <= 60
    ensures Window(t + RetryAfter(t) as real) == Window(t) + 1
    ensures t.Floor + RetryAfter(t) == 60 * (Window(t) + 1)
  {
    WindowBounds(t);
    var w, f := Window(t), t.Floor;
    assert 60 * w <= f < 60 * (w + 1);
    assert f % 60 == f - 60 * w;
    WindowBounds(t + RetryAfter(t) as real);
  }
}
