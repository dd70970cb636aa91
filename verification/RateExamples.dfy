/** Two runs of the rate limiter that attain its bounds. */
module RateExamples {
  import opened Common
  import opened RateLimiter
  import opened RateBounds
  import RateRestarts

  lemma RunSnoc(actions: seq<Action>, a: Action)
    ensures Run(actions + [a]) == Step(Run(actions), a)
  {
    assert (actions + [a])[..|actions|] == actions;
  }

  /** One executed INCR for `key` in window 0; its counter has expired and two calls wait. */
  predicate ExpiredOnce(s: State, key: string) {
    && s.clock == 61.0 && 1 in s.calls && 2 in s.calls
    && s.calls[1] == Ready(key, 1, 0) && s.calls[2] == Ready(key, 1, 0)
    && !Alive(s.store, RedisKey(key, 0), s.clock)
    && s.log == [Record(key, 0, 1, 0.0, true, 1, Allowed)]
  }

  lemma ThreeCallsAndAMinute(key: string) returns (actions: seq<Action>)
    ensures ExpiredOnce(Run(actions), key)
  {
    assert Window(0.0) == 0;
    actions := [];
    RunSnoc(actions, Begin(0, key, 1)); actions := actions + [Begin(0, key, 1)];
    RunSnoc(actions, Begin(1, key, 1)); actions := actions + [Begin(1, key, 1)];
    RunSnoc(actions, Begin(2, key, 1)); actions := actions + [Begin(2, key, 1)];
    RunSnoc(actions, Increment(0, Good)); actions := actions + [Increment(0, Good)];
    RunSnoc(actions, Expire(0, Good)); actions := actions + [Expire(0, Good)];
    assert Run(actions).store[RedisKey(key, 0)] == Counter(1, Some(60.0));
    RunSnoc(actions, Wait(61.0)); actions := actions + [Wait(61.0)];
  }

  lemma SecondCallPasses(s: State, key: string)
    requires ExpiredOnce(s, key)
    ensures Step(Step(s, Increment(1, Good)), Expire(1, Good)).log ==
            [Record(key, 0, 1, 0.0, true, 1, Allowed), Record(key, 0, 1, 61.0, true, 1, Allowed)]
  {
    var s' := Step(s, Increment(1, Good));
    assert s'.log == [Record(key, 0, 1, 0.0, true, 1, Allowed), Record(key, 0, 1, 61.0, true, 1, Pending)];
    assert s'.calls[1] == Expiring(1);
  }

  /** An INCR that reaches Redis after its window, when the counter has expired, starts the
      count again: two calls of one window get through a limit of one. */
  lemma LateIncrementRestarts(key: string) returns (actions: seq<Action>)
    ensures var log := Run(actions).log;
            && |log| == 2 && log[0].window == log[1].window == 0 && log[0].limit == log[1].limit == 1
            && log[0].key == log[1].key == key
            && log[0].verdict.Allowed? && log[1].verdict.Allowed?
  {
    actions := ThreeCallsAndAMinute(key);
    SecondCallPasses(Run(actions), key);
    RunSnoc(actions, Increment(1, Good)); actions := actions + [Increment(1, Good)];
    RunSnoc(actions, Expire(1, Good)); actions := actions + [Expire(1, Good)];
  }

  /** The second INCR starts the count again, and the third goes on from there. */
  lemma TheCountStaysBehind(s: State, key: string)
    requires ExpiredOnce(s, key)
    ensures var s' := Step(s, Increment(1, Good));
            && RateRestarts.Executes(s', Increment(2, Good)) && s'.calls[2] == Ready(key, 1, 0)
            && Alive(s'.store, RedisKey(key, 0), s'.clock)
            && Step(s', Increment(2, Good)).log[|s'.log|].count == 2
            && RateRestarts.HitsNow(s', s'.calls[2]) == 2
  {
    var s' := Step(s, Increment(1, Good));
    var log := s'.log;
    assert s'.store[RedisKey(key, 0)] == Counter(1, None);
    assert log == [Record(key, 0, 1, 0.0, true, 1, Allowed), Record(key, 0, 1, 61.0, true, 1, Pending)];
    assert Hits(log, 0, key, 0) == 0 && Hits(log, 1, key, 0) == 1 && Hits(log, 2, key, 0) == 2;
  }

  /** After a restart a counter is alive again but behind: the next INCR, too, returns less
      than one more than the number executed before it. */
  lemma AliveIsNotEnough(key: string) returns (actions: seq<Action>, late: Action)
    ensures var s := Run(actions);
            && RateRestarts.Executes(s, late) && s.calls[late.id] == Ready(key, 1, 0)
            && Alive(s.store, RedisKey(key, 0), s.clock)
            && Step(s, late).log[|s.log|].count < RateRestarts.HitsNow(s, s.calls[late.id]) + 1
  {
    var before := ThreeCallsAndAMinute(key);
    TheCountStaysBehind(Run(before), key);
    RunSnoc(before, Increment(1, Good));
    actions, late := before + [Increment(1, Good)], Increment(2, Good);
  }

  // -------------------------------------------------------- twice the limit is attained

  lemma PunctualSnoc(actions: seq<Action>, a: Action)
    requires PunctualRun(actions) && Punctual(Run(actions), a)
    ensures PunctualRun(actions + [a])
  {
    var more := actions + [a];
    forall i | 0 <= i < |more| ensures Punctual(Run(more[..i]), more[i]) {
      if i < |actions| {
        assert more[..i] == actions[..i];
      } else {
        assert more[..i] == actions;
      }
    }
  }

  /** Nobody has used the ids from `base` on. */
  predicate FreeFrom(s: State, base: nat) {
    forall id :: id in s.calls ==> id < base
  }

  /** `s` followed by `n` allowed calls for `key`, all at the time of `s`. */
  ghost predicate AllowedCalls(s: State, s': State, key: string, limit: nat, n: nat)
    requires Window(s.clock) >= 0
  {
    && s'.clock == s.clock && |s'.log| == |s.log| + n && s'.log[..|s.log|] == s.log
    && (forall i :: |s.log| <= i < |s'.log| ==>
          s'.log[i] == Record(key, Window(s.clock), limit, s.clock, true, i - |s.log| + 1, Allowed))
    && (n == 0 ==> s'.store == s.store)
    && (n > 0 ==> s'.store == s.store[RedisKey(key, Window(s.clock)) := Counter(n, Some(s.clock + 60.0))])
  }

  /** One more call at the same time, from its start to its answer. */
  lemma OneMoreCall(s: State, s1: State, key: string, limit: nat, n: nat, id: nat)
    requires Window(s.clock) >= 0 && RedisKey(key, Window(s.clock)) !in s.store
    requires AllowedCalls(s, s1, key, limit, n) && FreeFrom(s1, id) && n < limit
    ensures var s2 := Step(s1, Begin(id, key, limit));
            var s3 := Step(s2, Increment(id, Good));
            var s4 := Step(s3, Expire(id, Good));
            && Punctual(s2, Increment(id, Good))
            && AllowedCalls(s, s4, key, limit, n + 1) && FreeFrom(s4, id + 1)
  {
    var rk := RedisKey(key, Window(s.clock));
    var s2 := Step(s1, Begin(id, key, limit));
    var s3 := Step(s2, Increment(id, Good));
    var s4 := Step(s3, Expire(id, Good));
    assert rk in s1.store <==> n > 0;
    assert s3.log == s1.log + [s3.log[|s1.log|]];
    assert s4.log[..|s.log|] == s.log;
  }

  function OneCall(id: nat, key: string, limit: nat): seq<Action> {
    [Begin(id, key, limit), Increment(id, Good), Expire(id, Good)]
  }

  lemma OneCallSteps(actions: seq<Action>, id: nat, key: string, limit: nat)
    requires PunctualRun(actions)
    requires Punctual(Step(Run(actions), Begin(id, key, limit)), Increment(id, Good))
    ensures PunctualRun(actions + OneCall(id, key, limit))
    ensures Run(actions + OneCall(id, key, limit)) ==
            Step(Step(Step(Run(actions), Begin(id, key, limit)), Increment(id, Good)), Expire(id, Good))
  {
    hide Run, Step, PunctualRun;
    var begin, incr, expire := Begin(id, key, limit), Increment(id, Good), Expire(id, Good);
    RunSnoc(actions, begin);
    PunctualSnoc(actions, begin);
    RunSnoc(actions + [begin], incr);
    PunctualSnoc(actions + [begin], incr);
    RunSnoc(actions + [begin] + [incr], expire);
    PunctualSnoc(actions + [begin] + [incr], expire);
    assert actions + [begin] + [incr] + [expire] == actions + OneCall(id, key, limit);
  }

  /** One more call at the end of a run. */
  lemma OneMoreInARow(s: State, actions: seq<Action>, key: string, limit: nat, n: nat, id: nat)
    returns (more: seq<Action>, s': State)
    requires Window(s.clock) >= 0 && RedisKey(key, Window(s.clock)) !in s.store
    requires PunctualRun(actions) && AllowedCalls(s, Run(actions), key, limit, n)
    requires FreeFrom(Run(actions), id) && n < limit
    ensures s' == Run(more) && PunctualRun(more)
    ensures AllowedCalls(s, s', key, limit, n + 1) && FreeFrom(s', id + 1)
  {
    more := actions + OneCall(id, key, limit);
    s' := Run(more);
    OneMoreCall(s, Run(actions), key, limit, n, id);
    OneCallSteps(actions, id, key, limit);
  }

  lemma NoCalls(s: State, key: string, limit: nat)
    requires Window(s.clock) >= 0
    ensures AllowedCalls(s, s, key, limit, 0)
  {}

  lemma {:induction false} CallsInARow(start: seq<Action>, s: State, key: string, limit: nat, n: nat, base: nat)
    returns (actions: seq<Action>, s': State)
    requires s == Run(start) && PunctualRun(start) && n <= limit && FreeFrom(s, base)
    requires Window(s.clock) >= 0 && RedisKey(key, Window(s.clock)) !in s.store
    ensures s' == Run(actions) && PunctualRun(actions) && FreeFrom(s', base + n)
    ensures AllowedCalls(s, s', key, limit, n)
    decreases n
  {
    if n == 0 {
      actions, s' := start, s;
      NoCalls(s, key, limit);
    } else {
      var before, middle := CallsInARow(start, s, key, limit, n - 1, base);
      actions, s' := OneMoreInARow(s, before, key, limit, n - 1, base + n - 1);
    }
  }

  lemma {:induction false} AllCount(log: seq<Record>, n: nat, key: string, a: real)
    requires n <= |log| && forall i :: 0 <= i < n ==> Within(log[i], key, a) && log[i].verdict.Allowed?
    ensures LetThrough(log, n, key, a) == n
  {
    if n > 0 { AllCount(log, n - 1, key, a); }
  }

  /** The state after `limit` calls at 59 seconds. */
  lemma FirstHalf(key: string, limit: nat) returns (actions: seq<Action>, s: State)
    ensures s == Run(actions) && PunctualRun(actions) && FreeFrom(s, limit)
    ensures && s.clock == 59.0 && |s.log| == limit && RedisKey(key, 1) !in s.store
            && forall i :: 0 <= i < limit ==> s.log[i] == Record(key, 0, limit, 59.0, true, i + 1, Allowed)
  {
    assert Window(59.0) == 0;
    RunSnoc([], Wait(59.0));
    PunctualSnoc([], Wait(59.0));
    assert [] + [Wait(59.0)] == [Wait(59.0)];
    actions, s := CallsInARow([Wait(59.0)], Run([Wait(59.0)]), key, limit, limit, 0);
    RedisKeysAreDistinct(key, 0, key, 1);
  }

  /** Two seconds later. */
  lemma SecondHalf(start: seq<Action>, s: State, key: string, limit: nat)
    returns (actions: seq<Action>, log: seq<Record>)
    requires s == Run(start) && PunctualRun(start) && FreeFrom(s, limit)
    requires s.clock == 59.0 && RedisKey(key, 1) !in s.store
    ensures log == Run(actions).log && PunctualRun(actions)
    ensures var before := s.log;
            && |log| == |before| + limit && log[..|before|] == before
            && forall i :: |before| <= i < |log| ==>
                 log[i] == Record(key, 1, limit, 61.0, true, i - |before| + 1, Allowed)
  {
    assert Window(61.0) == 1;
    RunSnoc(start, Wait(2.0));
    PunctualSnoc(start, Wait(2.0));
    var later := Step(s, Wait(2.0));
    var end;
    actions, end := CallsInARow(start + [Wait(2.0)], later, key, limit, limit, limit);
    log := end.log;
  }

  /** The factor two is real for every limit: with punctual calls, `limit` calls at 59 seconds
      and `limit` calls at 61 seconds all get through. */
  lemma TwiceTheLimitIsReached(key: string, limit: nat) returns (actions: seq<Action>)
    ensures PunctualRun(actions)
    ensures var log := Run(actions).log;
            && (forall i :: 0 <= i < |log| ==> log[i].key == key && log[i].limit == limit)
            && LetThrough(log, |log|, key, 59.0) == 2 * limit
  {
    var first, s := FirstHalf(key, limit);
    var log;
    actions, log := SecondHalf(first, s, key, limit);
    forall i | 0 <= i < |log|
      ensures log[i].key == key && log[i].limit == limit && Within(log[i], key, 59.0) && log[i].verdict.Allowed?
    {
      if i < limit { assert log[i] == log[..limit][i] == s.log[i]; }
    }
    AllCount(log, |log|, key, 59.0);
  }
}
