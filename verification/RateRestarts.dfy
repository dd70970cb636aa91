/**
  When a counter of the rate limiter starts again. The count an INCR returns is its rank among
  the executed INCRs of its window unless the counter had expired before it.
 */
module RateRestarts {
  import opened Common
  import opened RateLimiter
  import opened RateBounds

  // ------------------------------------------------------------- every reachable state

  /** A counter never runs ahead of the executed INCRs. */
  ghost predicate NeverAhead(s: State) {
    forall key, window :: RedisKey(key, window) in s.store ==>
      1 <= s.store[RedisKey(key, window)].count <= Hits(s.log, |s.log|, key, window)
  }

  ghost predicate VerdictOk(r: Record) {
    && (r.verdict.Allowed? ==> r.applied && r.count <= r.limit)
    && (r.verdict.Rejected? ==> r.applied && r.count > r.limit)
    && (r.verdict.Pending? ==> r.applied && r.count == 1)
  }

  ghost predicate SlotsOk(s: State) {
    && (forall i :: 0 <= i < |s.log| ==> VerdictOk(s.log[i]))
    && (forall id :: id in s.calls && s.calls[id].Expiring? ==>
          s.calls[id].slot < |s.log| && s.log[s.calls[id].slot].verdict.Pending?)
    && (forall a, b :: a in s.calls && b in s.calls && s.calls[a].Expiring? && s.calls[b].Expiring? && a != b ==>
          s.calls[a].slot != s.calls[b].slot)
  }

  /** The INCR is executed: the call is ready and Redis runs the command. */
  predicate Executes(s: State, a: Action) {
    a.Increment? && a.id in s.calls && s.calls[a.id].Ready? && (a.reply.Good? || a.reply.applied)
  }

  function HitsNow(s: State, c: Call): nat
    requires c.Ready?
  {
    Hits(s.log, |s.log|, c.key, c.window)
  }

  /** The INCR finds its counter alive, or is the first of its window. */
  predicate Continues(s: State, c: Call)
    requires c.Ready?
  {
    Alive(s.store, RedisKey(c.key, c.window), s.clock) || HitsNow(s, c) == 0
  }

  predicate NoRestart(s: State, a: Action) {
    Executes(s, a) ==> Continues(s, s.calls[a.id])
  }

  predicate UnbrokenRun(actions: seq<Action>) {
    forall i :: 0 <= i < |actions| ==> NoRestart(Run(actions[..i]), actions[i])
  }

  lemma NewHits(s: State, id: nat, reply: Reply, key: string, window: nat)
    requires id in s.calls && s.calls[id].Ready?
    ensures var s' := IncrementStep(s, id, reply);
            var mine := s.calls[id].key == key && s.calls[id].window == window;
            Hits(s'.log, |s'.log|, key, window) ==
            Hits(s.log, |s.log|, key, window) + (if mine && (reply.Good? || reply.applied) then 1 else 0)
  {
    HitsAppend(s.log, IncrementStep(s, id, reply).log[|s.log|], |s.log|, key, window);
  }

  lemma IncrementNeverAhead(s: State, id: nat, reply: Reply)
    requires NeverAhead(s) && id in s.calls && s.calls[id].Ready?
    ensures NeverAhead(IncrementStep(s, id, reply))
  {
    var c, s' := s.calls[id], IncrementStep(s, id, reply);
    forall key, window | RedisKey(key, window) in s'.store
      ensures 1 <= s'.store[RedisKey(key, window)].count <= Hits(s'.log, |s'.log|, key, window)
    {
      NewHits(s, id, reply, key, window);
      RedisKeysAreDistinct(key, window, c.key, c.window);
    }
  }

  lemma ExpireNeverAhead(s: State, id: nat, reply: Reply)
    requires NeverAhead(s) && id in s.calls && s.calls[id].Expiring? && s.calls[id].slot < |s.log|
    ensures NeverAhead(ExpireStep(s, id, reply))
  {
    var s' := ExpireStep(s, id, reply);
    var slot := s.calls[id].slot;
    forall key, window | RedisKey(key, window) in s'.store
      ensures 1 <= s'.store[RedisKey(key, window)].count <= Hits(s'.log, |s'.log|, key, window)
    {
      HitsUpdate(s.log, slot, s'.log[slot].verdict, |s.log|, key, window);
    }
  }

  lemma StepKeepsSlots(s: State, a: Action)
    requires SlotsOk(s)
    ensures SlotsOk(Step(s, a))
  {
    hide Incr, SetExpiry, RedisKey, Window;
  }

  lemma StepNeverAhead(s: State, a: Action)
    requires NeverAhead(s) && SlotsOk(s)
    ensures NeverAhead(Step(s, a)) && SlotsOk(Step(s, a))
  {
    hide SlotsOk, IncrementStep, ExpireStep;
    StepKeepsSlots(s, a);
    match a
    case Increment(id, reply) => if id in s.calls && s.calls[id].Ready? { IncrementNeverAhead(s, id, reply); }
    case Expire(id, reply) =>
      if id in s.calls && s.calls[id].Expiring? && s.calls[id].slot < |s.log| { ExpireNeverAhead(s, id, reply); }
    case _ =>
  }

  lemma {:induction false} RunNeverAhead(actions: seq<Action>)
    ensures NeverAhead(Run(actions)) && SlotsOk(Run(actions))
  {
    if actions != [] {
      RunNeverAhead(actions[..|actions| - 1]);
      StepNeverAhead(Run(actions[..|actions| - 1]), actions[|actions| - 1]);
    }
  }

  /** In every reachable state: an executed INCR returns at most one more than the number
      executed before it, and exactly that if and only if its counter is alive and was not
      restarted before, or it is the first. */
  lemma CountOfAnIncrement(actions: seq<Action>, a: Action)
    requires Executes(Run(actions), a)
    ensures var s := Run(actions);
            var c := s.calls[a.id];
            var rk := RedisKey(c.key, c.window);
            var count := Step(s, a).log[|s.log|].count;
            && count <= HitsNow(s, c) + 1
            && (count == HitsNow(s, c) + 1 <==>
                  (Alive(s.store, rk, s.clock) && s.store[rk].count == HitsNow(s, c)) || HitsNow(s, c) == 0)
  {
    RunNeverAhead(actions);
  }

  // -------------------------------------------------------------------- unbroken runs

  ghost predicate CountersExact(s: State) {
    forall key, window ::
      && (RedisKey(key, window) in s.store <==> Hits(s.log, |s.log|, key, window) > 0)
      && (RedisKey(key, window) in s.store ==>
            s.store[RedisKey(key, window)].count == Hits(s.log, |s.log|, key, window))
  }

  ghost predicate RanksExact(s: State) {
    forall i :: 0 <= i < |s.log| && s.log[i].applied ==>
      s.log[i].count == Hits(s.log, i + 1, s.log[i].key, s.log[i].window)
  }

  lemma IncrementExact(s: State, id: nat, reply: Reply)
    requires CountersExact(s) && id in s.calls && s.calls[id].Ready? && NoRestart(s, Increment(id, reply))
    ensures CountersExact(IncrementStep(s, id, reply))
  {
    var c, s' := s.calls[id], IncrementStep(s, id, reply);
    assert RedisKey(c.key, c.window) in s.store <==> HitsNow(s, c) > 0;
    forall key, window
      ensures RedisKey(key, window) in s'.store <==> Hits(s'.log, |s'.log|, key, window) > 0
      ensures RedisKey(key, window) in s'.store ==>
                s'.store[RedisKey(key, window)].count == Hits(s'.log, |s'.log|, key, window)
    {
      NewHits(s, id, reply, key, window);
      RedisKeysAreDistinct(key, window, c.key, c.window);
      assert RedisKey(key, window) in s.store <==> Hits(s.log, |s.log|, key, window) > 0;
    }
  }

  /** Whether the new record's count is its rank. */
  lemma NewRank(s: State, id: nat, reply: Reply)
    requires CountersExact(s) && Executes(s, Increment(id, reply))
    ensures var r := IncrementStep(s, id, reply).log[|s.log|];
            r.count == HitsNow(s, s.calls[id]) + 1 <==> Continues(s, s.calls[id])
  {
    var c := s.calls[id];
    assert RedisKey(c.key, c.window) in s.store <==> HitsNow(s, c) > 0;
  }

  lemma ExpireExact(s: State, id: nat, reply: Reply)
    requires CountersExact(s) && id in s.calls && s.calls[id].Expiring? && s.calls[id].slot < |s.log|
    ensures CountersExact(ExpireStep(s, id, reply))
  {
    var s' := ExpireStep(s, id, reply);
    var slot := s.calls[id].slot;
    forall key, window
      ensures RedisKey(key, window) in s'.store <==> Hits(s'.log, |s'.log|, key, window) > 0
      ensures RedisKey(key, window) in s'.store ==>
                s'.store[RedisKey(key, window)].count == Hits(s'.log, |s'.log|, key, window)
    {
      HitsUpdate(s.log, slot, s'.log[slot].verdict, |s.log|, key, window);
      assert RedisKey(key, window) in s.store <==> Hits(s.log, |s.log|, key, window) > 0;
    }
  }

  lemma StepExact(s: State, a: Action)
    requires CountersExact(s) && NoRestart(s, a)
    ensures CountersExact(Step(s, a))
  {
    match a
    case Increment(id, reply) => if id in s.calls && s.calls[id].Ready? { IncrementExact(s, id, reply); }
    case Expire(id, reply) =>
      if id in s.calls && s.calls[id].Expiring? && s.calls[id].slot < |s.log| { ExpireExact(s, id, reply); }
    case _ =>
  }

  /** A step keeps the ranks of the records so far, and adds one record at most. */
  lemma StepRanks(s: State, a: Action)
    ensures var s' := Step(s, a);
            && |s.log| <= |s'.log| <= |s.log| + 1
            && (|s'.log| == |s.log| + 1 ==> a.Increment? && a.id in s.calls && s.calls[a.id].Ready?)
            && (forall i :: 0 <= i < |s.log| ==>
                  && s'.log[i] == s.log[i].(verdict := s'.log[i].verdict)
                  && Hits(s'.log, i + 1, s.log[i].key, s.log[i].window) ==
                     Hits(s.log, i + 1, s.log[i].key, s.log[i].window))
  {
    var s' := Step(s, a);
    forall i | 0 <= i < |s.log|
      ensures s'.log[i] == s.log[i].(verdict := s'.log[i].verdict)
      ensures Hits(s'.log, i + 1, s.log[i].key, s.log[i].window) == Hits(s.log, i + 1, s.log[i].key, s.log[i].window)
    {
      if |s'.log| > |s.log| {
        HitsAppend(s.log, s'.log[|s.log|], i + 1, s.log[i].key, s.log[i].window);
      } else if s'.log != s.log {
        var slot := s.calls[a.id].slot;
        HitsUpdate(s.log, slot, s'.log[slot].verdict, i + 1, s.log[i].key, s.log[i].window);
      }
    }
  }

  lemma UnbrokenPrefix(actions: seq<Action>)
    requires actions != []
    ensures UnbrokenRun(actions) <==>
            UnbrokenRun(actions[..|actions| - 1]) && NoRestart(Run(actions[..|actions| - 1]), actions[|actions| - 1])
  {
    var last := |actions| - 1;
    var init := actions[..last];
    forall i | 0 <= i < last ensures init[..i] == actions[..i] && init[i] == actions[i] {}
  }

  lemma {:induction false} UnbrokenCounters(actions: seq<Action>)
    requires UnbrokenRun(actions)
    ensures CountersExact(Run(actions))
  {
    if actions != [] {
      UnbrokenPrefix(actions);
      UnbrokenCounters(actions[..|actions| - 1]);
      StepExact(Run(actions[..|actions| - 1]), actions[|actions| - 1]);
    }
  }

  /** The rank of the record that an executed INCR adds. */
  lemma LastRank(s: State, a: Action)
    requires CountersExact(s) && a.Increment? && a.id in s.calls && s.calls[a.id].Ready?
    ensures var s' := Step(s, a);
            var r := s'.log[|s.log|];
            (r.applied ==> r.count == Hits(s'.log, |s.log| + 1, r.key, r.window)) <==> NoRestart(s, a)
  {
    var c := s.calls[a.id];
    NewHits(s, a.id, a.reply, c.key, c.window);
    if Executes(s, a) { NewRank(s, a.id, a.reply); }
  }

  /** Over any run, every executed INCR returned its rank in its window if and only if every
      executed INCR found its counter alive or was the first of its window. */
  lemma {:induction false} CountsAreRanksExactlyWhen(actions: seq<Action>)
    ensures RanksExact(Run(actions)) <==> UnbrokenRun(actions)
  {
    if actions != [] {
      var init, a := actions[..|actions| - 1], actions[|actions| - 1];
      var s := Run(init);
      CountsAreRanksExactlyWhen(init);
      UnbrokenPrefix(actions);
      StepRanks(s, a);
      RanksOfPrefix(s, a);
      if UnbrokenRun(init) {
        UnbrokenCounters(init);
        if a.Increment? && a.id in s.calls && s.calls[a.id].Ready? { LastRank(s, a); }
      }
    }
  }

  lemma RanksOfPrefix(s: State, a: Action)
    ensures var s' := Step(s, a);
            RanksExact(s') <==>
            RanksExact(s) && (|s'.log| > |s.log| ==>
              var r := s'.log[|s.log|]; r.applied ==> r.count == Hits(s'.log, |s.log| + 1, r.key, r.window))
  {
    StepRanks(s, a);
    var s' := Step(s, a);
    if RanksExact(s') {
      forall i | 0 <= i < |s.log| && s.log[i].applied
        ensures s.log[i].count == Hits(s.log, i + 1, s.log[i].key, s.log[i].window)
      {
        assert s'.log[i].applied;
      }
    }
  }

  /** In such runs each counter lets exactly its first `limit` executed INCRs through: the
      verdict of an answered call depends only on its rank in the window. */
  lemma FirstCallsOfEachWindow(actions: seq<Action>, i: nat)
    requires UnbrokenRun(actions) && i < |Run(actions).log|
    ensures var log := Run(actions).log;
            var r := log[i];
            && (r.applied ==> r.count == Hits(log, i + 1, r.key, r.window))
            && (r.verdict.Allowed? || r.verdict.Rejected? ==>
                  r.applied && (r.verdict.Allowed? <==> Hits(log, i + 1, r.key, r.window) <= r.limit))
  {
    CountsAreRanksExactlyWhen(actions);
    RunNeverAhead(actions);
    assert VerdictOk(Run(actions).log[i]);
  }

  /** INCRs that land in the window their caller read are always of this kind: the time to
      live set at the first one cannot end inside the window. */
  lemma PunctualRunsAreUnbroken(actions: seq<Action>)
    requires PunctualRun(actions)
    ensures UnbrokenRun(actions)
  {
    forall i | 0 <= i < |actions| ensures NoRestart(Run(actions[..i]), actions[i]) {
      var s, a := Run(actions[..i]), actions[i];
      PunctualUpTo(actions, i);
      RateBounds.RunKeeps(actions[..i]);
      if Executes(s, a) {
        assert Punctual(s, a);
        CounterIsAlive(s, s.calls[a.id].key, s.calls[a.id].window);
      }
    }
  }

  lemma PunctualUpTo(actions: seq<Action>, n: nat)
    requires PunctualRun(actions) && n <= |actions|
    ensures PunctualRun(actions[..n])
  {
    forall i | 0 <= i < n ensures Punctual(Run(actions[..n][..i]), actions[..n][i]) {
      assert actions[..n][..i] == actions[..i];
    }
  }
}
