/**
  The rate limiter as an object: the Redis counters and the calls in flight are maps that
  its methods update in place.
 */
module RateLimiterService {
  import opened Common
  import opened RateLimiter

  class Limiter {
    var store: Store
    var calls: map<nat, Call>
    var clock: real
    var log: seq<Record>

    function View(): State
      reads this
    {
      State(store, calls, clock, log)
    }

    constructor ()
      ensures View() == START
    {
      store, calls, clock, log := map[], map[], 0.0, [];
    }

    /** Reading the clock and fixing the window. */
    method BeginCall(id: nat, key: string, limit: int)
      modifies this
      ensures View() == Step(old(View()), Begin(id, key, limit))
    {
      if id !in calls && Window(clock) >= 0 {
        calls := calls[id := Ready(key, limit, Window(clock))];
      }
    }

    /** INCR and the decision, unless a first INCR still has to set the time to live. */
    method IncrementCall(id: nat, reply: Reply)
      modifies this
      ensures View() == Step(old(View()), Increment(id, reply))
    {
      if id !in calls || !calls[id].Ready? { return; }
      var c := calls[id];
      var rk := RedisKey(c.key, c.window);
      var applied := reply.Good? || reply.applied;
      var count := 0;
      if applied {
        store := Incr(store, rk, clock);
        count := store[rk].count;
      }
      var verdict := FailOpen;
      if reply.Good? {
        verdict := if count == 1 then Pending else Decide(count, c.limit);
      }
      calls := calls[id := if verdict.Pending? then Expiring(|log|) else Answered(|log|)];
      log := log + [Record(c.key, c.window, c.limit, clock, applied, count, verdict)];
    }

    /** EXPIRE after the first INCR, then the decision. */
    method ExpireCall(id: nat, reply: Reply)
      modifies this
      ensures View() == Step(old(View()), Expire(id, reply))
    {
      if id !in calls || !calls[id].Expiring? || calls[id].slot >= |log| { return; }
      var slot := calls[id].slot;
      var r := log[slot];
      if reply.Good? || reply.applied {
        store := SetExpiry(store, RedisKey(r.key, r.window), clock);
      }
      calls := calls[id := Answered(slot)];
      log := log[slot := r.(verdict := if reply.Bad? then FailOpen else Decide(r.count, r.limit))];
    }

    /** `check_rate_limit` from start to end with nobody interleaved. The answer is what the
        protocol steps say, with count 0 after a failure; a count above the limit is the 429
        response. */
    method CheckRateLimit(id: nat, key: string, limit: int, onIncr: Reply, onExpire: Reply)
      returns (verdict: Verdict, count: nat)
      requires id !in calls && Window(clock) >= 0
      modifies this
      ensures View() ==
              Step(Step(Step(old(View()), Begin(id, key, limit)), Increment(id, onIncr)), Expire(id, onExpire))
      ensures |log| == |old(log)| + 1 && log[|old(log)|].verdict == verdict && !verdict.Pending?
      ensures verdict.Rejected? ==> count == log[|old(log)|].count > limit
      ensures verdict.Allowed? ==> count == log[|old(log)|].count <= limit
      ensures verdict.FailOpen? ==> count == 0
      ensures verdict.FailOpen? <==> onIncr.Bad? || (log[|old(log)|].count == 1 && onExpire.Bad?)
    {
      BeginCall(id, key, limit);
      IncrementCall(id, onIncr);
      ExpireCall(id, onExpire);
      var last := log[|log| - 1];
      verdict := last.verdict;
      count := if verdict.FailOpen? then 0 else last.count;
    }
  }
}
