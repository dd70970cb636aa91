/**
  The calls that one session makes over a whole schedule, from its own point of view. What
  the other sessions do in between shows only in the answers.
 */
module CallTraces {
  import opened Common
  import opened SharedPool
  import opened PoolSafety
  import opened PoolCalls
  import ErrorPropagation

  /** How a call ended for the caller; `base` says that the exception is outside `Exception`. */
  datatype Answer = Raised(base: bool) | Fine | Granted | Refused | Rows(found: seq<string>)

  /** A call with its answer and the views it refreshed, or an exception of the body itself. */
  datatype Item = Made(call: Call, answer: Answer, seen: seq<Event>) | Threw(base: bool)

  predicate Succeeded(i: Item, call: Call) {
    i.Made? && i.call == call && !i.answer.Raised?
  }

  predicate Raises(i: Item, call: Call) {
    i.Made? && i.call == call && i.answer.Raised?
  }

  function AnswerOf(w: World, sid: nat, ch: Choice, call: Call): Answer
    requires sid in w.sessions
  {
    var ok := match call
              case Nothing => true
              case Statement(stmt) => Execute(w, sid, ch.pick, stmt, ch.reply).1
              case CommitCall => Commit(w, sid, ch.reply).1
              case RollbackCall => Rollback(w, sid, ch.reply).1
              case CloseCall => !(HasConn(w, sid) && ch.reply.Error?);
    if !ok then Raised(ch.base)
    else if call.Statement? && call.stmt.TryAdvisoryLock? then
      if LockGranted(w, sid, ch.pick, call.stmt.key) then Granted else Refused
    else if call == Statement(Select) then Rows(ch.found)
    else Fine
  }

  /** The events of `w'` that `w` did not have. */
  function Added(w: World, w': World): seq<Event> {
    if |w.log| <= |w'.log| then w'.log[|w.log|..] else []
  }

  /** The refreshed views among the events. */
  function Refreshes(events: seq<Event>): seq<Event> {
    if events == [] then []
    else (if events[0].Refreshed? then [events[0]] else []) + Refreshes(events[1..])
  }

  /** What one step of the session adds to its trace. */
  function NewItems(hash: string -> int, w: World, sid: nat, ch: Choice): seq<Item>
    requires sid in w.sessions
  {
    var s := w.sessions[sid];
    var call := CallOf(hash, s, ch);
    if !s.prog.RefreshJob? && s.pc.Body? && ch.op.Raise? then [Threw(ch.base)]
    else if call.Nothing? then []
    else [Made(call, AnswerOf(w, sid, ch, call), Refreshes(Added(w, Step(hash, w, Advance(sid, ch)))))]
  }

  function Trace(hash: string -> int, schedule: seq<Action>, sid: nat): seq<Item> {
    if schedule == [] then []
    else
      var init, a := schedule[..|schedule| - 1], schedule[|schedule| - 1];
      var w := Run(hash, init);
      Trace(hash, init, sid) +
      if a.Advance? && a.sid == sid && sid in w.sessions then NewItems(hash, w, sid, a.choice) else []
  }

  // ------------------------------------------------------------ other sessions' steps

  /** A step of somebody else. */
  lemma OtherStep(hash: string -> int, w: World, a: Action, sid: nat)
    requires sid in w.sessions && !(a.Advance? && a.sid == sid)
    ensures sid in Step(hash, w, a).sessions && Step(hash, w, a).sessions[sid] == w.sessions[sid]
  {
    hide GeneratorStep, RefreshStep;
    if a.Advance? && a.sid in w.sessions {
      if w.sessions[a.sid].prog.RefreshJob? {
        ErrorPropagation.RefreshAlone(hash, w, a.sid, a.choice, sid);
      } else {
        ErrorPropagation.GeneratorAlone(w, a.sid, a.choice, sid);
      }
    }
  }

  lemma OnlySpawnCreates(hash: string -> int, w: World, a: Action, sid: nat)
    requires sid !in w.sessions && sid in Step(hash, w, a).sessions
    ensures a.Spawn? && a.sid == sid && Started(a.prog) == Some(Step(hash, w, a).sessions[sid])
  {
    hide GeneratorStep, RefreshStep;
    if a.Advance? && a.sid in w.sessions {
      if w.sessions[a.sid].prog.RefreshJob? {
        ErrorPropagation.RefreshAlone(hash, w, a.sid, a.choice, sid);
      } else {
        ErrorPropagation.GeneratorAlone(w, a.sid, a.choice, sid);
      }
    }
  }

  /** Before it is spawned a session makes no call. */
  lemma {:induction false} NoTraceYet(hash: string -> int, schedule: seq<Action>, sid: nat)
    requires sid !in Run(hash, schedule).sessions
    ensures Trace(hash, schedule, sid) == []
  {
    if schedule != [] {
      var init, a := schedule[..|schedule| - 1], schedule[|schedule| - 1];
      if sid in Run(hash, init).sessions {
        StaysThere(hash, Run(hash, init), a, sid);
      }
      NoTraceYet(hash, init, sid);
    }
  }

  lemma StaysThere(hash: string -> int, w: World, a: Action, sid: nat)
    requires sid in w.sessions
    ensures sid in Step(hash, w, a).sessions && Step(hash, w, a).sessions[sid].prog == w.sessions[sid].prog
  {
    if a.Advance? && a.sid == sid {
      if w.sessions[sid].prog.RefreshJob? {
        JobStays(hash, w, sid, a.choice);
      } else {
        GeneratorStays(w, sid, a.choice);
      }
    } else {
      OtherStep(hash, w, a, sid);
    }
  }

  lemma GeneratorStays(w: World, sid: nat, ch: Choice)
    requires sid in w.sessions
    ensures var w' := GeneratorStep(w, sid, ch); sid in w'.sessions && w'.sessions[sid].prog == w.sessions[sid].prog
  {
    hide Execute, Commit, Rollback, Close, OpeningStmt, RescopeStmt;
  }

  lemma JobStays(hash: string -> int, w: World, sid: nat, ch: Choice)
    requires sid in w.sessions && w.sessions[sid].prog.RefreshJob?
    ensures var w' := RefreshStep(hash, w, sid, ch); sid in w'.sessions && w'.sessions[sid].prog == w.sessions[sid].prog
  {
    hide Execute, Commit, Rollback, Close, SafeIdentifier;
  }

  // --------------------------------------------------------------- what a call refreshes

  lemma {:induction false} NothingRefreshed(events: seq<Event>)
    requires forall i :: 0 <= i < |events| ==> !events[i].Refreshed?
    ensures Refreshes(events) == []
  {
    if events != [] { NothingRefreshed(events[1..]); }
  }

  /** Only a REFRESH refreshes. */
  lemma OtherCallsSeeNothing(hash: string -> int, w: World, sid: nat, ch: Choice)
    requires sid in w.sessions
    requires var call := CallOf(hash, w.sessions[sid], ch); !(call.Statement? && call.stmt.Refresh?)
    ensures Refreshes(Added(w, Step(hash, w, Advance(sid, ch)))) == []
  {
    hide After, CallOf, Step;
    var call := CallOf(hash, w.sessions[sid], ch);
    var w' := Step(hash, w, Advance(sid, ch));
    StepMakesOneCall(hash, w, sid, ch);
    CallLogs(w, sid, ch, call);
    NothingRefreshed(Added(w, w'));
  }

  /** A REFRESH on the tenant path that returns normally refreshes its view there. */
  lemma RefreshSees(hash: string -> int, w: World, sid: nat, ch: Choice, schema: string, view: string)
    requires Inv(hash, w) && sid in w.sessions && OnTenantPath(w, sid) && Home(w.sessions[sid]) == Some(schema)
    requires CallOf(hash, w.sessions[sid], ch) == Statement(Refresh(schema, view))
    requires Execute(w, sid, ch.pick, Refresh(schema, view), ch.reply).1
    ensures Refreshes(Added(w, Step(hash, w, Advance(sid, ch)))) ==
            [Refreshed(sid, schema, view, TenantFirst(schema))]
  {
    hide CallOf, Step, PcOk;
    StepMakesOneCall(hash, w, sid, ch);
    assert ScopeOk(w, sid);
    var w' := Execute(w, sid, ch.pick, Refresh(schema, view), ch.reply).0;
    assert Added(w, w') == [Refreshed(sid, schema, view, TenantFirst(schema))];
  }

  // ------------------------------------------------------------------------ sequences

  function Front<T>(s: seq<T>): seq<T>
    requires s != []
  {
    s[..|s| - 1]
  }

  function Last<T>(s: seq<T>): T
    requires s != []
  {
    s[|s| - 1]
  }

  lemma Appended<T>(s: seq<T>, x: T)
    ensures Front(s + [x]) == s && Last(s + [x]) == x
  {}

  /** The exceptions before the call `i`, which raises `cause` if it fails. */
  function Before(errors: seq<Cause>, i: Item, cause: Cause): Option<seq<Cause>> {
    if !i.Made? then None
    else if !i.answer.Raised? then Some(errors)
    else if errors != [] && Last(errors) == cause then Some(Front(errors))
    else None
  }
}
