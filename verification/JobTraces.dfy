/**
  Everything the refresh job does, from its first call to its last, for every schedule and
  every failure. It is the loop over the tenant schemas: each of them is either skipped
  because its lock is taken, or locked, refreshed view by view, committed and unlocked.
 */
module JobTraces {
  import opened Common
  import opened SharedPool
  import opened PoolSafety
  import opened PoolCalls
  import opened CallTraces

  // ---------------------------------------------------------------------- one schema

  function TryCall(hash: string -> int, schema: string): Call {
    Statement(TryAdvisoryLock(hash("mv_refresh_" + schema)))
  }

  function UnlockCall(hash: string -> int, schema: string): Call {
    Statement(AdvisoryUnlock(hash("mv_refresh_" + schema)))
  }

  function PathCall(schema: string): Call {
    Statement(SetLocalPath(TenantFirst(schema)))
  }

  predicate Registered(view: string) { view == "mv_sales_daily" }

  predicate AllRegistered(views: seq<string>) {
    forall i :: 0 <= i < |views| ==> Registered(views[i])
  }

  /** The views are refreshed in order, each of them in its schema. */
  function ViewItems(sid: nat, schema: string, views: seq<string>): seq<Item> {
    if views == [] then []
    else ViewItems(sid, schema, Front(views)) +
         [Made(Statement(Refresh(schema, Last(views))), Fine,
               [Refreshed(sid, schema, Last(views), TenantFirst(schema))])]
  }

  /** The lock is granted, the path is set and these views are refreshed. */
  function LockedItems(hash: string -> int, sid: nat, schema: string, views: seq<string>): seq<Item> {
    [Made(TryCall(hash, schema), Granted, []), Made(PathCall(schema), Fine, [])] + ViewItems(sid, schema, views)
  }

  /** The work is committed, the lock is given back, and that is committed too. */
  function RefreshedItems(hash: string -> int, sid: nat, schema: string, views: seq<string>): seq<Item> {
    LockedItems(hash, sid, schema, views) +
    [Made(CommitCall, Fine, []), Made(UnlockCall(hash, schema), Fine, []), Made(CommitCall, Fine, [])]
  }

  function SkippedItems(hash: string -> int, schema: string): seq<Item> {
    [Made(TryCall(hash, schema), Refused, [])]
  }

  /** The schemas in order: refreshed where `got` says so, skipped elsewhere. */
  function SchemaItems(hash: string -> int, sid: nat, views: seq<string>,
                       schemas: seq<string>, got: seq<bool>): seq<Item>
    requires |schemas| == |got|
  {
    if schemas == [] then []
    else
      SchemaItems(hash, sid, views, Front(schemas), Front(got)) +
      if Last(got) then RefreshedItems(hash, sid, Last(schemas), views) else SkippedItems(hash, Last(schemas))
  }

  // --------------------------------------------------------------- a schema that fails

  /** View `n` is not registered. */
  predicate BadView(hash: string -> int, sid: nat, schema: string, views: seq<string>, n: nat, t: seq<Item>)
    requires n < |views|
  {
    !Registered(views[n]) && AllRegistered(views[..n]) && t == LockedItems(hash, sid, schema, views[..n])
  }

  /** The REFRESH of view `n` fails. */
  predicate BadRefresh(hash: string -> int, sid: nat, schema: string, views: seq<string>, n: nat, t: seq<Item>)
    requires n < |views|
  {
    && t != [] && AllRegistered(views[..n + 1]) && Front(t) == LockedItems(hash, sid, schema, views[..n])
    && Raises(Last(t), Statement(Refresh(schema, views[n])))
  }

  /** The part of the schema's work that is inside the `try`, up to its end or to its
      exception. */
  predicate Tried(hash: string -> int, sid: nat, schema: string, views: seq<string>,
                  t: seq<Item>, errors: seq<Cause>) {
    t != [] &&
    var (init, last) := (Front(t), Last(t));
    || (errors == [] && t == LockedItems(hash, sid, schema, views) + [Made(CommitCall, Fine, [])]
        && AllRegistered(views))
    || (errors == [PathError] && init == [Made(TryCall(hash, schema), Granted, [])] && Raises(last, PathCall(schema)))
    || (errors == [ViewError] && exists n :: 0 <= n < |views| && BadView(hash, sid, schema, views, n, t))
    || (errors == [RefreshError] && exists n :: 0 <= n < |views| && BadRefresh(hash, sid, schema, views, n, t))
    || (errors == [CommitError] && AllRegistered(views) && init == LockedItems(hash, sid, schema, views)
        && Raises(last, CommitCall))
  }

  /** The unlock after it, which is tried whatever happened. */
  predicate Unlocked(hash: string -> int, sid: nat, schema: string, views: seq<string>,
                     t: seq<Item>, errors: seq<Cause>) {
    t != [] &&
    var (init, last) := (Front(t), Last(t));
    || (Raises(last, UnlockCall(hash, schema))
        && var e := Before(errors, last, UnlockError); e.Some? && Tried(hash, sid, schema, views, init, e.value))
    || (last.Made? && last.call == CommitCall && init != [] && Last(init) == Made(UnlockCall(hash, schema), Fine, [])
        && var e := Before(errors, last, UnlockError);
           e.Some? && Tried(hash, sid, schema, views, Front(init), e.value))
  }

  /** The schema at which the job stops. */
  predicate Stops(hash: string -> int, sid: nat, schema: string, views: seq<string>,
                  t: seq<Item>, errors: seq<Cause>) {
    || (!SafeIdentifier(schema) && t == [] && errors == [NameError])
    || (SafeIdentifier(schema) && |t| == 1 && Raises(t[0], TryCall(hash, schema)) && errors == [LockError])
    || (SafeIdentifier(schema) && errors != [] && Unlocked(hash, sid, schema, views, t, errors))
  }

  // ------------------------------------------------------------------------ whole jobs

  /** How far a job has got: the items before the loop, the schemas to work on, for each
      finished schema whether it was refreshed, and the items for the next one. */
  datatype Walk = Walk(first: seq<Item>, schemas: seq<string>, got: seq<bool>, rest: seq<Item>)

  function WalkItems(hash: string -> int, sid: nat, views: seq<string>, k: Walk): seq<Item>
    requires |k.got| <= |k.schemas|
  {
    k.first + SchemaItems(hash, sid, views, k.schemas[..|k.got|], k.got) + k.rest
  }

  predicate Targeted(prog: Program) {
    prog.RefreshJob? && prog.target.Some? && prog.target.value != ""
  }

  /** A target schema in the payload is the only one; otherwise a query finds them. */
  predicate Found(prog: Program, first: seq<Item>, schemas: seq<string>) {
    if Targeted(prog) then first == [] && schemas == [prog.target.value]
    else first == [Made(Statement(Select), Rows(schemas), [])]
  }

  /** The walk is one of this job: the finished schemas have valid names, and the
      refreshed ones show that all views are registered. */
  predicate IsWalk(hash: string -> int, sid: nat, prog: Program, t: seq<Item>, k: Walk) {
    && prog.RefreshJob? && |k.got| <= |k.schemas| && Found(prog, k.first, k.schemas)
    && t == WalkItems(hash, sid, prog.views, k)
    && (forall i :: 0 <= i < |k.got| ==> SafeIdentifier(k.schemas[i]))
    && (true in k.got ==> AllRegistered(prog.views))
  }

  /** Everything up to the close. */
  ghost predicate LoopOver(hash: string -> int, sid: nat, prog: Program, t: seq<Item>, errors: seq<Cause>, k: Walk) {
    || (!Targeted(prog) && |t| == 1 && Raises(t[0], Statement(Select)) && errors == [DiscoverError])
    || (IsWalk(hash, sid, prog, t, k) && |k.got| == |k.schemas| && k.rest == [] && errors == [])
    || (IsWalk(hash, sid, prog, t, k) && |k.got| < |k.schemas|
        && Stops(hash, sid, k.schemas[|k.got|], prog.views, k.rest, errors))
  }

  ghost predicate WholeJob(hash: string -> int, sid: nat, prog: Program, t: seq<Item>, errors: seq<Cause>, k: Walk) {
    && t != [] && Last(t).Made? && Last(t).call == CloseCall
    && var e := Before(errors, Last(t), CloseError);
       e.Some? && LoopOver(hash, sid, prog, Front(t), e.value, k)
  }

  // ---------------------------------------------------------------- every step of a job

  /** The items for the present schema when the job stands at `pc`. */
  predicate RestFits(hash: string -> int, sid: nat, schema: string, views: seq<string>,
                     pc: Pc, view: nat, rest: seq<Item>, errors: seq<Cause>) {
    match pc
    case TryLock => rest == [] && errors == []
    case LockedSetPath => rest == [Made(TryCall(hash, schema), Granted, [])] && errors == []
    case Refreshing =>
      && view <= |views| && AllRegistered(views[..view]) && rest == LockedItems(hash, sid, schema, views[..view])
      && errors == []
    case RefreshCommit => AllRegistered(views) && rest == LockedItems(hash, sid, schema, views) && errors == []
    case UnlockExec => Tried(hash, sid, schema, views, rest, errors)
    case UnlockCommit =>
      && rest != [] && Last(rest) == Made(UnlockCall(hash, schema), Fine, [])
      && Tried(hash, sid, schema, views, Front(rest), errors)
    case _ => false
  }

  predicate SchemaPc(pc: Pc) {
    pc.TryLock? || pc.LockedSetPath? || pc.Refreshing? || pc.RefreshCommit? || pc.UnlockExec? || pc.UnlockCommit?
  }

  /** The trace of a job with these program variables. */
  ghost predicate JobFits(hash: string -> int, sid: nat, s: Session, t: seq<Item>, k: Walk) {
    && s.prog.RefreshJob?
    && match s.pc
       case Discover => !Targeted(s.prog) && t == [] && s.errors == [] && s.original.None? && s.view == 0
       case NextSchema =>
         && IsWalk(hash, sid, s.prog, t, k) && s.todo == k.schemas[|k.got|..] && k.rest == [] && s.errors == []
         && s.original.None? && s.view == 0
       case Closing => LoopOver(hash, sid, s.prog, t, s.errors, k)
       case Finished => WholeJob(hash, sid, s.prog, t, s.errors, k)
       case _ =>
         && SchemaPc(s.pc) && IsWalk(hash, sid, s.prog, t, k) && |k.got| < |k.schemas|
         && s.todo == k.schemas[|k.got|..] && SafeIdentifier(s.todo[0])
         && RestFits(hash, sid, s.todo[0], s.prog.views, s.pc, s.view, k.rest, s.errors)
         && (s.pc.TryLock? || s.pc.LockedSetPath? ==> s.view == 0)
         && (s.original.Some? <==> s.errors != [])
  }

  lemma RestGrows(hash: string -> int, sid: nat, prog: Program, t: seq<Item>, k: Walk, more: seq<Item>)
    requires IsWalk(hash, sid, prog, t, k)
    ensures IsWalk(hash, sid, prog, t + more, k.(rest := k.rest + more))
  {
    hide SafeIdentifier, SchemaItems, AllRegistered;
  }

  /** A finished schema is one more of the walk. */
  lemma SchemaDone(hash: string -> int, sid: nat, prog: Program, t: seq<Item>, k: Walk, refreshed: bool)
    requires IsWalk(hash, sid, prog, t, k) && |k.got| < |k.schemas|
    requires SafeIdentifier(k.schemas[|k.got|]) && (refreshed ==> AllRegistered(prog.views))
    requires k.rest == if refreshed then RefreshedItems(hash, sid, k.schemas[|k.got|], prog.views)
                       else SkippedItems(hash, k.schemas[|k.got|])
    ensures IsWalk(hash, sid, prog, t, k.(got := k.got + [refreshed], rest := []))
  {
    hide SafeIdentifier, AllRegistered, RefreshedItems, SkippedItems;
    var n := |k.got|;
    assert Front(k.schemas[..n + 1]) == k.schemas[..n] && Last(k.schemas[..n + 1]) == k.schemas[n];
    Appended(k.got, refreshed);
    assert SchemaItems(hash, sid, prog.views, k.schemas[..n + 1], k.got + [refreshed]) ==
           SchemaItems(hash, sid, prog.views, k.schemas[..n], k.got) + k.rest;
  }

  /** Where a job stands in its walk at the schema `todo[0]`. */
  ghost predicate AtSchema(hash: string -> int, w: World, sid: nat, t: seq<Item>, k: Walk) {
    && sid in w.sessions && JobFits(hash, sid, w.sessions[sid], t, k) && SchemaPc(w.sessions[sid].pc)
  }

  lemma TryLockFits(hash: string -> int, w: World, sid: nat, ch: Choice, t: seq<Item>, k: Walk) returns (k2: Walk)
    requires AtSchema(hash, w, sid, t, k) && w.sessions[sid].pc.TryLock?
    ensures var w' := Step(hash, w, Advance(sid, ch));
            sid in w'.sessions && JobFits(hash, sid, w'.sessions[sid], t + NewItems(hash, w, sid, ch), k2)
  {
    hide Execute, SafeIdentifier, IsWalk, LockGranted, Refreshes;
    var s := w.sessions[sid];
    OtherCallsSeeNothing(hash, w, sid, ch);
    var more := NewItems(hash, w, sid, ch);
    RestGrows(hash, sid, s.prog, t, k, more);
    k2 := k.(rest := k.rest + more);
    assert k2.rest == more == [more[0]];
    assert s.errors + [LockError] == [LockError];
    if more[0].answer.Refused? {
      SchemaDone(hash, sid, s.prog, t + more, k2, false);
      k2 := k2.(got := k.got + [false], rest := []);
    }
  }

  lemma LockedSetPathFits(hash: string -> int, w: World, sid: nat, ch: Choice, t: seq<Item>, k: Walk)
    returns (k2: Walk)
    requires AtSchema(hash, w, sid, t, k) && w.sessions[sid].pc.LockedSetPath?
    ensures var w' := Step(hash, w, Advance(sid, ch));
            sid in w'.sessions && JobFits(hash, sid, w'.sessions[sid], t + NewItems(hash, w, sid, ch), k2)
  {
    hide Execute, SafeIdentifier, IsWalk, LockGranted, Refreshes;
    var s := w.sessions[sid];
    OtherCallsSeeNothing(hash, w, sid, ch);
    var more := NewItems(hash, w, sid, ch);
    RestGrows(hash, sid, s.prog, t, k, more);
    k2 := k.(rest := k.rest + more);
    Appended(k.rest, more[0]);
    assert s.errors + [PathError] == [PathError];
    assert s.prog.views[..0] == [];
    assert LockedItems(hash, sid, s.todo[0], []) ==
           [Made(TryCall(hash, s.todo[0]), Granted, []), Made(PathCall(s.todo[0]), Fine, [])];
  }

  lemma ViewsOver(hash: string -> int, w: World, sid: nat, ch: Choice, t: seq<Item>, k: Walk) returns (k2: Walk)
    requires AtSchema(hash, w, sid, t, k) && w.sessions[sid].pc.Refreshing?
    requires w.sessions[sid].view == |w.sessions[sid].prog.views|
    ensures var w' := Step(hash, w, Advance(sid, ch));
            sid in w'.sessions && JobFits(hash, sid, w'.sessions[sid], t + NewItems(hash, w, sid, ch), k2)
  {
    hide Execute, SafeIdentifier, IsWalk, Refreshes, LockedItems;
    var s := w.sessions[sid];
    k2 := k;
    assert t + NewItems(hash, w, sid, ch) == t;
    assert s.prog.views[..s.view] == s.prog.views;
  }

  lemma ViewRefused(hash: string -> int, w: World, sid: nat, ch: Choice, t: seq<Item>, k: Walk) returns (k2: Walk)
    requires AtSchema(hash, w, sid, t, k) && w.sessions[sid].pc.Refreshing?
    requires var s := w.sessions[sid]; s.view < |s.prog.views| && !Registered(s.prog.views[s.view])
    ensures var w' := Step(hash, w, Advance(sid, ch));
            sid in w'.sessions && JobFits(hash, sid, w'.sessions[sid], t + NewItems(hash, w, sid, ch), k2)
  {
    hide Execute, SafeIdentifier, IsWalk, Refreshes, AllRegistered;
    var s := w.sessions[sid];
    k2 := k;
    assert t + NewItems(hash, w, sid, ch) == t;
    assert s.errors + [ViewError] == [ViewError];
    assert BadView(hash, sid, s.todo[0], s.prog.views, s.view, k.rest);
  }

  lemma OneMoreView(hash: string -> int, sid: nat, schema: string, views: seq<string>, n: nat, i: Item)
    requires n < |views| && AllRegistered(views[..n]) && Registered(views[n])
    requires i == Made(Statement(Refresh(schema, views[n])), Fine,
                       [Refreshed(sid, schema, views[n], TenantFirst(schema))])
    ensures AllRegistered(views[..n + 1])
    ensures LockedItems(hash, sid, schema, views[..n + 1]) == LockedItems(hash, sid, schema, views[..n]) + [i]
  {
    assert Front(views[..n + 1]) == views[..n] && Last(views[..n + 1]) == views[n];
  }

  lemma ViewRefreshed(hash: string -> int, w: World, sid: nat, ch: Choice, t: seq<Item>, k: Walk) returns (k2: Walk)
    requires AtSchema(hash, w, sid, t, k) && w.sessions[sid].pc.Refreshing?
    requires Inv(hash, w)
    requires var s := w.sessions[sid]; s.view < |s.prog.views| && Registered(s.prog.views[s.view])
    ensures var w' := Step(hash, w, Advance(sid, ch));
            sid in w'.sessions && JobFits(hash, sid, w'.sessions[sid], t + NewItems(hash, w, sid, ch), k2)
  {
    hide Execute, SafeIdentifier, IsWalk, Refreshes, LockedItems, BaseOk, AllRegistered, ViewItems;
    var s := w.sessions[sid];
    var (schema, views) := (s.todo[0], s.prog.views);
    assert PcOk(hash, w, sid);
    var more := NewItems(hash, w, sid, ch);
    RestGrows(hash, sid, s.prog, t, k, more);
    k2 := k.(rest := k.rest + more);
    Appended(k.rest, more[0]);
    if more[0].answer.Raised? {
      assert s.errors + [RefreshError] == [RefreshError];
      AllUpTo(views, s.view);
      assert BadRefresh(hash, sid, schema, views, s.view, k2.rest);
    } else {
      RefreshSees(hash, w, sid, ch, schema, views[s.view]);
      OneMoreView(hash, sid, schema, views, s.view, more[0]);
    }
  }

  lemma AllUpTo(views: seq<string>, n: nat)
    requires n < |views| && AllRegistered(views[..n]) && Registered(views[n])
    ensures AllRegistered(views[..n + 1])
  {}

  lemma RefreshingFits(hash: string -> int, w: World, sid: nat, ch: Choice, t: seq<Item>, k: Walk) returns (k2: Walk)
    requires sid in w.sessions && JobFits(hash, sid, w.sessions[sid], t, k) && w.sessions[sid].pc.Refreshing?
    requires Inv(hash, w)
    ensures var w' := Step(hash, w, Advance(sid, ch));
            sid in w'.sessions && JobFits(hash, sid, w'.sessions[sid], t + NewItems(hash, w, sid, ch), k2)
  {
    hide Step, NewItems, IsWalk, Inv, LockedItems, AllRegistered;
    var s := w.sessions[sid];
    if s.view == |s.prog.views| {
      k2 := ViewsOver(hash, w, sid, ch, t, k);
    } else if Registered(s.prog.views[s.view]) {
      k2 := ViewRefreshed(hash, w, sid, ch, t, k);
    } else {
      k2 := ViewRefused(hash, w, sid, ch, t, k);
    }
  }

  lemma RefreshCommitFits(hash: string -> int, w: World, sid: nat, ch: Choice, t: seq<Item>, k: Walk) returns (k2: Walk)
    requires AtSchema(hash, w, sid, t, k) && w.sessions[sid].pc.RefreshCommit?
    ensures var w' := Step(hash, w, Advance(sid, ch));
            sid in w'.sessions && JobFits(hash, sid, w'.sessions[sid], t + NewItems(hash, w, sid, ch), k2)
  {
    hide Commit, SafeIdentifier, IsWalk, Refreshes, LockedItems, AllRegistered;
    var s := w.sessions[sid];
    OtherCallsSeeNothing(hash, w, sid, ch);
    var more := NewItems(hash, w, sid, ch);
    RestGrows(hash, sid, s.prog, t, k, more);
    k2 := k.(rest := k.rest + more);
    Appended(k.rest, more[0]);
    assert s.errors + [CommitError] == [CommitError];
  }

  lemma UnlockExecFits(hash: string -> int, w: World, sid: nat, ch: Choice, t: seq<Item>, k: Walk) returns (k2: Walk)
    requires AtSchema(hash, w, sid, t, k) && w.sessions[sid].pc.UnlockExec?
    ensures var w' := Step(hash, w, Advance(sid, ch));
            sid in w'.sessions && JobFits(hash, sid, w'.sessions[sid], t + NewItems(hash, w, sid, ch), k2)
  {
    hide Execute, SafeIdentifier, IsWalk, Refreshes, Tried;
    var s := w.sessions[sid];
    OtherCallsSeeNothing(hash, w, sid, ch);
    var more := NewItems(hash, w, sid, ch);
    RestGrows(hash, sid, s.prog, t, k, more);
    k2 := k.(rest := k.rest + more);
    Appended(k.rest, more[0]);
    Appended(s.errors, UnlockError);
  }

  /** After the last commit nothing of the schema's work is missing. */
  lemma NothingMissing(hash: string -> int, sid: nat, schema: string, views: seq<string>, rest: seq<Item>)
    requires RestFits(hash, sid, schema, views, UnlockCommit, 0, rest, [])
    ensures AllRegistered(views)
    ensures rest + [Made(CommitCall, Fine, [])] == RefreshedItems(hash, sid, schema, views)
  {
    hide LockedItems, AllRegistered;
    assert rest == Front(rest) + [Last(rest)];
  }

  /** The commit of the unlock is the last call for the schema. */
  lemma SchemaEnds(hash: string -> int, sid: nat, s: Session, t: seq<Item>, k: Walk, i: Item) returns (k2: Walk)
    requires JobFits(hash, sid, s, t, k) && s.pc.UnlockCommit? && i == Made(CommitCall, Fine, [])
    requires s.errors == []
    ensures JobFits(hash, sid, s.(pc := NextSchema, todo := s.todo[1..], view := 0), t + [i], k2)
  {
    hide SafeIdentifier, IsWalk, Refreshes, Tried, LockedItems, RefreshedItems, AllRegistered;
    NothingMissing(hash, sid, s.todo[0], s.prog.views, k.rest);
    RestGrows(hash, sid, s.prog, t, k, [i]);
    k2 := k.(rest := k.rest + [i]);
    SchemaDone(hash, sid, s.prog, t + [i], k2, true);
    k2 := k2.(got := k.got + [true], rest := []);
  }

  lemma UnlockCommitFits(hash: string -> int, w: World, sid: nat, ch: Choice, t: seq<Item>, k: Walk) returns (k2: Walk)
    requires AtSchema(hash, w, sid, t, k) && w.sessions[sid].pc.UnlockCommit?
    ensures var w' := Step(hash, w, Advance(sid, ch));
            sid in w'.sessions && JobFits(hash, sid, w'.sessions[sid], t + NewItems(hash, w, sid, ch), k2)
  {
    hide Commit, SafeIdentifier, IsWalk, Refreshes, Tried, LockedItems, RefreshedItems, AllRegistered;
    var s := w.sessions[sid];
    OtherCallsSeeNothing(hash, w, sid, ch);
    var more := NewItems(hash, w, sid, ch);
    if !more[0].answer.Raised? && s.errors == [] {
      k2 := SchemaEnds(hash, sid, s, t, k, more[0]);
    } else {
      RestGrows(hash, sid, s.prog, t, k, more);
      k2 := k.(rest := k.rest + more);
      Appended(k.rest, more[0]);
      Appended(s.errors, UnlockError);
    }
  }

  lemma DiscoverFits(hash: string -> int, w: World, sid: nat, ch: Choice, t: seq<Item>, k: Walk) returns (k2: Walk)
    requires sid in w.sessions && JobFits(hash, sid, w.sessions[sid], t, k) && w.sessions[sid].pc.Discover?
    ensures var w' := Step(hash, w, Advance(sid, ch));
            sid in w'.sessions && JobFits(hash, sid, w'.sessions[sid], t + NewItems(hash, w, sid, ch), k2)
  {
    hide Execute, SafeIdentifier, Refreshes;
    var s := w.sessions[sid];
    OtherCallsSeeNothing(hash, w, sid, ch);
    var more := NewItems(hash, w, sid, ch);
    assert t + more == more == [more[0]];
    assert s.errors + [DiscoverError] == [DiscoverError];
    k2 := Walk(more, ch.found, [], []);
    assert ch.found[..0] == [] && more + [] + [] == more;
  }

  lemma NextSchemaFits(hash: string -> int, w: World, sid: nat, ch: Choice, t: seq<Item>, k: Walk) returns (k2: Walk)
    requires sid in w.sessions && JobFits(hash, sid, w.sessions[sid], t, k) && w.sessions[sid].pc.NextSchema?
    ensures var w' := Step(hash, w, Advance(sid, ch));
            sid in w'.sessions && JobFits(hash, sid, w'.sessions[sid], t + NewItems(hash, w, sid, ch), k2)
  {
    hide SafeIdentifier, WalkItems, AllRegistered;
    k2 := k;
    assert t + NewItems(hash, w, sid, ch) == t;
    assert w.sessions[sid].errors + [NameError] == [NameError];
  }

  lemma CloseFits(hash: string -> int, w: World, sid: nat, ch: Choice, t: seq<Item>, k: Walk) returns (k2: Walk)
    requires sid in w.sessions && JobFits(hash, sid, w.sessions[sid], t, k) && w.sessions[sid].pc.Closing?
    ensures var w' := Step(hash, w, Advance(sid, ch));
            sid in w'.sessions && JobFits(hash, sid, w'.sessions[sid], t + NewItems(hash, w, sid, ch), k2)
  {
    hide Close, SafeIdentifier, LoopOver, Refreshes;
    k2 := k;
    OtherCallsSeeNothing(hash, w, sid, ch);
    var s := w.sessions[sid];
    var more := NewItems(hash, w, sid, ch);
    Appended(t, more[0]);
    Appended(s.errors, CloseError);
    assert s.errors + [] == s.errors;
  }

  lemma SchemaFits(hash: string -> int, w: World, sid: nat, ch: Choice, t: seq<Item>, k: Walk) returns (k2: Walk)
    requires sid in w.sessions && JobFits(hash, sid, w.sessions[sid], t, k) && SchemaPc(w.sessions[sid].pc)
    requires Inv(hash, w)
    ensures var w' := Step(hash, w, Advance(sid, ch));
            sid in w'.sessions && JobFits(hash, sid, w'.sessions[sid], t + NewItems(hash, w, sid, ch), k2)
  {
    hide Step, NewItems, IsWalk, RestFits, Inv;
    var s := w.sessions[sid];
    match s.pc
    case TryLock => k2 := TryLockFits(hash, w, sid, ch, t, k);
    case LockedSetPath => k2 := LockedSetPathFits(hash, w, sid, ch, t, k);
    case Refreshing => k2 := RefreshingFits(hash, w, sid, ch, t, k);
    case RefreshCommit => k2 := RefreshCommitFits(hash, w, sid, ch, t, k);
    case UnlockExec => k2 := UnlockExecFits(hash, w, sid, ch, t, k);
    case UnlockCommit => k2 := UnlockCommitFits(hash, w, sid, ch, t, k);
  }

  lemma JobStepFits(hash: string -> int, w: World, sid: nat, ch: Choice, t: seq<Item>, k: Walk) returns (k2: Walk)
    requires sid in w.sessions && JobFits(hash, sid, w.sessions[sid], t, k)
    requires Inv(hash, w)
    ensures var w' := Step(hash, w, Advance(sid, ch));
            sid in w'.sessions && JobFits(hash, sid, w'.sessions[sid], t + NewItems(hash, w, sid, ch), k2)
  {
    hide Step, NewItems, IsWalk, RestFits, Inv, LoopOver, WholeJob;
    match w.sessions[sid].pc
    case Discover => k2 := DiscoverFits(hash, w, sid, ch, t, k);
    case NextSchema => k2 := NextSchemaFits(hash, w, sid, ch, t, k);
    case Closing => k2 := CloseFits(hash, w, sid, ch, t, k);
    case Finished =>
      JobIsOver(hash, w, sid, ch, t);
      k2 := k;
    case _ => k2 := SchemaFits(hash, w, sid, ch, t, k);
  }

  lemma JobIsOver(hash: string -> int, w: World, sid: nat, ch: Choice, t: seq<Item>)
    requires sid in w.sessions && w.sessions[sid].pc.Finished?
    ensures Step(hash, w, Advance(sid, ch)) == w && t + NewItems(hash, w, sid, ch) == t
  {}

  lemma SpawnFits(hash: string -> int, sid: nat, prog: Program) returns (k: Walk)
    requires prog.RefreshJob?
    ensures Started(prog).Some? && JobFits(hash, sid, Started(prog).value, [], k)
  {
    hide SafeIdentifier;
    k := Walk([], if Targeted(prog) then [prog.target.value] else [], [], []);
  }

  /** In every schedule, whatever the other sessions do, the calls of a job so far are a walk
      over its schemas. */
  lemma {:induction false} JobsWalk(hash: string -> int, schedule: seq<Action>, sid: nat) returns (k: Walk)
    requires sid in Run(hash, schedule).sessions && Run(hash, schedule).sessions[sid].prog.RefreshJob?
    ensures JobFits(hash, sid, Run(hash, schedule).sessions[sid], Trace(hash, schedule, sid), k)
  {
    hide Step, NewItems, JobFits, Inv;
    var init, a := schedule[..|schedule| - 1], schedule[|schedule| - 1];
    var w := Run(hash, init);
    var t := Trace(hash, init, sid);
    assert t + [] == t;
    if sid !in w.sessions {
      NoTraceYet(hash, init, sid);
      OnlySpawnCreates(hash, w, a, sid);
      StartedRuns(a.prog);
      k := SpawnFits(hash, sid, a.prog);
    } else {
      StaysThere(hash, w, a, sid);
      k := JobsWalk(hash, init, sid);
      if a.Advance? && a.sid == sid {
        RunKeeps(hash, init);
        k := JobStepFits(hash, w, sid, a.choice, t, k);
      } else {
        OtherStep(hash, w, a, sid);
      }
    }
  }

  lemma StartedRuns(prog: Program)
    ensures Started(prog).Some? ==> Started(prog).value.prog == prog
  {
    hide SafeIdentifier;
  }

  /** For every schedule, a finished job has made exactly these calls. With a target schema in
      its payload it works on that one, otherwise on those that its query found, in their
      order. For each it tries the lock of the schema, and if another worker has it goes on;
      otherwise it sets the tenant path, refreshes every requested view there, in order,
      commits, unlocks, and commits. It stops only at an exception, after the unlock if it
      has the lock, and always closes; without exceptions it has come to the end of the list. */
  lemma JobsAreWhole(hash: string -> int, schedule: seq<Action>, sid: nat) returns (k: Walk)
    requires sid in Run(hash, schedule).sessions && Run(hash, schedule).sessions[sid].pc.Finished?
    requires Run(hash, schedule).sessions[sid].prog.RefreshJob?
    ensures var s := Run(hash, schedule).sessions[sid];
            WholeJob(hash, sid, s.prog, Trace(hash, schedule, sid), s.errors, k)
  {
    hide Run, WholeJob;
    k := JobsWalk(hash, schedule, sid);
  }

  /** In particular a job without exceptions leaves no schema out. */
  lemma NoSchemaIsLeftOut(hash: string -> int, schedule: seq<Action>, sid: nat) returns (k: Walk)
    requires sid in Run(hash, schedule).sessions && Run(hash, schedule).sessions[sid].pc.Finished?
    requires Run(hash, schedule).sessions[sid].prog.RefreshJob? && Run(hash, schedule).sessions[sid].errors == []
    ensures var prog := Run(hash, schedule).sessions[sid].prog;
            && |k.got| == |k.schemas| && Found(prog, k.first, k.schemas) && Trace(hash, schedule, sid) != []
            && Front(Trace(hash, schedule, sid)) == k.first + SchemaItems(hash, sid, prog.views, k.schemas, k.got)
            && Succeeded(Last(Trace(hash, schedule, sid)), CloseCall)
  {
    hide Run, Trace, Unlocked, SafeIdentifier, AllRegistered;
    k := JobsAreWhole(hash, schedule, sid);
    var (t, init) := (Trace(hash, schedule, sid), Front(Trace(hash, schedule, sid)));
    assert k.schemas[..|k.schemas|] == k.schemas;
  }
}
