/**
  What the tenant filter is for: a statement it rewrote behaves as if the database
  held nothing but the current tenant's rows.
 */
module TenantIsolation {
  import opened Common
  import opened TenantFilter

  // --------------------------------------------------------------- list filtering

  lemma KeepCons<T>(x: T, s: seq<T>, p: T -> bool)
    ensures Keep([x] + s, p) == (if p(x) then [x] else []) + Keep(s, p)
  {
    assert ([x] + s)[1..] == s;
  }

  lemma Regroup<T>(a: seq<T>, b: seq<T>, c: seq<T>)
    ensures a + (b + c) == a + b + c
  {}

  lemma {:induction false} KeepConcat<T>(a: seq<T>, b: seq<T>, p: T -> bool)
    ensures Keep(a + b, p) == Keep(a, p) + Keep(b, p)
  {
    if a == [] {
      assert a + b == b;
    } else {
      var x, rest := a[0], a[1..];
      KeepConcat(rest, b, p);
      KeepCons(x, rest + b, p);
      Regroup([x], rest, b);
      assert [x] + rest == a;
      Regroup(if p(x) then [x] else [], Keep(rest, p), Keep(b, p));
    }
  }

  lemma {:induction false} KeepSame<T>(s: seq<T>, p: T -> bool, q: T -> bool)
    requires forall x :: x in s ==> p(x) == q(x)
    ensures Keep(s, p) == Keep(s, q)
  {
    if s != [] {
      assert forall x :: x in s[1..] ==> x in s;
      KeepSame(s[1..], p, q);
    }
  }

  lemma {:induction false} KeepNone<T>(s: seq<T>, p: T -> bool)
    requires forall x :: x in s ==> !p(x)
    ensures Keep(s, p) == []
  {
    if s != [] {
      assert forall x :: x in s[1..] ==> x in s;
      KeepNone(s[1..], p);
    }
  }

  function Both<T>(p: T -> bool, q: T -> bool): T -> bool {
    x => p(x) && q(x)
  }

  lemma {:induction false} KeepTwice<T>(s: seq<T>, p: T -> bool, q: T -> bool)
    ensures Keep(Keep(s, p), q) == Keep(s, Both(p, q))
  {
    if s != [] {
      KeepTwice(s[1..], p, q);
      KeepConcat(if p(s[0]) then [s[0]] else [], Keep(s[1..], p), q);
    }
  }

  lemma {:induction false} KeepMembers<T>(s: seq<T>, p: T -> bool, x: T)
    ensures x in Keep(s, p) <==> x in s && p(x)
  {
    if s != [] {
      KeepMembers(s[1..], p, x);
      assert x in s <==> x == s[0] || x in s[1..];
    }
  }

  // ------------------------------------------------------------ one conjunct each

  /** The conjunct an owned class must get. */
  function Ownership(m: Mapper, tenant: string, uuid: nat): Conjunct
    requires Owned(m)
  {
    if m.hasTenantId then TenantIs(m, tenant) else WholesalerIs(m, uuid)
  }

  function OwnershipOf(mappers: seq<Mapper>, tenant: string, uuid: nat): seq<Conjunct> {
    if mappers == [] then []
    else
      var last := mappers[|mappers| - 1];
      OwnershipOf(mappers[..|mappers| - 1], tenant, uuid)
      + (if Owned(last) then [Ownership(last, tenant, uuid)] else [])
  }

  predicate NeedsUuid(mappers: seq<Mapper>) {
    exists m :: m in mappers && m.hasWholesalerId
  }

  lemma {:induction false} ConjunctsAreOwnership(mappers: seq<Mapper>, tenant: string, uuid: Option<nat>)
    requires NeedsUuid(mappers) ==> uuid.Some?
    ensures Conjuncts(mappers, tenant, uuid) == OwnershipOf(mappers, tenant, OrElse(uuid, 0))
  {
    if mappers != [] {
      var init, last := mappers[..|mappers| - 1], mappers[|mappers| - 1];
      assert forall m :: m in init ==> m in mappers;
      assert last in mappers;
      ConjunctsAreOwnership(init, tenant, uuid);
    }
  }

  /** Once the context check accepts a statement, the rewriting adds exactly one
      ownership conjunct for every class that carries an ownership column, in order, and
      skips none because the tenant id is not a UUID. */
  lemma EveryOwnedMapperIsFiltered(parse: string -> Option<nat>, scope: Scope, stmt: Statement)
    requires Require(parse, scope, stmt.mappers).None?
    ensures Rewritten(parse, scope, stmt).where ==
            stmt.where
            + OwnershipOf(stmt.mappers, OrElse(scope.tenantId, ""), OrElse(TenantUuid(parse, scope.tenantId), 0))
  {
    if Truthy(scope.tenantId) {
      assert forall m :: m in stmt.mappers && m.hasWholesalerId ==> Owned(m);
      ConjunctsAreOwnership(stmt.mappers, scope.tenantId.value, TenantUuid(parse, scope.tenantId));
    } else {
      NothingOwned(stmt.mappers, OrElse(scope.tenantId, ""), OrElse(TenantUuid(parse, scope.tenantId), 0));
    }
  }

  function OrElse<T>(v: Option<T>, default: T): T {
    if v.Some? then v.value else default
  }

  lemma {:induction false} NothingOwned(mappers: seq<Mapper>, tenant: string, uuid: nat)
    requires forall m :: m in mappers ==> !Owned(m)
    ensures OwnershipOf(mappers, tenant, uuid) == []
  {
    if mappers != [] {
      assert mappers[|mappers| - 1] in mappers;
      NothingOwned(mappers[..|mappers| - 1], tenant, uuid);
    }
  }

  /** Without the check the loop would drop a conjunct exactly when the tenant id is no
      UUID and some class is owned through `wholesaler_id` alone. */
  lemma {:induction false} SkippedExactlyWhen(mappers: seq<Mapper>, tenant: string, uuid: Option<nat>)
    ensures |Conjuncts(mappers, tenant, uuid)| < |OwnershipOf(mappers, tenant, 0)| <==>
            uuid.None? && exists m :: m in mappers && m.hasWholesalerId && !m.hasTenantId
    ensures |Conjuncts(mappers, tenant, uuid)| <= |OwnershipOf(mappers, tenant, 0)|
  {
    if mappers != [] {
      var init, last := mappers[..|mappers| - 1], mappers[|mappers| - 1];
      assert forall m :: m in mappers <==> m in init || m == last;
      SkippedExactlyWhen(init, tenant, uuid);
    }
  }

  // ---------------------------------------------------- filtering before the join

  predicate OwnedBinding(froms: seq<Mapper>, b: Binding, tenant: string, uuid: Option<nat>) {
    forall m :: m in froms ==> m in b && Owns(m, b[m], tenant, uuid)
  }

  function OwnBinding(froms: seq<Mapper>, tenant: string, uuid: Option<nat>): Binding -> bool {
    b => OwnedBinding(froms, b, tenant, uuid)
  }

  predicate Distinct(froms: seq<Mapper>) {
    forall i, j :: 0 <= i < j < |froms| ==> froms[i] != froms[j]
  }

  lemma {:induction false} BindingsExtend(db: Database, froms: seq<Mapper>, b: Binding, x: Binding)
    requires x in Bindings(db, froms, b)
    ensures forall m :: m in b ==> m in x && (m !in froms ==> x[m] == b[m])
    ensures forall m :: m in froms ==> m in x
    decreases |froms|, 0, 0
  {
    if froms != [] {
      BindRowsExtend(db, Table(db, froms[0]), froms, b, x);
    }
  }

  lemma {:induction false} BindRowsExtend(db: Database, rows: seq<Row>, froms: seq<Mapper>, b: Binding, x: Binding)
    requires froms != [] && x in BindRows(db, rows, froms, b)
    ensures forall m :: m in b ==> m in x && (m !in froms ==> x[m] == b[m])
    ensures forall m :: m in froms ==> m in x
    decreases |froms| - 1, 1, |rows|
  {
    var head := Bindings(db, froms[1..], b[froms[0] := rows[0]]);
    if x in head {
      BindingsExtend(db, froms[1..], b[froms[0] := rows[0]], x);
    } else {
      BindRowsExtend(db, rows[1..], froms, b, x);
    }
    assert forall m :: m in froms <==> m == froms[0] || m in froms[1..];
  }

  /** Joining everything and then keeping the tenant's bindings is joining the tenant's
      rows. */
  lemma {:induction false} Pushdown(db: Database, froms: seq<Mapper>, b: Binding, tenant: string, uuid: Option<nat>)
    requires Distinct(froms)
    ensures Keep(Bindings(db, froms, b), OwnBinding(froms, tenant, uuid)) ==
            Bindings(Restrict(db, tenant, uuid), froms, b)
    decreases |froms|, 0, 0
  {
    if froms != [] {
      PushdownRows(db, Table(db, froms[0]), froms, b, tenant, uuid);
    }
  }

  lemma {:induction false} PushdownRows(db: Database, rows: seq<Row>, froms: seq<Mapper>, b: Binding,
                                        tenant: string, uuid: Option<nat>)
    requires froms != [] && Distinct(froms)
    ensures Keep(BindRows(db, rows, froms, b), OwnBinding(froms, tenant, uuid)) ==
            BindRows(Restrict(db, tenant, uuid), Keep(rows, OwnRow(froms[0], tenant, uuid)), froms, b)
    decreases |froms| - 1, 1, |rows|
  {
    if rows != [] {
      var owned := OwnBinding(froms, tenant, uuid);
      var head := Bindings(db, froms[1..], b[froms[0] := rows[0]]);
      KeepConcat(head, BindRows(db, rows[1..], froms, b), owned);
      PushdownRows(db, rows[1..], froms, b, tenant, uuid);
      PushdownHead(db, rows[0], froms, b, tenant, uuid);
      var keptRest := Keep(rows[1..], OwnRow(froms[0], tenant, uuid));
      if Owns(froms[0], rows[0], tenant, uuid) {
        assert ([rows[0]] + keptRest)[1..] == keptRest;
      } else {
        assert [] + keptRest == keptRest;
      }
    }
  }

  lemma {:induction false} PushdownHead(db: Database, row: Row, froms: seq<Mapper>, b: Binding,
                                        tenant: string, uuid: Option<nat>)
    requires froms != [] && Distinct(froms)
    ensures Keep(Bindings(db, froms[1..], b[froms[0] := row]), OwnBinding(froms, tenant, uuid)) ==
            if Owns(froms[0], row, tenant, uuid)
            then Bindings(Restrict(db, tenant, uuid), froms[1..], b[froms[0] := row]) else []
    decreases |froms| - 1, 0, 1
  {
    var rest, b1 := froms[1..], b[froms[0] := row];
    var owned := OwnBinding(froms, tenant, uuid);
    var ownedRest := OwnBinding(rest, tenant, uuid);
    var head := Bindings(db, rest, b1);
    assert forall m :: m in froms <==> m == froms[0] || m in rest;
    forall x | x in head ensures owned(x) <==> Owns(froms[0], row, tenant, uuid) && ownedRest(x) {
      BindingsExtend(db, rest, b1, x);
      assert froms[0] in b1 && froms[0] !in rest;
    }
    if Owns(froms[0], row, tenant, uuid) {
      KeepSame(head, owned, ownedRest);
      Pushdown(db, rest, b1, tenant, uuid);
    } else {
      KeepNone(head, owned);
    }
  }

  // -------------------------------------------------------------- the main results

  lemma {:induction false} ConjunctsMeanOwnership(mappers: seq<Mapper>, b: Binding, tenant: string, uuid: Option<nat>)
    requires forall m :: m in mappers ==> m in b
    requires NeedsUuid(mappers) ==> uuid.Some?
    ensures HoldAll(Conjuncts(mappers, tenant, uuid), b) <==> OwnedBinding(mappers, b, tenant, uuid)
  {
    if mappers != [] {
      var init, last := mappers[..|mappers| - 1], mappers[|mappers| - 1];
      assert forall m :: m in mappers <==> m in init || m == last;
      assert b[last] == b[last];
      ConjunctsMeanOwnership(init, b, tenant, uuid);
      var own := ConjunctOf(last, tenant, uuid);
      assert own != [] ==> own == [own[0]];
      HoldAllConcat(Conjuncts(init, tenant, uuid), ConjunctOf(last, tenant, uuid), b);
    }
  }

  lemma HoldAllConcat(a: seq<Conjunct>, c: seq<Conjunct>, b: Binding)
    ensures HoldAll(a + c, b) <==> HoldAll(a, b) && HoldAll(c, b)
  {
    if HoldAll(a + c, b) {
      forall i | 0 <= i < |a| ensures Holds(a[i], b) {
        assert (a + c)[i] == a[i];
      }
      forall i | 0 <= i < |c| ensures Holds(c[i], b) {
        assert (a + c)[|a| + i] == c[i];
      }
    }
  }

  /** A rewritten statement gives, row for row and in the same order, what the original
      statement gives on the tenant's part of the database. */
  lemma FilteredIsRestricted(parse: string -> Option<nat>, scope: Scope, stmt: Statement, db: Database)
    requires Accepted(parse, scope, stmt)
    ensures Eval(db, Rewritten(parse, scope, stmt)) ==
            Eval(Restrict(db, scope.tenantId.value, TenantUuid(parse, scope.tenantId)), stmt)
  {
    var tenant, uuid := scope.tenantId.value, TenantUuid(parse, scope.tenantId);
    assert forall m :: m in stmt.mappers && m.hasWholesalerId ==> Owned(m);
    var froms := Froms(stmt.mappers);
    var all := Bindings(db, froms, map[]);
    var rewritten := Rewritten(parse, scope, stmt);
    var owned := OwnBinding(froms, tenant, uuid);
    var original := Matches(stmt);
    var after := Matches(rewritten);
    forall x | x in all ensures after(x) == (owned(x) && original(x)) {
      BindingsExtend(db, froms, map[], x);
      HoldAllConcat(stmt.where, Conjuncts(stmt.mappers, tenant, uuid), x);
      ConjunctsMeanOwnership(stmt.mappers, x, tenant, uuid);
    }
    KeepSame(all, after, Both(owned, original));
    KeepTwice(all, owned, original);
    Pushdown(db, froms, map[], tenant, uuid);
  }

  /** Non-interference: two databases with the same rows for this tenant answer every
      accepted SELECT alike. */
  lemma OtherTenantsAreInvisible(parse: string -> Option<nat>, scope: Scope, stmt: Statement,
                                 db1: Database, db2: Database)
    requires Accepted(parse, scope, stmt)
    requires Restrict(db1, scope.tenantId.value, TenantUuid(parse, scope.tenantId)) ==
             Restrict(db2, scope.tenantId.value, TenantUuid(parse, scope.tenantId))
    ensures Eval(db1, Rewritten(parse, scope, stmt)) == Eval(db2, Rewritten(parse, scope, stmt))
  {
    FilteredIsRestricted(parse, scope, stmt, db1);
    FilteredIsRestricted(parse, scope, stmt, db2);
  }

  /** A row touched by an accepted statement is the tenant's own. */
  lemma AffectedIsOwned(parse: string -> Option<nat>, scope: Scope, stmt: Statement, db: Database,
                        target: Mapper, r: Row)
    requires Accepted(parse, scope, stmt) && target in stmt.mappers
    requires Affected(db, Rewritten(parse, scope, stmt), target, r)
    ensures Owns(target, r, scope.tenantId.value, TenantUuid(parse, scope.tenantId))
  {
    var tenant, uuid := scope.tenantId.value, TenantUuid(parse, scope.tenantId);
    var rewritten := Rewritten(parse, scope, stmt);
    var b :| b in Eval(db, rewritten) && target in b && b[target] == r;
    var all := Bindings(db, Froms(stmt.mappers), map[]);
    KeepMembers(all, Matches(rewritten), b);
    BindingsExtend(db, Froms(stmt.mappers), map[], b);
    HoldAllConcat(stmt.where, Conjuncts(stmt.mappers, tenant, uuid), b);
    assert forall m :: m in stmt.mappers && m.hasWholesalerId ==> Owned(m);
    ConjunctsMeanOwnership(stmt.mappers, b, tenant, uuid);
  }

  lemma {:induction false} UpdateRowsAt(db: Database, stmt: Statement, target: Mapper, rows: seq<Row>,
                                        assign: Row -> Row, i: nat)
    requires i < |rows|
    ensures UpdateRows(db, stmt, target, rows, assign)[i] ==
            if Affected(db, stmt, target, rows[i]) then assign(rows[i]) else rows[i]
  {
    if i > 0 { UpdateRowsAt(db, stmt, target, rows[1..], assign, i - 1); }
  }

  /** An accepted UPDATE leaves every row of every other tenant as it is, in place, and
      every other table untouched. */
  lemma UpdateStaysHome(parse: string -> Option<nat>, scope: Scope, stmt: Statement, db: Database, target: Mapper,
                        assign: Row -> Row)
    requires Accepted(parse, scope, stmt) && target in stmt.mappers
    ensures var db' := Update(db, Rewritten(parse, scope, stmt), target, assign);
            && |Table(db', target)| == |Table(db, target)|
            && (forall i | 0 <= i < |Table(db, target)| ::
                  Owns(target, Table(db, target)[i], scope.tenantId.value, TenantUuid(parse, scope.tenantId))
                  || Table(db', target)[i] == Table(db, target)[i])
            && (forall m :: m != target ==> Table(db', m) == Table(db, m))
  {
    var rewritten := Rewritten(parse, scope, stmt);
    var rows := Table(db, target);
    forall i | 0 <= i < |rows| && !Owns(target, rows[i], scope.tenantId.value, TenantUuid(parse, scope.tenantId))
      ensures UpdateRows(db, rewritten, target, rows, assign)[i] == rows[i]
    {
      UpdateRowsAt(db, rewritten, target, rows, assign, i);
      if Affected(db, rewritten, target, rows[i]) {
        AffectedIsOwned(parse, scope, stmt, db, target, rows[i]);
      }
    }
  }

  /** And every row gets the new values exactly when the original statement, run on the tenant's
      part of the database, would have given them to it. */
  lemma UpdateIsRestricted(parse: string -> Option<nat>, scope: Scope, stmt: Statement, db: Database, target: Mapper,
                           assign: Row -> Row, i: nat)
    requires Accepted(parse, scope, stmt) && i < |Table(db, target)|
    ensures var (tenant, uuid) := (scope.tenantId.value, TenantUuid(parse, scope.tenantId));
            var row := Table(db, target)[i];
            Table(Update(db, Rewritten(parse, scope, stmt), target, assign), target)[i] ==
            if Affected(Restrict(db, tenant, uuid), stmt, target, row) then assign(row) else row
  {
    hide Eval, Rewritten, Restrict;
    FilteredIsRestricted(parse, scope, stmt, db);
    UpdateRowsAt(db, Rewritten(parse, scope, stmt), target, Table(db, target), assign, i);
  }

  function ForeignRow(m: Mapper, tenant: string, uuid: Option<nat>): Row -> bool {
    r => !Owns(m, r, tenant, uuid)
  }

  /** An accepted DELETE removes only rows of the tenant: the rows of all others are the
      same list before and after. */
  lemma DeleteStaysHome(parse: string -> Option<nat>, scope: Scope, stmt: Statement, db: Database, target: Mapper)
    requires Accepted(parse, scope, stmt) && target in stmt.mappers
    ensures var foreign := ForeignRow(target, scope.tenantId.value, TenantUuid(parse, scope.tenantId));
            var db' := Delete(db, Rewritten(parse, scope, stmt), target);
            && Keep(Table(db', target), foreign) == Keep(Table(db, target), foreign)
            && (forall m :: m != target ==> Table(db', m) == Table(db, m))
  {
    var rewritten := Rewritten(parse, scope, stmt);
    var rows := Table(db, target);
    var stays := Survives(db, rewritten, target);
    var foreign := ForeignRow(target, scope.tenantId.value, TenantUuid(parse, scope.tenantId));
    KeepTwice(rows, stays, foreign);
    forall r | r in rows ensures Both(stays, foreign)(r) == foreign(r) {
      if Affected(db, rewritten, target, r) {
        AffectedIsOwned(parse, scope, stmt, db, target, r);
      }
    }
    KeepSame(rows, Both(stays, foreign), foreign);
  }

  /** Two filters, one after the other, in either order. */
  lemma KeepBoth<T>(s: seq<T>, p: T -> bool, q: T -> bool, p2: T -> bool)
    requires forall x :: x in s ==> p(x) == p2(x)
    ensures Keep(Keep(s, p), q) == Keep(Keep(s, q), p2)
  {
    KeepTwice(s, p, q);
    KeepTwice(s, q, p2);
    KeepSame(s, Both(p, q), Both(q, p2));
  }

  lemma DeletedTable(db: Database, stmt: Statement, target: Mapper, tenant: string, uuid: Option<nat>)
    requires target in db
    ensures var db' := Restrict(Delete(db, stmt, target), tenant, uuid);
            && db'.Keys == db.Keys
            && db'[target] == Keep(Keep(db[target], Survives(db, stmt, target)), OwnRow(target, tenant, uuid))
            && forall m :: m in db && m != target ==> db'[m] == Keep(db[m], OwnRow(m, tenant, uuid))
  {
    hide Eval, Keep, OwnRow, Survives;
  }

  lemma TableOfTheRest(db: Database, stmt: Statement, target: Mapper, tenant: string, uuid: Option<nat>)
    requires target in db
    ensures var db' := Delete(Restrict(db, tenant, uuid), stmt, target);
            && db'.Keys == db.Keys
            && db'[target] ==
               Keep(Keep(db[target], OwnRow(target, tenant, uuid)), Survives(Restrict(db, tenant, uuid), stmt, target))
            && forall m :: m in db && m != target ==> db'[m] == Keep(db[m], OwnRow(m, tenant, uuid))
  {
    hide Eval, Keep, OwnRow, Survives;
  }

  /** On the tenant's part of the database an accepted DELETE does exactly what the
      original statement does there. */
  lemma DeleteIsRestricted(parse: string -> Option<nat>, scope: Scope, stmt: Statement, db: Database, target: Mapper)
    requires Accepted(parse, scope, stmt) && target in db
    ensures var (tenant, uuid) := (scope.tenantId.value, TenantUuid(parse, scope.tenantId));
            Restrict(Delete(db, Rewritten(parse, scope, stmt), target), tenant, uuid) ==
            Delete(Restrict(db, tenant, uuid), stmt, target)
  {
    hide Rewritten, Eval, Restrict, Delete, Keep, OwnRow;
    var (tenant, uuid) := (scope.tenantId.value, TenantUuid(parse, scope.tenantId));
    var rewritten := Rewritten(parse, scope, stmt);
    FilteredIsRestricted(parse, scope, stmt, db);
    DeletedTable(db, rewritten, target, tenant, uuid);
    TableOfTheRest(db, stmt, target, tenant, uuid);
    KeepBoth(db[target], Survives(db, rewritten, target), OwnRow(target, tenant, uuid),
             Survives(Restrict(db, tenant, uuid), stmt, target));
  }

  /** The hook as a whole: unless a bypass is in force, a SELECT, UPDATE or DELETE either
      fails for want of context or is replaced by its rewriting. In particular a statement
      on an owned class is never run unfiltered. */
  lemma NothingOwnedRunsUnfiltered(parse: string -> Option<nat>, kind: Kind, ignoreTenant: bool, info: Scope,
                                   context: Scope, stmt: Statement, db: Database, m: Mapper)
    requires !kind.OtherStmt? && m in stmt.mappers && Owned(m)
    requires !Bypasses(ignoreTenant, Effective(info, context))
    ensures var scope := Effective(info, context);
            match Hook(parse, kind, ignoreTenant, info, context, stmt)
            case Err(_) => !Accepted(parse, scope, stmt)
            case Ok(out) =>
              && Accepted(parse, scope, stmt)
              && Eval(db, out) == Eval(Restrict(db, scope.tenantId.value, TenantUuid(parse, scope.tenantId)), stmt)
  {
    var scope := Effective(info, context);
    if Accepted(parse, scope, stmt) {
      FilteredIsRestricted(parse, scope, stmt, db);
    }
  }

  /** Present and not the empty string. */
  predicate Given(v: Option<string>) {
    v != None && v != Some("")
  }

  /** A system reason is in force: one in the session that is not empty, or any in the context. */
  predicate SystemReason(info: Scope, context: Scope) {
    Given(info.systemReason) || context.systemReason.Some?
  }

  /** `ignore_tenant`, a system reason, and statements other than the three kinds: the hook
      leaves the statement as it is. */
  lemma BypassLeavesTheStatement(parse: string -> Option<nat>, kind: Kind, ignoreTenant: bool, info: Scope,
                                 context: Scope, stmt: Statement)
    requires ignoreTenant || SystemReason(info, context) || kind.OtherStmt?
    ensures Hook(parse, kind, ignoreTenant, info, context, stmt) == Ok(stmt)
  {}

  /** The answer of `out` is that of `stmt` on the rows of this tenant alone, whatever the
      database holds; and what is added to the statement are the tenant's conjuncts. */
  ghost predicate FiltersBy(parse: string -> Option<nat>, stmt: Statement, out: Statement, tenant: string) {
    && out.mappers == stmt.mappers && out.pred == stmt.pred
    && out.where == stmt.where + OwnershipOf(stmt.mappers, tenant, OrElse(parse(tenant), 0))
    && forall db :: Eval(db, out) == Eval(Restrict(db, tenant, parse(tenant)), stmt)
  }

  /** Without a bypass: the session's own tenant counts, and the request's only if the session
      names none; a schema must be known in one of the two places; a statement on owned
      classes needs a tenant, and one on a class with `wholesaler_id` a UUID. Everything
      accepted with a tenant is filtered by it. */
  lemma HookFiltersByTheTenant(parse: string -> Option<nat>, kind: Kind, info: Scope, context: Scope, stmt: Statement)
    requires !SystemReason(info, context) && !kind.OtherStmt?
    ensures var answer := Hook(parse, kind, false, info, context, stmt);
            var owned := exists m :: m in stmt.mappers && (m.hasTenantId || m.hasWholesalerId);
            var byUuid := exists m :: m in stmt.mappers && m.hasWholesalerId;
            if !Given(info.tenantSchema) && !Given(context.tenantSchema) then answer == Err(SchemaMissing)
            else if !Given(info.tenantId) && !Given(context.tenantId) then
              answer == if owned then Err(TenantMissing) else Ok(stmt)
            else
              var tenant := if Given(info.tenantId) then info.tenantId.value else context.tenantId.value;
              if byUuid && parse(tenant).None? then answer == Err(TenantNotUuid)
              else answer.Ok? && FiltersBy(parse, stmt, answer.value, tenant)
  {
    hide Eval, Restrict, Conjuncts, OwnershipOf;
    var scope := Effective(info, context);
    assert forall m :: m in stmt.mappers && m.hasWholesalerId ==> Owned(m);
    if Accepted(parse, scope, stmt) {
      EveryOwnedMapperIsFiltered(parse, scope, stmt);
      forall db: Database
        ensures Eval(db, Rewritten(parse, scope, stmt)) ==
                Eval(Restrict(db, scope.tenantId.value, parse(scope.tenantId.value)), stmt)
      {
        FilteredIsRestricted(parse, scope, stmt, db);
      }
    }
  }
}
