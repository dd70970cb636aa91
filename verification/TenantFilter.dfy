/**
  The ORM tenant filter: which statements it rejects, which it rewrites, and what
  the rewritten statement can see and change. Statements are the mappers they touch plus
  a predicate on one row per mapped class; the database is one row list per class.
 */
module TenantFilter {
  import opened Common

  /** A mapped class and the ownership columns it carries. */
  datatype Mapper = Mapper(cls: string, hasTenantId: bool, hasWholesalerId: bool)

  /** A row. A NULL ownership column equals nothing. */
  datatype Row = Row(tenantId: Option<string>, wholesalerId: Option<nat>, payload: int)

  /** One row for each mapped class of a statement. */
  type Binding = map<Mapper, Row>

  datatype Conjunct = TenantIs(m: Mapper, tenant: string) | WholesalerIs(m: Mapper, id: nat)

  datatype Statement = Statement(mappers: seq<Mapper>, where: seq<Conjunct>, pred: Binding -> bool)

  type Database = map<Mapper, seq<Row>>

  // ------------------------------------------------------------- request context

  /** The three values the hook reads, from the session or from the context variables. */
  datatype Scope = Scope(tenantId: Option<string>, tenantSchema: Option<string>, systemReason: Option<string>)

  /** Python's `a or b`. */
  function Or(a: Option<string>, b: Option<string>): Option<string> {
    if Truthy(a) then a else b
  }

  /** What the session info and the context variables say together. */
  function Effective(info: Scope, context: Scope): Scope {
    Scope(Or(info.tenantId, context.tenantId),
          Or(info.tenantSchema, context.tenantSchema),
          Or(info.systemReason, context.systemReason))
  }

  datatype Kind = SelectStmt | UpdateStmt | DeleteStmt | OtherStmt

  predicate Bypasses(ignoreTenant: bool, scope: Scope) {
    ignoreTenant || scope.systemReason.Some?
  }

  predicate Owned(m: Mapper) {
    m.hasTenantId || m.hasWholesalerId
  }

  datatype ContextError = SchemaMissing | TenantMissing | TenantNotUuid

  /** `_parse_tenant_uuid`; `parse` is the UUID parser. */
  function TenantUuid(parse: string -> Option<nat>, tenantId: Option<string>): Option<nat> {
    if Truthy(tenantId) then parse(tenantId.value) else None
  }

  /** `_require_tenant_context`. */
  function Require(parse: string -> Option<nat>, scope: Scope, mappers: seq<Mapper>): Option<ContextError> {
    if !Truthy(scope.tenantSchema) then Some(SchemaMissing)
    else if exists m :: m in mappers && Owned(m) then
      if !Truthy(scope.tenantId) then Some(TenantMissing)
      else if (exists m :: m in mappers && m.hasWholesalerId) && TenantUuid(parse, scope.tenantId).None? then
        Some(TenantNotUuid)
      else None
    else None
  }

  /** The conjunct one mapper contributes, if any: `tenant_id` wins over `wholesaler_id`. */
  function ConjunctOf(m: Mapper, tenant: string, uuid: Option<nat>): seq<Conjunct> {
    if m.hasTenantId then [TenantIs(m, tenant)]
    else if m.hasWholesalerId && uuid.Some? then [WholesalerIs(m, uuid.value)]
    else []
  }

  function Conjuncts(mappers: seq<Mapper>, tenant: string, uuid: Option<nat>): seq<Conjunct> {
    if mappers == [] then []
    else Conjuncts(mappers[..|mappers| - 1], tenant, uuid) + ConjunctOf(mappers[|mappers| - 1], tenant, uuid)
  }

  /** What `_maybe_apply_tenant_id_criteria` makes of the statement. */
  function Rewritten(parse: string -> Option<nat>, scope: Scope, stmt: Statement): Statement {
    if !Truthy(scope.tenantId) then stmt
    else stmt.(where := stmt.where +
                 Conjuncts(stmt.mappers, scope.tenantId.value, TenantUuid(parse, scope.tenantId)))
  }

  lemma NoConjunct(tenant: string, uuid: Option<nat>)
    ensures Conjuncts([], tenant, uuid) == []
  {}

  lemma OneMoreConjunct(where: seq<Conjunct>, mappers: seq<Mapper>, i: nat, tenant: string, uuid: Option<nat>)
    requires i < |mappers|
    ensures where + Conjuncts(mappers[..i + 1], tenant, uuid) ==
            where + Conjuncts(mappers[..i], tenant, uuid) + ConjunctOf(mappers[i], tenant, uuid)
  {
    assert mappers[..i + 1][..i] == mappers[..i];
  }

  /** The loop over the mappers, appending one `.where()` at a time. */
  method ApplyCriteria(parse: string -> Option<nat>, scope: Scope, stmt: Statement) returns (out: Statement)
    ensures out == Rewritten(parse, scope, stmt)
  {
    hide Conjuncts;
    out := stmt;
    if !Truthy(scope.tenantId) { return; }
    var tenant := scope.tenantId.value;
    var uuid := TenantUuid(parse, scope.tenantId);
    NoConjunct(tenant, uuid);
    assert stmt.mappers[..0] == [];
    for i := 0 to |stmt.mappers|
      invariant out == stmt.(where := stmt.where + Conjuncts(stmt.mappers[..i], tenant, uuid))
    {
      var m := stmt.mappers[i];
      OneMoreConjunct(stmt.where, stmt.mappers, i, tenant, uuid);
      if m.hasTenantId {
        out := out.(where := out.where + [TenantIs(m, tenant)]);
      } else if m.hasWholesalerId && uuid.Some? {
        out := out.(where := out.where + [WholesalerIs(m, uuid.value)]);
      }
    }
    assert stmt.mappers[..|stmt.mappers|] == stmt.mappers;
  }

  /** The event hook on every ORM statement. */
  function Hook(parse: string -> Option<nat>, kind: Kind, ignoreTenant: bool, info: Scope, context: Scope,
                stmt: Statement): Result<Statement, ContextError>
  {
    var scope := Effective(info, context);
    if Bypasses(ignoreTenant, scope) || kind.OtherStmt? then Ok(stmt)
    else
      var problem := Require(parse, scope, stmt.mappers);
      if problem.Some? then Err(problem.value) else Ok(Rewritten(parse, scope, stmt))
  }

  // ---------------------------------------------------------------- what SQL does

  function Keep<T>(s: seq<T>, p: T -> bool): seq<T> {
    if s == [] then [] else (if p(s[0]) then [s[0]] else []) + Keep(s[1..], p)
  }

  predicate Holds(c: Conjunct, b: Binding) {
    c.m in b &&
    match c
    case TenantIs(m, t) => b[m].tenantId == Some(t)
    case WholesalerIs(m, id) => b[m].wholesalerId == Some(id)
  }

  predicate HoldAll(cs: seq<Conjunct>, b: Binding) {
    forall i :: 0 <= i < |cs| ==> Holds(cs[i], b)
  }

  function Table(db: Database, m: Mapper): seq<Row> {
    if m in db then db[m] else []
  }

  /** The classes of a statement, each once. */
  function Froms(mappers: seq<Mapper>): (f: seq<Mapper>)
    ensures forall m :: m in f <==> m in mappers
    ensures forall i, j :: 0 <= i < j < |f| ==> f[i] != f[j]
  {
    if mappers == [] then []
    else
      var f := Froms(mappers[1..]);
      if mappers[0] in f then f else [mappers[0]] + f
  }

  /** All ways to bind the classes of `froms` to rows, in nested-loop order. */
  function Bindings(db: Database, froms: seq<Mapper>, b: Binding): seq<Binding>
    decreases |froms|, 0, 0
  {
    if froms == [] then [b] else BindRows(db, Table(db, froms[0]), froms, b)
  }

  function BindRows(db: Database, rows: seq<Row>, froms: seq<Mapper>, b: Binding): seq<Binding>
    requires froms != []
    decreases |froms| - 1, 1, |rows|
  {
    if rows == [] then []
    else Bindings(db, froms[1..], b[froms[0] := rows[0]]) + BindRows(db, rows[1..], froms, b)
  }

  function Matches(stmt: Statement): Binding -> bool {
    b => HoldAll(stmt.where, b) && stmt.pred(b)
  }

  /** The result of a SELECT. */
  function Eval(db: Database, stmt: Statement): seq<Binding> {
    Keep(Bindings(db, Froms(stmt.mappers), map[]), Matches(stmt))
  }

  predicate Affected(db: Database, stmt: Statement, target: Mapper, r: Row) {
    exists b :: b in Eval(db, stmt) && target in b && b[target] == r
  }

  function UpdateRows(db: Database, stmt: Statement, target: Mapper, rows: seq<Row>, assign: Row -> Row):
    (out: seq<Row>)
    ensures |out| == |rows|
  {
    if rows == [] then []
    else [if Affected(db, stmt, target, rows[0]) then assign(rows[0]) else rows[0]] +
         UpdateRows(db, stmt, target, rows[1..], assign)
  }

  function Update(db: Database, stmt: Statement, target: Mapper, assign: Row -> Row): Database {
    db[target := UpdateRows(db, stmt, target, Table(db, target), assign)]
  }

  function Survives(db: Database, stmt: Statement, target: Mapper): Row -> bool {
    r => !Affected(db, stmt, target, r)
  }

  function Delete(db: Database, stmt: Statement, target: Mapper): Database {
    db[target := Keep(Table(db, target), Survives(db, stmt, target))]
  }

  // ------------------------------------------------------------------- ownership

  /** The row belongs to the tenant, or its class belongs to nobody. */
  predicate Owns(m: Mapper, r: Row, tenant: string, uuid: Option<nat>) {
    if m.hasTenantId then r.tenantId == Some(tenant)
    else if m.hasWholesalerId then uuid.Some? && r.wholesalerId == uuid
    else true
  }

  function OwnRow(m: Mapper, tenant: string, uuid: Option<nat>): Row -> bool {
    r => Owns(m, r, tenant, uuid)
  }

  /** The part of the database that the tenant may see. */
  function Restrict(db: Database, tenant: string, uuid: Option<nat>): Database {
    map m | m in db :: Keep(db[m], OwnRow(m, tenant, uuid))
  }

  /** A statement that the hook checked and let through. */
  predicate Accepted(parse: string -> Option<nat>, scope: Scope, stmt: Statement) {
    Require(parse, scope, stmt.mappers).None? && Truthy(scope.tenantId)
  }
}
