/**
  What a statement answers, said without its evaluation: which combinations of rows it finds,
  and what the tenant filter takes away from them.
 */
module SelectAnswers {
  import opened Common
  import opened TenantFilter
  import opened TenantIsolation

  /** `x` is `b` with one row of each of these classes. */
  ghost predicate Extends(db: Database, froms: seq<Mapper>, b: Binding, x: Binding) {
    && (forall m :: m in x <==> m in b || m in froms)
    && (forall m :: m in b && m !in froms ==> x[m] == b[m])
    && (forall m :: m in froms ==> m in db && x[m] in db[m])
  }

  lemma {:induction false} BindingsAre(db: Database, froms: seq<Mapper>, b: Binding, x: Binding)
    requires Distinct(froms)
    ensures x in Bindings(db, froms, b) <==> Extends(db, froms, b, x)
    decreases |froms|, 0, 0
  {
    if froms == [] {
      NothingToBind(db, b, x);
    } else {
      BindRowsAre(db, Table(db, froms[0]), froms, b, x);
      OneClassMore(db, froms, b, x);
    }
  }

  lemma NothingToBind(db: Database, b: Binding, x: Binding)
    ensures Extends(db, [], b, x) <==> x == b
  {
    if Extends(db, [], b, x) {
      assert x.Keys == b.Keys;
    }
  }

  /** One of these rows is the row of the first class. */
  ghost predicate FromRows(db: Database, rows: seq<Row>, froms: seq<Mapper>, b: Binding, x: Binding)
    requires froms != []
  {
    exists i :: 0 <= i < |rows| && Extends(db, froms[1..], b[froms[0] := rows[i]], x)
  }

  lemma OneClassMore(db: Database, froms: seq<Mapper>, b: Binding, x: Binding)
    requires froms != [] && Distinct(froms)
    ensures FromRows(db, Table(db, froms[0]), froms, b, x) <==> Extends(db, froms, b, x)
  {
    var (first, rest, rows) := (froms[0], froms[1..], Table(db, froms[0]));
    assert forall m :: m in froms <==> m == first || m in rest;
    assert first !in rest;
    if Extends(db, froms, b, x) {
      var i :| 0 <= i < |rows| && rows[i] == x[first];
      assert Extends(db, rest, b[first := rows[i]], x);
    }
    if FromRows(db, rows, froms, b, x) {
      var i :| 0 <= i < |rows| && Extends(db, rest, b[first := rows[i]], x);
      assert x[first] == rows[i];
    }
  }

  lemma {:induction false} BindRowsAre(db: Database, rows: seq<Row>, froms: seq<Mapper>, b: Binding, x: Binding)
    requires froms != [] && Distinct(froms)
    ensures x in BindRows(db, rows, froms, b) <==> FromRows(db, rows, froms, b, x)
    decreases |froms| - 1, 1, |rows|
  {
    hide Extends, Bindings;
    if rows != [] {
      BindingsAre(db, froms[1..], b[froms[0] := rows[0]], x);
      BindRowsAre(db, rows[1..], froms, b, x);
      FirstOrLater(db, rows, froms, b, x);
    }
  }

  lemma FirstOrLater(db: Database, rows: seq<Row>, froms: seq<Mapper>, b: Binding, x: Binding)
    requires froms != [] && rows != []
    ensures FromRows(db, rows, froms, b, x) <==>
            Extends(db, froms[1..], b[froms[0] := rows[0]], x) || FromRows(db, rows[1..], froms, b, x)
  {
    hide Extends;
    if FromRows(db, rows[1..], froms, b, x) {
      var i :| 0 <= i < |rows[1..]| && Extends(db, froms[1..], b[froms[0] := rows[1..][i]], x);
      assert rows[i + 1] == rows[1..][i];
    }
    if FromRows(db, rows, froms, b, x) {
      var i :| 0 <= i < |rows| && Extends(db, froms[1..], b[froms[0] := rows[i]], x);
      if i > 0 { assert rows[1..][i - 1] == rows[i]; }
    }
  }

  /** One row of every class, and of no other, from its own table. */
  ghost predicate PicksRows(db: Database, mappers: seq<Mapper>, b: Binding) {
    && (forall m :: m in b <==> m in mappers)
    && (forall m :: m in b ==> m in db && b[m] in db[m])
  }

  /** A conjunct compares its own column. */
  predicate Meets(b: Binding, c: Conjunct) {
    c.m in b && if c.TenantIs? then b[c.m].tenantId == Some(c.tenant) else b[c.m].wholesalerId == Some(c.id)
  }

  lemma AllMeet(cs: seq<Conjunct>, b: Binding)
    ensures HoldAll(cs, b) <==> forall c :: c in cs ==> Meets(b, c)
  {
    forall c: Conjunct ensures Holds(c, b) <==> Meets(b, c) {}
    if forall c :: c in cs ==> Meets(b, c) {
      forall i | 0 <= i < |cs| ensures Holds(cs[i], b) { assert cs[i] in cs; }
    }
  }

  /** A SELECT finds exactly the combinations of one row per class that meet all its conjuncts
      and its own condition. */
  lemma SelectedExactlyWhen(db: Database, stmt: Statement, b: Binding)
    ensures b in Eval(db, stmt) <==>
            PicksRows(db, stmt.mappers, b) && (forall c :: c in stmt.where ==> Meets(b, c)) && stmt.pred(b)
  {
    var froms := Froms(stmt.mappers);
    KeepMembers(Bindings(db, froms, map[]), Matches(stmt), b);
    BindingsAre(db, froms, map[], b);
    AllMeet(stmt.where, b);
  }

  /** The row is the tenant's: by its tenant id, or else, for a class that has only that, by its
      wholesaler. */
  predicate BelongsTo(m: Mapper, r: Row, tenant: string, uuid: Option<nat>) {
    && (m.hasTenantId ==> r.tenantId == Some(tenant))
    && (!m.hasTenantId && m.hasWholesalerId ==> uuid.Some? && r.wholesalerId == uuid)
  }

  lemma RestrictedRows(db: Database, tenant: string, uuid: Option<nat>, m: Mapper, r: Row)
    ensures var mine := Restrict(db, tenant, uuid);
            (m in mine && r in mine[m]) <==> m in db && r in db[m] && BelongsTo(m, r, tenant, uuid)
  {
    if m in db { KeepMembers(db[m], OwnRow(m, tenant, uuid), r); }
  }

  /** A statement that the hook filters finds exactly what it would have found, less the
      combinations in which some row of an owned class is another tenant's. */
  lemma FilterTakesTheOthersAway(parse: string -> Option<nat>, stmt: Statement, out: Statement, tenant: string,
                                 db: Database, b: Binding)
    requires FiltersBy(parse, stmt, out, tenant)
    ensures b in Eval(db, out) <==>
            b in Eval(db, stmt) && forall m :: m in b ==> BelongsTo(m, b[m], tenant, parse(tenant))
  {
    hide Eval, Restrict, PicksRows, OwnershipOf;
    var mine := Restrict(db, tenant, parse(tenant));
    assert Eval(db, out) == Eval(mine, stmt);
    SelectedExactlyWhen(db, stmt, b);
    SelectedExactlyWhen(mine, stmt, b);
    PicksOwnRows(db, stmt.mappers, tenant, parse(tenant), b);
  }

  lemma PicksOwnRows(db: Database, mappers: seq<Mapper>, tenant: string, uuid: Option<nat>, b: Binding)
    ensures PicksRows(Restrict(db, tenant, uuid), mappers, b) <==>
            PicksRows(db, mappers, b) && forall m :: m in b ==> BelongsTo(m, b[m], tenant, uuid)
  {
    forall m | m in b
      ensures (m in Restrict(db, tenant, uuid) && b[m] in Restrict(db, tenant, uuid)[m]) <==>
              m in db && b[m] in db[m] && BelongsTo(m, b[m], tenant, uuid)
    {
      RestrictedRows(db, tenant, uuid, m, b[m]);
    }
  }
}
