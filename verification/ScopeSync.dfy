/**
 Synchronising the out_of_scope column with the scope rules.  With fixed rules two runs reach
 a fixed point in which nothing that is explicitly allowed is effectively blocked; one run is
 not enough when it newly blocks an anchor.
 */
module ScopeSync {
  import opened Schema
  import opened Database
  import opened History

  datatype ScopeRules = ScopeRules(allowed: (string, string) -> bool, blocked: (string, string) -> bool)

  predicate Allowed(rules: ScopeRules, row: Row) { rules.allowed(row.etype, row.value) }
  predicate Blocked(rules: ScopeRules, row: Row) { rules.blocked(row.etype, row.value) }

  /** The column after one run. */
  function SyncedScope(rules: ScopeRules, db: Db, row: Row): Option<bool> {
    if row.scope == Some(false) then
      if Allowed(rules, row) then row.scope else if Blocked(rules, row) then Some(true) else None
    else if EffectiveScope(db, row) && Allowed(rules, row) then Some(false)
    else row.scope
  }

  function Sync(rules: ScopeRules, db: Db): Db {
    db.(rows := map id | id in db.rows :: db.rows[id].(scope := SyncedScope(rules, db, db.rows[id])))
  }

  // ------------------------------------------------------------ what becomes of each flag

  predicate Permitted(rules: ScopeRules, db: Db, id: nat)
    requires id in db.rows
  {
    rules.allowed(db.rows[id].etype, db.rows[id].value)
  }

  predicate Forbidden(rules: ScopeRules, db: Db, id: nat)
    requires id in db.rows
  {
    rules.blocked(db.rows[id].etype, db.rows[id].value)
  }

  /** `db'` is `db` with flags as the rules want them.  "In scope" is left to the permitted rows alone:
      to those that were in scope or blocked.  "Out of scope" stays where nothing permits the row and
      is put where the rules forbid a row that was in scope.  A row that was in scope and that the
      rules say nothing about has no flag any more, so its anchor's flag decides.  Nothing else changes. */
  ghost predicate FlagsFollow(rules: ScopeRules, db: Db, db': Db) {
    && db' == db.(rows := db'.rows) && db'.rows.Keys == db.rows.Keys
    && forall id :: id in db.rows ==>
         var row, row' := db.rows[id], db'.rows[id];
         var permitted, forbidden := Permitted(rules, db, id), Forbidden(rules, db, id);
         && row' == row.(scope := row'.scope)
         && (row'.scope == Some(false) <==> permitted && (row.scope == Some(false) || BlockedNow(db, row)))
         && (row'.scope == Some(true) <==>
               !permitted && (row.scope == Some(true) || (row.scope == Some(false) && forbidden)))
         && (row.scope == Some(false) && !permitted && !forbidden ==> row'.scope == None)
         && (row.scope == Some(false) && !permitted && !forbidden ==>
               (BlockedNow(db', row') <==>
                  row.anchor.Some? && row.anchor.value in db.rows && db'.rows[row.anchor.value].scope == Some(true)))
  }

  lemma SyncMeaning(rules: ScopeRules, db: Db)
    ensures FlagsFollow(rules, db, Sync(rules, db))
  {
  }

  // ------------------------------------------------------------ the loops

  const BATCH_SIZE := 998

  /** UPDATE ... WHERE id IN (chunk), chunk after chunk. */
  method UpdateScopeBatch(rows: map<nat, Row>, ids: seq<nat>, value: Option<bool>) returns (rows': map<nat, Row>)
    requires forall id <- ids :: id in rows
    ensures rows'.Keys == rows.Keys
    ensures forall id :: id in rows ==> rows'[id] == if id in ids then rows[id].(scope := value) else rows[id]
  {
    rows' := rows;
    var i := 0;
    while i < |ids|
      invariant 0 <= i <= |ids| && rows'.Keys == rows.Keys
      invariant forall id :: id in rows ==> rows'[id] == if id in ids[..i] then rows[id].(scope := value) else rows[id]
    {
      var end := if i + BATCH_SIZE > |ids| then |ids| else i + BATCH_SIZE;
      var chunk := ids[i..end];
      assert ids[..end] == ids[..i] + chunk;
      rows' := map id | id in rows' :: if id in chunk then rows'[id].(scope := value) else rows'[id];
      i := end;
    }
    assert ids[..|ids|] == ids;
  }

  /** The two audit queries. */
  predicate AuditLists(db: Db, allowed: seq<nat>, blocked: seq<nat>) {
    && (forall id <- allowed :: id in db.rows && db.rows[id].scope == Some(false))
    && (forall id <- blocked :: id in db.rows && EffectiveScope(db, db.rows[id]))
    && forall id <- db.rows.Keys ::
         (db.rows[id].scope == Some(false) ==> id in allowed) && (EffectiveScope(db, db.rows[id]) ==> id in blocked)
  }

  /** Of the rows whose flag says "in scope": which to put out of scope, which to leave open. */
  method SortAllowed(rules: ScopeRules, db: Db, allowed: seq<nat>) returns (toNull: seq<nat>, toOne: seq<nat>)
    requires forall id <- allowed :: id in db.rows
    ensures forall id :: id in toNull <==> id in allowed && !Allowed(rules, db.rows[id]) && !Blocked(rules, db.rows[id])
    ensures forall id :: id in toOne <==> id in allowed && !Allowed(rules, db.rows[id]) && Blocked(rules, db.rows[id])
  {
    toNull, toOne := [], [];
    for i := 0 to |allowed|
      invariant forall id :: id in toNull <==>
                  id in allowed[..i] && !Allowed(rules, db.rows[id]) && !Blocked(rules, db.rows[id])
      invariant forall id :: id in toOne <==>
                  id in allowed[..i] && !Allowed(rules, db.rows[id]) && Blocked(rules, db.rows[id])
    {
      assert allowed[..i + 1] == allowed[..i] + [allowed[i]];
      assert allowed[i] in allowed;
      if !Allowed(rules, db.rows[allowed[i]]) {
        if Blocked(rules, db.rows[allowed[i]]) {
          toOne := toOne + [allowed[i]];
        } else {
          toNull := toNull + [allowed[i]];
        }
      }
    }
    assert allowed[..|allowed|] == allowed;
  }

  /** Of the effectively blocked rows: those that are explicitly allowed. */
  method SortBlocked(rules: ScopeRules, db: Db, blocked: seq<nat>) returns (toZero: seq<nat>, unblocked: seq<nat>)
    requires forall id <- blocked :: id in db.rows
    ensures forall id :: id in toZero <==> id in blocked && Allowed(rules, db.rows[id])
    ensures unblocked == toZero
  {
    toZero, unblocked := [], [];
    for i := 0 to |blocked|
      invariant forall id :: id in toZero <==> id in blocked[..i] && Allowed(rules, db.rows[id])
      invariant unblocked == toZero
    {
      assert blocked[..i + 1] == blocked[..i] + [blocked[i]];
      assert blocked[i] in blocked;
      if Allowed(rules, db.rows[blocked[i]]) {
        toZero := toZero + [blocked[i]];
        unblocked := unblocked + [blocked[i]];
      }
    }
    assert blocked[..|blocked|] == blocked;
  }

  /** Fills the three id lists and applies them; `unblocked` are the entities to dispatch again. */
  method SyncScopeWithDB(rules: ScopeRules, db: Db, allowed: seq<nat>, blocked: seq<nat>) returns (db': Db,
      unblocked: seq<nat>)
    requires AuditLists(db, allowed, blocked)
    ensures db' == Sync(rules, db) && FlagsFollow(rules, db, db')
    ensures forall id :: id in unblocked <==>
              id in db.rows && BlockedNow(db, db.rows[id]) && Permitted(rules, db, id)
    ensures forall id :: id in unblocked <==>
              id in db.rows && EffectiveScope(db, db.rows[id]) && Allowed(rules, db.rows[id])
  {
    var toNull, toOne := SortAllowed(rules, db, allowed);
    var toZero;
    toZero, unblocked := SortBlocked(rules, db, blocked);
    var rows := UpdateScopeBatch(db.rows, toNull, None);
    rows := UpdateScopeBatch(rows, toOne, Some(true));
    rows := UpdateScopeBatch(rows, toZero, Some(false));
    db' := db.(rows := rows);
    assert forall id :: id in db.rows ==> id in db.rows.Keys;
    hide Allowed, Blocked, FlagsFollow, BlockedNow, Permitted;
    assert rows == Sync(rules, db).rows;
    SyncMeaning(rules, db);
    QueriesMeaning(rules, db);
  }

  lemma QueriesMeaning(rules: ScopeRules, db: Db)
    ensures forall id :: id in db.rows ==>
              && (EffectiveScope(db, db.rows[id]) <==> BlockedNow(db, db.rows[id]))
              && (Allowed(rules, db.rows[id]) <==> Permitted(rules, db, id))
  {
  }

  /** A synchronisation is one of the scope steps that database runs are made of. */
  lemma SyncIsScopeStep(rules: ScopeRules, db: Db)
    ensures ScopeStepTo(db, Sync(rules, db))
  {
  }

  // ------------------------------------------------------------ convergence

  /** Anchors are domain rows, which have no anchor themselves. */
  ghost predicate FlatAnchors(db: Db) {
    forall id :: id in db.rows && db.rows[id].anchor.Some? ==>
      db.rows[id].anchor.value in db.rows && db.rows[db.rows[id].anchor.value].anchor.None?
  }

  lemma AnchorsAreFlat(db: Db, anchorOf: AnchorFn)
    requires AnchorsOK(db, anchorOf) && AnchorFnOK(anchorOf)
    ensures FlatAnchors(db)
  {
  }

  lemma SyncKeepsAnchors(rules: ScopeRules, db: Db)
    requires FlatAnchors(db)
    ensures FlatAnchors(Sync(rules, db))
  {
  }

  /** A row without an anchor is settled by one run. */
  lemma UnanchoredSettles(rules: ScopeRules, db: Db, id: nat)
    requires id in db.rows && db.rows[id].anchor.None?
    ensures Sync(rules, Sync(rules, db)).rows[id] == Sync(rules, db).rows[id]
  {
  }

  lemma TwiceSettles(rules: ScopeRules, db: Db, id: nat)
    requires FlatAnchors(db) && id in db.rows
    ensures Sync(rules, Sync(rules, Sync(rules, db))).rows[id] == Sync(rules, Sync(rules, db)).rows[id]
  {
    var row := db.rows[id];
    UnanchoredSettlesAnchor(rules, db, id);
    var d1 := Sync(rules, db);
    var d2 := Sync(rules, d1);
    SyncedRow(rules, db, id);
    SyncedRow(rules, d1, id);
    SyncedRow(rules, d2, id);
    hide Sync;
    if row.anchor.Some? {
      assert d2.rows[row.anchor.value].scope == d1.rows[row.anchor.value].scope;
    }
  }

  lemma SyncedRow(rules: ScopeRules, db: Db, id: nat)
    requires id in db.rows
    ensures Sync(rules, db).rows.Keys == db.rows.Keys
    ensures Sync(rules, db).rows[id] == db.rows[id].(scope := SyncedScope(rules, db, db.rows[id]))
  {
  }

  lemma UnanchoredSettlesAnchor(rules: ScopeRules, db: Db, id: nat)
    requires FlatAnchors(db) && id in db.rows
    ensures db.rows[id].anchor.Some? ==>
              var a := db.rows[id].anchor.value;
              a in db.rows && Sync(rules, Sync(rules, db)).rows[a] == Sync(rules, db).rows[a]
  {
    if db.rows[id].anchor.Some? {
      UnanchoredSettles(rules, db, db.rows[id].anchor.value);
    }
  }

  /** A third run changes nothing. */
  lemma TwoRunsReachFixedPoint(rules: ScopeRules, db: Db)
    requires FlatAnchors(db)
    ensures Sync(rules, Sync(rules, Sync(rules, db))) == Sync(rules, Sync(rules, db))
  {
    var d2 := Sync(rules, Sync(rules, db));
    forall id | id in db.rows ensures Sync(rules, d2).rows[id] == d2.rows[id] {
      TwiceSettles(rules, db, id);
    }
  }

  /** Some explicitly allowed entity is blocked, by its own flag or by its anchor's. */
  ghost predicate AllowedButBlocked(rules: ScopeRules, db: Db) {
    exists id :: id in db.rows && Allowed(rules, db.rows[id]) && EffectiveScope(db, db.rows[id])
  }

  lemma TwoRunsFreeAllowed(rules: ScopeRules, db: Db)
    requires FlatAnchors(db)
    ensures !AllowedButBlocked(rules, Sync(rules, Sync(rules, db)))
  {
    var d1 := Sync(rules, db);
    var d2 := Sync(rules, d1);
    forall id | id in d2.rows && Allowed(rules, d2.rows[id]) ensures !EffectiveScope(d2, d2.rows[id]) {
      UnanchoredSettlesAnchor(rules, db, id);
    }
  }

  /** The run blocks an anchor that an allowed entity without a flag of its own hangs on. */
  ghost predicate NewlyBlocksAnchor(rules: ScopeRules, db: Db) {
    exists id :: id in db.rows && HangsOnNewlyBlocked(rules, db, id)
  }

  predicate HangsOnNewlyBlocked(rules: ScopeRules, db: Db, id: nat)
    requires id in db.rows
  {
    var row := db.rows[id];
    && Allowed(rules, row) && row.scope.None? && row.anchor.Some? && row.anchor.value in db.rows
    && var a := db.rows[row.anchor.value];
       a.scope == Some(false) && !Allowed(rules, a) && Blocked(rules, a)
  }

  /** One run leaves an allowed entity blocked exactly when it newly blocks such an anchor. */
  lemma OneRunFallsShortIff(rules: ScopeRules, db: Db)
    requires FlatAnchors(db)
    ensures AllowedButBlocked(rules, Sync(rules, db)) <==> NewlyBlocksAnchor(rules, db)
  {
    var d1 := Sync(rules, db);
    forall id | id in db.rows
      ensures (Allowed(rules, d1.rows[id]) && EffectiveScope(d1, d1.rows[id])) <==> HangsOnNewlyBlocked(rules, db, id)
    {
    }
  }

  /** Such a database: b.a.x is allowed, and a.x, its anchor, has just been put out of scope. */
  lemma OneRunFallsShort()
    ensures var rules := ScopeRules((t, v) => v == "b.a.x", (t, v) => v == "a.x");
            var domain := Row("domain", "a.x", "node", Some(false), true, 0, 0, None, None);
            var sub := Row("subdomain", "b.a.x", "node", None, false, 0, 0, None, Some(1));
            AllowedButBlocked(rules, Sync(rules, Db(2, map[1 := domain, 2 := sub], 3, {}, {}, map[])))
  {
    var rules := ScopeRules((t, v) => v == "b.a.x", (t, v) => v == "a.x");
    var domain := Row("domain", "a.x", "node", Some(false), true, 0, 0, None, None);
    var sub := Row("subdomain", "b.a.x", "node", None, false, 0, 0, None, Some(1));
    var db := Db(2, map[1 := domain, 2 := sub], 3, {}, {}, map[]);
    assert db.rows[2] == sub && db.rows[1] == domain;
    assert HangsOnNewlyBlocked(rules, db, 2);
    OneRunFallsShortIff(rules, db);
  }
}
