/**
 The project database: tables as maps and sets, the upsert rule that the repository's SQL
 statements share, and the invariants of every reachable database.
 */
module Database {
  import opened Schema
  import opened Tags
  import opened DepthLoop

  /** A row of the entities table. `scope` is the three-valued out_of_scope column. */
  datatype Row = Row(
    etype: string, value: string, category: string, scope: Option<bool>, isAnchor: bool,
    strict: nat, relaxed: nat, parent: Option<nat>, anchor: Option<nat>)

  datatype LogKey = LogKey(entity: nat, moduleName: string, function_: string)

  /** `target` is the row id of the project's initial target. */
  datatype Db = Db(
    target: nat, rows: map<nat, Row>, nextID: nat, relations: set<(nat, nat)>,
    tags: set<(nat, string)>, logs: map<LogKey, bool>)

  // ------------------------------------------------------------ columns as queries read them

  /** COALESCE(e.out_of_scope, a.out_of_scope, 0) */
  function EffectiveScope(db: Db, row: Row): bool {
    if row.scope.Some? then row.scope.value
    else if row.anchor.Some? && row.anchor.value in db.rows && db.rows[row.anchor.value].scope.Some?
    then db.rows[row.anchor.value].scope.value
    else false
  }

  /** Blocked by the row's own flag, or for want of one by the flag of its anchor. */
  predicate BlockedNow(db: Db, row: Row) {
    || row.scope == Some(true)
    || (row.scope == None && row.anchor.Some? && row.anchor.value in db.rows
        && db.rows[row.anchor.value].scope == Some(true))
  }

  /** COALESCE(a.depth_relaxed, e.depth_relaxed) */
  function EffectiveRelaxed(db: Db, row: Row): nat {
    if row.anchor.Some? && row.anchor.value in db.rows then db.rows[row.anchor.value].relaxed else row.relaxed
  }

  function AnchorName(db: Db, row: Row): string {
    if row.anchor.Some? && row.anchor.value in db.rows then db.rows[row.anchor.value].value else ""
  }

  // ------------------------------------------------------------ upserts

  /** A value OR NULL: only a true operand decides. */
  function SqlOr(a: Option<bool>, b: Option<bool>): Option<bool> {
    if a == Some(true) || b == Some(true) then Some(true)
    else if a.None? || b.None? then None
    else Some(false)
  }

  /** DO UPDATE SET: OR of scope, MIN of depths, COALESCE of anchor. */
  function MergeRow(old_: Row, new_: Row): Row {
    old_.(scope := SqlOr(old_.scope, new_.scope), category := new_.category, isAnchor := new_.isAnchor,
          strict := Min(old_.strict, new_.strict), relaxed := Min(old_.relaxed, new_.relaxed),
          anchor := if new_.anchor.Some? then new_.anchor else old_.anchor)
  }

  predicate SameNode(r: Row, etype: string, value: string) {
    r.category == "node" && r.etype == etype && r.value == value
  }

  predicate SameProperty(r: Row, etype: string, value: string, parent: Option<nat>) {
    r.category == "property" && r.etype == etype && r.value == value && r.parent == parent
  }

  /** The two partial unique indexes decide which row an insert collides with. */
  predicate Collides(r: Row, row: Row) {
    if row.category == "node" then SameNode(r, row.etype, row.value)
    else row.category == "property" && SameProperty(r, row.etype, row.value, row.parent)
  }

  ghost function Find(db: Db, row: Row): (found: Option<nat>)
    ensures found.Some? ==> found.value in db.rows && Collides(db.rows[found.value], row)
    ensures found.None? ==> forall id :: id in db.rows ==> !Collides(db.rows[id], row)
  {
    if id :| id in db.rows && Collides(db.rows[id], row) then Some(id) else None
  }

  ghost function UpsertID(db: Db, row: Row): nat {
    var found := Find(db, row);
    if found.Some? then found.value else db.nextID
  }

  ghost function Upsert(db: Db, row: Row): Db {
    var found := Find(db, row);
    if found.Some? then db.(rows := db.rows[found.value := MergeRow(db.rows[found.value], row)])
    else db.(rows := db.rows[db.nextID := row], nextID := db.nextID + 1)
  }

  // ------------------------------------------------------------ invariants

  type AnchorFn = (string, string) -> string

  predicate RowOK(db: Db, id: nat, row: Row) {
    && 0 < id < db.nextID
    && (row.category == "node" || row.category == "property")
    && (row.category == "property" <==> row.parent.Some?)
    && (row.parent.Some? ==> row.parent.value in db.rows && row.parent.value < id)
    && row.strict <= UNRESOLVED && row.relaxed <= UNRESOLVED
  }

  /** Ids are in range, parents precede children, and the unique indexes hold. */
  ghost predicate TableOK(db: Db) {
    && db.target in db.rows
    && (forall id :: id in db.rows ==> RowOK(db, id, db.rows[id]))
    && (forall i, j :: i in db.rows && j in db.rows && Collides(db.rows[i], db.rows[j]) ==> i == j)
  }

  /** A property is reached by relations from its parent only. */
  ghost predicate RelationsOK(db: Db) {
    forall s, t :: (s, t) in db.relations ==>
      && s in db.rows && t in db.rows
      && (db.rows[t].category == "property" ==> db.rows[t].parent == Some(s))
  }

  /** An anchored row points at the domain row that its type and value determine. */
  ghost predicate AnchorsOK(db: Db, anchorOf: AnchorFn) {
    forall id :: id in db.rows && db.rows[id].anchor.Some? ==>
      var row := db.rows[id];
      && row.category == "node" && anchorOf(row.etype, row.value) != ""
      && row.anchor.value in db.rows
      && SameNode(db.rows[row.anchor.value], ANCHOR_TYPE, anchorOf(row.etype, row.value))
  }

  // ------------------------------------------------------------ hop distance

  function HopWeight(db: Db, id: nat): nat {
    if id in db.rows && db.rows[id].category == "property" then 0 else 1
  }

  ghost predicate HopPath(db: Db, p: seq<nat>) {
    && p != [] && p[0] == db.target
    && forall k :: 0 <= k < |p| - 1 ==> (p[k], p[k + 1]) in db.relations
  }

  /** The node hops of a path: its entities after the first, properties not counted. */
  ghost function Hops(db: Db, p: seq<nat>): nat {
    if |p| <= 1 then 0 else Hops(db, p[..|p| - 1]) + HopWeight(db, p[|p| - 1])
  }

  /** The stored relations lead from the initial target to `id` in at most `d` node hops. */
  ghost predicate Within(db: Db, id: nat, d: nat) {
    exists p :: HopPath(db, p) && p[|p| - 1] == id && Hops(db, p) <= d
  }

  ghost predicate DepthsSound(db: Db) {
    forall id :: id in db.rows && db.rows[id].strict < UNRESOLVED ==> Within(db, id, db.rows[id].strict)
  }

  /** Unanchored rows: relaxed at most strict.  Anchored rows: the anchor's relaxed depth is.
      A row whose anchor is still to be set has no strict depth yet. */
  predicate RelaxedRowOK(db: Db, anchorOf: AnchorFn, row: Row) {
    if row.anchor.Some? then row.anchor.value in db.rows && db.rows[row.anchor.value].relaxed <= row.strict
    else if row.category == "node" && anchorOf(row.etype, row.value) != "" then
        row.strict == UNRESOLVED && row.relaxed == UNRESOLVED
    else row.relaxed <= row.strict
  }

  ghost predicate RelaxedOK(db: Db, anchorOf: AnchorFn) {
    forall id :: id in db.rows ==> RelaxedRowOK(db, anchorOf, db.rows[id])
  }

  /** Only validated tags are stored. */
  ghost predicate TagsOK(db: Db) {
    forall id, tag :: (id, tag) in db.tags ==> ValidTag(tag)
  }

  ghost predicate DbInv(db: Db, anchorOf: AnchorFn) {
    TagsOK(db) && TableOK(db) && RelationsOK(db) && AnchorsOK(db, anchorOf) && DepthsSound(db)
        && RelaxedOK(db, anchorOf)
  }

  /** Domains are their own registrable name and carry no anchor. */
  ghost predicate AnchorFnOK(anchorOf: AnchorFn) {
    forall value :: anchorOf(ANCHOR_TYPE, value) == ""
  }

  /** A new project: the initial target, and before it the domain it is anchored to, if any. */
  function InitialDb(etype: string, value: string, anchor: string): Db {
    var target := Row(etype, value, "node", None, false, 0, 0, None, None);
    if anchor == "" then Db(1, map[1 := target], 2, {}, {}, map[])
    else
      var domain := Row(ANCHOR_TYPE, anchor, "node", None, true, UNRESOLVED, 0, None, None);
      Db(2, map[1 := domain, 2 := target.(anchor := Some(1))], 3, {}, {}, map[])
  }

  lemma InitialInv(etype: string, value: string, anchorOf: AnchorFn)
    requires AnchorFnOK(anchorOf)
    ensures DbInv(InitialDb(etype, value, anchorOf(etype, value)), anchorOf)
  {
    var db := InitialDb(etype, value, anchorOf(etype, value));
    assert TableOK(db) && RelationsOK(db) && TagsOK(db);
    hide TableOK, RelationsOK, TagsOK;
    TargetWithin(db);
    hide Within;
    assert AnchorsOK(db, anchorOf) && DepthsSound(db);
    hide AnchorsOK, DepthsSound;
    assert RelaxedOK(db, anchorOf);
  }

  /** A project is made with the pair as it was typed and the anchor of the pair as the syntax check
      normalised it: the invariants hold exactly when that is also the anchor of the pair as typed. */
  lemma InitialInvIff(etype: string, value: string, anchor: string, anchorOf: AnchorFn)
    requires AnchorFnOK(anchorOf)
    ensures DbInv(InitialDb(etype, value, anchor), anchorOf) <==> anchor == anchorOf(etype, value)
  {
    var db := InitialDb(etype, value, anchor);
    if anchor == anchorOf(etype, value) {
      InitialInv(etype, value, anchorOf);
    } else {
      assert db.target in db.rows && db.rows[db.target].strict == 0;
      assert !(AnchorsOK(db, anchorOf) && RelaxedOK(db, anchorOf));
    }
  }

  lemma TargetWithin(db: Db)
    ensures Within(db, db.target, 0)
  {
    assert HopPath(db, [db.target]) && Hops(db, [db.target]) == 0;
  }

  // ------------------------------------------------------------ hop distances only shrink

  /** Rows keep their identity and relations are kept. */
  ghost predicate Grows(db: Db, db': Db) {
    && db'.target == db.target && db.relations <= db'.relations && db.nextID <= db'.nextID
    && forall id :: id in db.rows ==> id in db'.rows && SameRow(db.rows[id], db'.rows[id])
  }

  predicate SameRow(r: Row, r': Row) {
    && r'.etype == r.etype && r'.value == r.value && r'.category == r.category && r'.parent == r.parent
    && r'.strict <= r.strict && r'.relaxed <= r.relaxed
  }

  lemma {:induction false} HopsKept(db: Db, db': Db, p: seq<nat>)
    requires Grows(db, db') && RelationsOK(db) && TableOK(db) && HopPath(db, p)
    ensures HopPath(db', p) && Hops(db', p) == Hops(db, p)
    decreases |p|
  {
    if |p| > 1 {
      var q := p[..|p| - 1];
      assert HopPath(db, q);
      HopsKept(db, db', q);
      assert (p[|p| - 2], p[|p| - 1]) in db.relations;
      assert forall k :: 0 <= k < |p| - 1 ==> (p[k], p[k + 1]) in db'.relations;
    }
  }

  lemma WithinKept(db: Db, db': Db, id: nat, d: nat)
    requires Grows(db, db') && RelationsOK(db) && TableOK(db) && Within(db, id, d)
    ensures Within(db', id, d)
  {
    var p :| HopPath(db, p) && p[|p| - 1] == id && Hops(db, p) <= d;
    HopsKept(db, db', p);
  }

  lemma WithinExtends(db: Db, s: nat, t: nat, d: nat)
    requires Within(db, s, d) && (s, t) in db.relations
    ensures Within(db, t, d + HopWeight(db, t))
  {
    var p :| HopPath(db, p) && p[|p| - 1] == s && Hops(db, p) <= d;
    var q := p + [t];
    assert q[..|q| - 1] == p;
    assert HopPath(db, q) && Hops(db, q) == Hops(db, p) + HopWeight(db, t);
  }

  lemma WithinWeakens(db: Db, id: nat, d: nat, d': nat)
    requires Within(db, id, d) && d <= d'
    ensures Within(db, id, d')
  {
  }

  // ------------------------------------------------------------ one upsert keeps the table in order

  /** What the caller of an upsert supplies. */
  predicate RowFits(db: Db, row: Row) {
    && (row.category == "node" || row.category == "property")
    && (row.category == "property" <==> row.parent.Some?)
    && (row.parent.Some? ==> row.parent.value in db.rows)
    && row.strict <= UNRESOLVED && row.relaxed <= UNRESOLVED
  }

  lemma UpsertRows(db: Db, row: Row)
    requires TableOK(db) && RowFits(db, row)
    ensures var id := UpsertID(db, row);
            && Upsert(db, row).rows == db.rows[id := if id in db.rows then MergeRow(db.rows[id], row) else row]
            && (id in db.rows ==> Collides(db.rows[id], row))
            && (id !in db.rows ==> id == db.nextID && forall i :: i in db.rows ==> !Collides(db.rows[i], row))
  {
    assert db.nextID !in db.rows;
  }

  lemma UpsertGrows(db: Db, row: Row)
    requires TableOK(db) && RowFits(db, row)
    ensures Grows(db, Upsert(db, row))
  {
    UpsertRows(db, row);
  }

  lemma UpsertTable(db: Db, row: Row)
    requires TableOK(db) && RowFits(db, row)
    ensures TableOK(Upsert(db, row))
  {
    UpsertRows(db, row);
    var db' := Upsert(db, row);
    var id := UpsertID(db, row);
    forall i | i in db'.rows ensures RowOK(db', i, db'.rows[i]) {
      if i in db.rows {
        assert RowOK(db, i, db.rows[i]);
      }
    }
    forall i, j | i in db'.rows && j in db'.rows && Collides(db'.rows[i], db'.rows[j]) ensures i == j {
      if i in db.rows && j in db.rows {
        assert Collides(db.rows[i], db.rows[j]);
      }
    }
  }
}
