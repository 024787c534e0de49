/**
 What writing one batch does to the entity rows: every batch entity ends in a row of its
 own name, depths are only ever lowered to a depth that the batch computed, and anchors
 point at the right domain row.
 */
module StoreWrites {
  import opened Schema
  import opened StoreBatch
  import opened DepthLoop
  import opened Database
  import opened StoreDb
  import opened BatchFacts
  import opened EntityStates

  // ------------------------------------------------------------ what every write keeps

  ghost predicate Kept(db: Db, db': Db) {
    && Grows(db, db') && db'.relations == db.relations && db'.logs == db.logs && db'.tags == db.tags
    && forall id :: id in db.rows ==> RowKept(db.rows[id], db'.rows[id])
  }

  /** An anchor once set stays set, a blocked entity stays blocked, a scope flag stays a flag. */
  predicate RowKept(r: Row, r': Row) {
    && (r.anchor.Some? ==> r'.anchor.Some?)
    && (r.scope == Some(true) ==> r'.scope == Some(true)) && (r.scope.Some? ==> r'.scope.Some?)
  }

  ghost predicate Advances(w: Written, w': Written) {
    Kept(w.db, w'.db) && forall v :: v in w.resolved ==> v in w'.resolved && w'.resolved[v] == w.resolved[v]
  }

  /** The row says what the batch entity says. */
  predicate Matches(b: Batch, v: nat, resolved: map<nat, nat>, row: Row) {
    && b.Has(v) && row.etype == b.Item(v).fields.etype && row.value == b.Item(v).fields.value
    && row.category == b.Item(v).fields.category
    && (IsProperty(b.Item(v)) ==> b.Item(v).parentID in resolved && row.parent == Some(resolved[b.Item(v).parentID]))
  }

  ghost predicate ResolvedOK(b: Batch, w: Written) {
    forall v :: v in w.resolved ==> w.resolved[v] in w.db.rows && Matches(b, v, w.resolved, w.db.rows[w.resolved[v]])
  }

  /** The row of `v` is at most as deep as the batch found `v` to be, and blocked if `v` is. */
  ghost predicate Lowered(st: States, w: Written, v: nat) {
    v < |st| && v in w.resolved && w.resolved[v] in w.db.rows && AtMost(w.db.rows[w.resolved[v]], st[v])
  }

  predicate AtMost(row: Row, s: EntityState) {
    row.strict <= s.strict && row.relaxed <= s.relaxed && (s.outOfScope ==> row.scope == Some(true))
  }

  /** The root alone may have no row written: when it is a property. */
  predicate Storable(b: Batch, v: nat) {
    b.Has(v) && (IsNode(b.Item(v)) || IsProperty(b.Item(v)))
  }

  /** A row's depths are those it had, or those of a batch entity that it stands for. */
  ghost predicate StrictSourced(db: Db, b: Batch, st: States, w: Written, id: nat)
    requires id in w.db.rows
  {
    || (id in db.rows && w.db.rows[id].strict == db.rows[id].strict)
    || exists v :: v in w.resolved && v < |st| && w.resolved[v] == id && Storable(b, v)
                   && w.db.rows[id].strict == st[v].strict
  }

  ghost predicate RelaxedSourced(db: Db, b: Batch, st: States, w: Written, id: nat)
    requires id in w.db.rows
  {
    || (id in db.rows && w.db.rows[id].relaxed == db.rows[id].relaxed)
    || exists v :: v in w.resolved && v < |st| && w.resolved[v] == id && Storable(b, v)
                   && w.db.rows[id].relaxed == st[v].relaxed
  }

  ghost predicate Sourced(db: Db, b: Batch, st: States, w: Written) {
    forall id :: id in w.db.rows ==> StrictSourced(db, b, st, w, id) && RelaxedSourced(db, b, st, w, id)
  }

  ghost predicate WriteInv(db: Db, b: Batch, anchorOf: AnchorFn, st: States, w: Written) {
    TableOK(w.db) && AnchorsOK(w.db, anchorOf) && Kept(db, w.db) && ResolvedOK(b, w) && Sourced(db, b, st, w)
  }

  /** One or more writes lead from `w` to `w'`. */
  ghost predicate Wrote(db: Db, b: Batch, anchorOf: AnchorFn, st: States, w: Written, w': Written) {
    WriteInv(db, b, anchorOf, st, w') && Advances(w, w')
  }

  /** The batch and its states, as far as the writer relies on them. */
  ghost predicate Writable(b: Batch, anchorOf: AnchorFn, st: States) {
    && |st| == |b.entities| + 1 && StatesOK(b, anchorOf, st)
    && Indexed(b) && PlainEntities(b) && EntitiesOK(b.entities)
  }

  /** An entity can be written: it is a node, or a property whose parent has a row. */
  predicate CanWrite(b: Batch, v: nat, resolved: map<nat, nat>) {
    b.Has(v) && (IsNode(b.Item(v)) || (IsProperty(b.Item(v)) && b.Item(v).parentID in resolved))
  }

  // ------------------------------------------------------------ one row

  lemma AnchorRowOK(b: Batch, anchorOf: AnchorFn, st: States, v: nat, w: Written)
    requires Indexed(b) && StatesOK(b, anchorOf, st) && ResolvedOK(b, w) && b.Has(v)
    requires AnchorRow(b, st[v], w.resolved).Some?
    ensures var a := AnchorRow(b, st[v], w.resolved).value;
            && IsNode(b.Item(v)) && AnchorNameOf(b, anchorOf, v) != "" && a in w.db.rows
            && w.db.rows[a].etype == ANCHOR_TYPE && w.db.rows[a].value == AnchorNameOf(b, anchorOf, v)
            && w.db.rows[a].category != "property"
  {
    assert StateOK(b, anchorOf, st, v);
    var key := NodeKey(ANCHOR_TYPE, st[v].anchor);
    assert IsNodeAt(b, b.nodeIndex[key], key);
    assert Matches(b, b.nodeIndex[key], w.resolved, w.db.rows[w.resolved[b.nodeIndex[key]]]);
  }

  lemma RowForFits(b: Batch, anchorOf: AnchorFn, st: States, v: nat, w: Written)
    requires Writable(b, anchorOf, st) && ResolvedOK(b, w) && CanWrite(b, v, w.resolved)
    ensures var row := RowFor(b, st, v, w.resolved);
            && RowFits(w.db, row) && Matches(b, v, w.resolved, row)
            && row.strict == st[v].strict && row.relaxed == st[v].relaxed && row.scope == Some(st[v].outOfScope)
  {
    assert StateOK(b, anchorOf, st, v);
    assert PlainCategory(b.entities[v - 1].fields.category);
    if IsProperty(b.Item(v)) {
      var p := b.Item(v).parentID;
      assert w.resolved[p] in w.db.rows;
    }
  }

  lemma SameRowMatches(b: Batch, v: nat, resolved: map<nat, nat>, resolved': map<nat, nat>, row: Row, row': Row)
    requires Matches(b, v, resolved, row) && SameRow(row, row')
    requires forall u :: u in resolved ==> u in resolved' && resolved'[u] == resolved[u]
    ensures Matches(b, v, resolved', row')
  {
  }

  /** Writing an entity that already has a row finds that row again. */
  lemma FindsAgain(b: Batch, anchorOf: AnchorFn, st: States, v: nat, w: Written)
    requires Writable(b, anchorOf, st) && ResolvedOK(b, w) && CanWrite(b, v, w.resolved) && TableOK(w.db)
    requires v in w.resolved
    ensures UpsertID(w.db, RowFor(b, st, v, w.resolved)) == w.resolved[v]
  {
    hide Indexed, EntitiesOK, StatesOK, PlainEntities;
    RowForFits(b, anchorOf, st, v, w);
    var row := RowFor(b, st, v, w.resolved);
    UpsertRows(w.db, row);
    var rid := w.resolved[v];
    assert Matches(b, v, w.resolved, w.db.rows[rid]);
    assert Collides(w.db.rows[rid], row);
    assert Collides(w.db.rows[UpsertID(w.db, row)], w.db.rows[rid]);
  }

  lemma UpsertKept(db: Db, row: Row)
    requires TableOK(db) && RowFits(db, row) && row.scope.Some?
    ensures Kept(db, Upsert(db, row))
  {
    UpsertRows(db, row);
    UpsertGrows(db, row);
    hide TableOK, RowFits, Grows;
  }

  lemma ResolvedGrows(w: Written, v: nat, id: nat)
    requires v in w.resolved ==> w.resolved[v] == id
    ensures forall u :: u in w.resolved ==> w.resolved[v := id][u] == w.resolved[u]
  {
  }

  lemma WriteOneGrows(b: Batch, anchorOf: AnchorFn, st: States, v: nat, w: Written)
    requires Writable(b, anchorOf, st) && ResolvedOK(b, w) && CanWrite(b, v, w.resolved) && TableOK(w.db)
    ensures Advances(w, WriteOne(b, st, v, w)) && TableOK(WriteOne(b, st, v, w).db)
  {
    assert b.Has(v) && |st| == |b.entities| + 1;
    hide Writable, ResolvedOK, Matches, RowFor, TableOK, RowFits, Upsert, UpsertID, Kept, CanWrite;
    RowForFits(b, anchorOf, st, v, w);
    var row := RowFor(b, st, v, w.resolved);
    if v in w.resolved {
      FindsAgain(b, anchorOf, st, v, w);
    }
    UpsertKept(w.db, row);
    UpsertTable(w.db, row);
    ResolvedGrows(w, v, UpsertID(w.db, row));
  }

  lemma WriteOneResolves(b: Batch, anchorOf: AnchorFn, st: States, v: nat, w: Written)
    requires Writable(b, anchorOf, st) && ResolvedOK(b, w) && CanWrite(b, v, w.resolved) && TableOK(w.db)
    ensures ResolvedOK(b, WriteOne(b, st, v, w))
  {
    hide Indexed, EntitiesOK, StatesOK, PlainEntities;
    RowForFits(b, anchorOf, st, v, w);
    WriteOneGrows(b, anchorOf, st, v, w);
    UpsertRows(w.db, RowFor(b, st, v, w.resolved));
    hide TableOK, RowFits, Upsert, UpsertID, RowFor, Matches;
    var w' := WriteOne(b, st, v, w);
    forall u | u in w'.resolved
      ensures w'.resolved[u] in w'.db.rows && Matches(b, u, w'.resolved, w'.db.rows[w'.resolved[u]])
    {
      if u == v {
        WrittenMatches(b, st, v, w, w');
      } else {
        SameRowMatches(b, u, w.resolved, w'.resolved, w.db.rows[w.resolved[u]], w'.db.rows[w'.resolved[u]]);
      }
    }
  }

  lemma WrittenMatches(b: Batch, st: States, v: nat, w: Written, w': Written)
    requires b.Has(v) && |st| == |b.entities| + 1 && v in w'.resolved && Advances(w, w')
    requires var row := RowFor(b, st, v, w.resolved);
             var id := w'.resolved[v];
             && Matches(b, v, w.resolved, row) && (id in w.db.rows ==> Collides(w.db.rows[id], row))
             && id in w'.db.rows && w'.db.rows[id] == if id in w.db.rows then MergeRow(w.db.rows[id], row) else row
    requires RowFits(w.db, RowFor(b, st, v, w.resolved)) && TableOK(w.db)
    ensures Matches(b, v, w'.resolved, w'.db.rows[w'.resolved[v]])
  {
    hide Kept;
  }

  lemma WriteOneAnchors(b: Batch, anchorOf: AnchorFn, st: States, v: nat, w: Written)
    requires Writable(b, anchorOf, st) && ResolvedOK(b, w) && CanWrite(b, v, w.resolved) && TableOK(w.db)
    requires AnchorsOK(w.db, anchorOf)
    ensures AnchorsOK(WriteOne(b, st, v, w).db, anchorOf)
  {
    hide Indexed, EntitiesOK, StatesOK, PlainEntities;
    RowForFits(b, anchorOf, st, v, w);
    var row := RowFor(b, st, v, w.resolved);
    UpsertRows(w.db, row);
    if row.anchor.Some? {
      AnchorRowOK(b, anchorOf, st, v, w);
      assert RowOK(w.db, row.anchor.value, w.db.rows[row.anchor.value]);
    }
  }

  lemma WriteOneLowers(b: Batch, anchorOf: AnchorFn, st: States, v: nat, w: Written)
    requires Writable(b, anchorOf, st) && ResolvedOK(b, w) && CanWrite(b, v, w.resolved) && TableOK(w.db)
    ensures Lowered(st, WriteOne(b, st, v, w), v)
  {
    RowForFits(b, anchorOf, st, v, w);
    UpsertRows(w.db, RowFor(b, st, v, w.resolved));
    hide TableOK, Matches, RowFits, Upsert, UpsertID, Indexed, EntitiesOK, PlainEntities, StatesOK;
  }

  lemma MergedSourced(db: Db, b: Batch, st: States, v: nat, w: Written, w': Written, row: Row)
    requires v < |st| && Storable(b, v) && row.strict == st[v].strict && row.relaxed == st[v].relaxed
             && v in w'.resolved
    requires forall u :: u in w.resolved ==> u in w'.resolved && w'.resolved[u] == w.resolved[u]
    requires var id := w'.resolved[v];
             w'.db.rows == w.db.rows[id := if id in w.db.rows then MergeRow(w.db.rows[id], row) else row]
    requires Sourced(db, b, st, w)
    ensures Sourced(db, b, st, w')
  {
    forall id | id in w'.db.rows
      ensures StrictSourced(db, b, st, w', id) && RelaxedSourced(db, b, st, w', id)
    {
      if id in w.db.rows {
        assert StrictSourced(db, b, st, w, id) && RelaxedSourced(db, b, st, w, id);
      }
    }
  }

  lemma WriteOneSourced(db: Db, b: Batch, anchorOf: AnchorFn, st: States, v: nat, w: Written)
    requires Writable(b, anchorOf, st) && ResolvedOK(b, w) && CanWrite(b, v, w.resolved) && TableOK(w.db)
    requires Sourced(db, b, st, w)
    ensures Sourced(db, b, st, WriteOne(b, st, v, w))
  {
    hide Indexed, EntitiesOK, PlainEntities, StatesOK, Sourced, Matches, Kept;
    RowForFits(b, anchorOf, st, v, w);
    WriteOneGrows(b, anchorOf, st, v, w);
    hide ResolvedOK;
    UpsertRows(w.db, RowFor(b, st, v, w.resolved));
    hide TableOK, RowFits, Upsert, UpsertID;
    MergedSourced(db, b, st, v, w, WriteOne(b, st, v, w), RowFor(b, st, v, w.resolved));
  }

  lemma KeptTrans(db: Db, db1: Db, db2: Db)
    requires Kept(db, db1) && Kept(db1, db2)
    ensures Kept(db, db2)
  {
  }

  lemma WriteOneKeeps(db: Db, b: Batch, anchorOf: AnchorFn, st: States, v: nat, w: Written)
    requires Writable(b, anchorOf, st) && CanWrite(b, v, w.resolved) && WriteInv(db, b, anchorOf, st, w)
    ensures Wrote(db, b, anchorOf, st, w, WriteOne(b, st, v, w))
    ensures Lowered(st, WriteOne(b, st, v, w), v)
    ensures w.resolved.Keys + {v} <= WriteOne(b, st, v, w).resolved.Keys
  {
    WriteOneGrows(b, anchorOf, st, v, w);
    WriteOneResolves(b, anchorOf, st, v, w);
    WriteOneAnchors(b, anchorOf, st, v, w);
    WriteOneLowers(b, anchorOf, st, v, w);
    WriteOneSourced(db, b, anchorOf, st, v, w);
    KeptTrans(db, w.db, WriteOne(b, st, v, w).db);
    hide Writable, ResolvedOK, TableOK, AnchorsOK, Sourced, CanWrite, Kept, WriteOne, Lowered;
  }

  // ------------------------------------------------------------ many rows

  predicate Ready(b: Batch, resolved: map<nat, nat>, ids: seq<nat>) {
    forall i :: 0 <= i < |ids| ==>
      && b.Has(ids[i]) && (IsNode(b.Item(ids[i])) || IsProperty(b.Item(ids[i])))
      && (IsProperty(b.Item(ids[i])) ==> b.Item(ids[i]).parentID in resolved || b.Item(ids[i]).parentID in ids[..i])
  }

  lemma ReadyAfterFirst(b: Batch, resolved: map<nat, nat>, resolved': map<nat, nat>, ids: seq<nat>, i: nat)
    requires Ready(b, resolved, ids) && i + 1 < |ids| && ids[0] in resolved' && resolved.Keys <= resolved'.Keys
    ensures b.Has(ids[1..][i]) && (IsNode(b.Item(ids[1..][i])) || IsProperty(b.Item(ids[1..][i])))
    ensures IsProperty(b.Item(ids[1..][i])) ==>
              b.Item(ids[1..][i]).parentID in resolved' || b.Item(ids[1..][i]).parentID in ids[1..][..i]
  {
    assert ids[1..][i] == ids[i + 1];
    assert ids[..i + 1] == [ids[0]] + ids[1..][..i];
  }

  lemma ReadyNext(b: Batch, resolved: map<nat, nat>, resolved': map<nat, nat>, ids: seq<nat>)
    requires Ready(b, resolved, ids) && ids != [] && ids[0] in resolved' && resolved.Keys <= resolved'.Keys
    ensures CanWrite(b, ids[0], resolved) && Ready(b, resolved', ids[1..])
  {
    assert CanWrite(b, ids[0], resolved);
    hide IsNode, IsProperty, CanWrite;
    assert Ready(b, resolved', ids[1..]) by {
      forall i: nat | i < |ids| - 1
        ensures b.Has(ids[1..][i]) && (IsNode(b.Item(ids[1..][i])) || IsProperty(b.Item(ids[1..][i])))
        ensures IsProperty(b.Item(ids[1..][i])) ==>
                  b.Item(ids[1..][i]).parentID in resolved' || b.Item(ids[1..][i]).parentID in ids[1..][..i]
      {
        ReadyAfterFirst(b, resolved, resolved', ids, i);
      }
    }
  }

  lemma LoweredKept(st: States, w: Written, w': Written, v: nat)
    requires Lowered(st, w, v) && Advances(w, w')
    ensures Lowered(st, w', v)
  {
  }

  lemma WroteTrans(db: Db, b: Batch, anchorOf: AnchorFn, st: States, w: Written, w1: Written, w2: Written)
    requires Wrote(db, b, anchorOf, st, w, w1) && Wrote(db, b, anchorOf, st, w1, w2)
    ensures Wrote(db, b, anchorOf, st, w, w2)
  {
    hide WriteInv;
  }

  lemma {:induction false} WriteAllKeeps(db: Db, b: Batch, anchorOf: AnchorFn, st: States, ids: seq<nat>, w: Written)
    requires Writable(b, anchorOf, st) && |st| == |b.entities| + 1
    requires (forall i :: 0 <= i < |ids| ==> b.Has(ids[i]))
    requires Ready(b, w.resolved, ids) && WriteInv(db, b, anchorOf, st, w)
    ensures Wrote(db, b, anchorOf, st, w, WriteAll(b, st, ids, w))
    ensures forall i :: 0 <= i < |ids| ==> Lowered(st, WriteAll(b, st, ids, w), ids[i])
    decreases |ids|
  {
    if ids == [] {
      hide WriteInv;
    } else {
      hide Writable, WriteInv, CanWrite, Advances, Ready, WriteOne, Lowered;
      ReadyNext(b, w.resolved, w.resolved[ids[0] := 0], ids);
      WriteOneKeeps(db, b, anchorOf, st, ids[0], w);
      var w1 := WriteOne(b, st, ids[0], w);
      ReadyNext(b, w.resolved, w1.resolved, ids);
      WriteAllKeeps(db, b, anchorOf, st, ids[1..], w1);
      var w2 := WriteAll(b, st, ids[1..], w1);
      WroteTrans(db, b, anchorOf, st, w, w1, w2);
      LoweredKept(st, w1, w2, ids[0]);
      assert forall i :: 0 < i < |ids| ==> ids[i] == ids[1..][i - 1];
    }
  }
  // ------------------------------------------------------------ anchor links

  /** Setting an anchor leaves everything else of the row. */
  predicate OnlyAnchored(db: Db, db': Db, id: nat, a: nat) {
    id in db.rows && db' == db.(rows := db.rows[id := db.rows[id].(anchor := Some(a))])
  }

  lemma OnlyAnchoredTable(db: Db, db': Db, id: nat, a: nat)
    requires OnlyAnchored(db, db', id, a) && TableOK(db)
    ensures TableOK(db')
  {
    forall i | i in db'.rows ensures RowOK(db', i, db'.rows[i]) {
      assert RowOK(db, i, db.rows[i]);
    }
    forall i, j | i in db'.rows && j in db'.rows && Collides(db'.rows[i], db'.rows[j]) ensures i == j {
      assert Collides(db.rows[i], db.rows[j]);
    }
  }

  lemma OnlyAnchoredKept(db: Db, db': Db, id: nat, a: nat)
    requires OnlyAnchored(db, db', id, a)
    ensures Kept(db, db')
  {
  }

  lemma OnlyAnchoredSourced(db: Db, b: Batch, st: States, w: Written, w': Written, id: nat, a: nat)
    requires OnlyAnchored(w.db, w'.db, id, a) && w'.resolved == w.resolved && Sourced(db, b, st, w)
    ensures Sourced(db, b, st, w')
  {
    forall i | i in w'.db.rows
      ensures StrictSourced(db, b, st, w', i) && RelaxedSourced(db, b, st, w', i)
    {
      assert StrictSourced(db, b, st, w, i) && RelaxedSourced(db, b, st, w, i);
    }
  }

  lemma SyncOneAnchors(b: Batch, anchorOf: AnchorFn, st: States, v: nat, w: Written, w': Written)
    requires Writable(b, anchorOf, st) && b.Has(v) && ResolvedOK(b, w) && TableOK(w.db) && AnchorsOK(w.db, anchorOf)
    requires v in w.resolved && AnchorRow(b, st[v], w.resolved).Some?
    requires OnlyAnchored(w.db, w'.db, w.resolved[v], AnchorRow(b, st[v], w.resolved).value)
    ensures AnchorsOK(w'.db, anchorOf)
  {
    hide EntitiesOK;
    AnchorRowOK(b, anchorOf, st, v, w);
    var a := AnchorRow(b, st[v], w.resolved).value;
    assert RowOK(w.db, a, w.db.rows[a]) && Matches(b, v, w.resolved, w.db.rows[w.resolved[v]]);
    assert PlainCategory(b.entities[v - 1].fields.category);
  }

  lemma SyncOneKeeps(db: Db, b: Batch, anchorOf: AnchorFn, st: States, v: nat, w: Written)
    requires Writable(b, anchorOf, st) && b.Has(v) && v < |st| && WriteInv(db, b, anchorOf, st, w)
    ensures Wrote(db, b, anchorOf, st, w, SyncOne(b, st, v, w)) && SyncOne(b, st, v, w).resolved == w.resolved
    ensures v in w.resolved && AnchorRow(b, st[v], w.resolved).Some? ==>
              w.resolved[v] in SyncOne(b, st, v, w).db.rows && SyncOne(b, st, v, w).db.rows[w.resolved[v]].anchor.Some?
  {
    hide Writable, TableOK, AnchorsOK, Sourced;
    var w' := SyncOne(b, st, v, w);
    KeptSelf(w.db);
    if v in w.resolved && AnchorRow(b, st[v], w.resolved).Some? {
      assert Matches(b, v, w.resolved, w.db.rows[w.resolved[v]]);
      hide AnchorRow;
      var id, a := w.resolved[v], AnchorRow(b, st[v], w.resolved).value;
      assert OnlyAnchored(w.db, w'.db, id, a);
      OnlyAnchoredTable(w.db, w'.db, id, a);
      OnlyAnchoredKept(w.db, w'.db, id, a);
      OnlyAnchoredSourced(db, b, st, w, w', id, a);
      SyncOneAnchors(b, anchorOf, st, v, w, w');
      OnlyAnchoredResolved(b, w, w', id, a);
      KeptTrans(db, w.db, w'.db);
      hide OnlyAnchored, ResolvedOK, Kept, SyncOne;
    }
  }

  lemma KeptSelf(db: Db)
    ensures Kept(db, db)
  {
  }

  lemma OnlyAnchoredResolved(b: Batch, w: Written, w': Written, id: nat, a: nat)
    requires OnlyAnchored(w.db, w'.db, id, a) && w'.resolved == w.resolved && ResolvedOK(b, w)
    ensures ResolvedOK(b, w')
  {
  }

  /** A node whose anchor the batch knows is linked to it. */
  ghost predicate AnchorLinked(b: Batch, st: States, w: Written, v: nat) {
    v < |st| && st[v].anchor != "" && NodeKey(ANCHOR_TYPE, st[v].anchor) in b.nodeIndex ==>
      v in w.resolved && w.resolved[v] in w.db.rows && w.db.rows[w.resolved[v]].anchor.Some?
  }

  ghost predicate NodesResolved(b: Batch, resolved: map<nat, nat>) {
    forall v: nat :: b.Has(v) && IsNode(b.Item(v)) ==> v in resolved
  }

  lemma SyncOneLinks(db: Db, b: Batch, anchorOf: AnchorFn, st: States, v: nat, w: Written)
    requires Writable(b, anchorOf, st) && b.Has(v) && v < |st| && WriteInv(db, b, anchorOf, st, w)
    requires NodesResolved(b, w.resolved) && IsNode(b.Item(v))
    ensures AnchorLinked(b, st, SyncOne(b, st, v, w), v)
  {
    SyncOneKeeps(db, b, anchorOf, st, v, w);
    var key := NodeKey(ANCHOR_TYPE, st[v].anchor);
    if key in b.nodeIndex {
      assert IsNodeAt(b, b.nodeIndex[key], key);
    }
    assert v in w.resolved;
    hide Writable, WriteInv, SyncOne, Wrote, NodesResolved;
  }

  lemma LinkedKept(b: Batch, st: States, w: Written, w': Written, v: nat)
    requires AnchorLinked(b, st, w, v) && Advances(w, w')
    ensures AnchorLinked(b, st, w', v)
  {
  }

  lemma {:induction false} SyncAllKeeps(db: Db, b: Batch, anchorOf: AnchorFn, st: States, ids: seq<nat>, w: Written)
    requires Writable(b, anchorOf, st) && WriteInv(db, b, anchorOf, st, w) && NodesResolved(b, w.resolved)
    requires forall i :: 0 <= i < |ids| ==> b.Has(ids[i]) && IsNode(b.Item(ids[i])) && ids[i] < |st|
    ensures Wrote(db, b, anchorOf, st, w, SyncAll(b, st, ids, w)) && SyncAll(b, st, ids, w).resolved == w.resolved
    ensures forall i :: 0 <= i < |ids| ==> AnchorLinked(b, st, SyncAll(b, st, ids, w), ids[i])
    decreases |ids|
  {
    if ids == [] {
      hide WriteInv;
    } else {
      hide Writable, WriteInv, SyncOne, Advances, NodesResolved, AnchorLinked;
      assert b.Has(ids[0]);
      SyncOneKeeps(db, b, anchorOf, st, ids[0], w);
      SyncOneLinks(db, b, anchorOf, st, ids[0], w);
      var w1 := SyncOne(b, st, ids[0], w);
      SyncAllKeeps(db, b, anchorOf, st, ids[1..], w1);
      var w2 := SyncAll(b, st, ids[1..], w1);
      WroteTrans(db, b, anchorOf, st, w, w1, w2);
      LinkedKept(b, st, w1, w2, ids[0]);
      assert forall i :: 0 < i < |ids| ==> ids[i] == ids[1..][i - 1];
    }
  }
}
