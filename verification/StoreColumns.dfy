/**
 What one committed `Store` call leaves in the scope and anchor-mark columns, row by row, and that
 it changes no row but those of the packet's entities.
 */
module StoreColumns {
  import opened Collections
  import opened Schema
  import opened StoreBatch
  import opened StoreResult
  import opened DepthLoop
  import opened Database
  import opened StoreDb
  import opened BatchFacts
  import opened EntityStates
  import opened StoreWrites
  import opened StoreStep
  import opened StoreKeeps

  // ------------------------------------------------------------ the scope column

  ghost predicate WrittenTo(w: Written, done: set<nat>, id: nat) {
    exists v :: v in done && v in w.resolved && w.resolved[v] == id
  }

  ghost predicate BlockedBy(st: States, w: Written, done: set<nat>, id: nat) {
    exists v :: v in done && v in w.resolved && v < |st| && w.resolved[v] == id && st[v].outOfScope
  }

  predicate WasBlocked(db: Db, id: nat) {
    id in db.rows && db.rows[id].scope == Some(true)
  }

  /** A row is blocked when it was or an entity written to it is; otherwise it is in scope, unless it
      had no flag.  A row that no entity was written to is as it was. */
  ghost predicate ScopeColumn(db: Db, st: States, w: Written, done: set<nat>) {
    forall id :: id in w.db.rows ==> ScopeCell(db, st, w, done, id)
  }

  ghost predicate ScopeCell(db: Db, st: States, w: Written, done: set<nat>, id: nat)
    requires id in w.db.rows
  {
    && (w.db.rows[id].scope == Some(true) <==> WasBlocked(db, id) || BlockedBy(st, w, done, id))
    && (WrittenTo(w, done, id) && w.db.rows[id].scope != Some(true) ==>
          w.db.rows[id].scope == if id in db.rows && db.rows[id].scope == None then None else Some(false))
    && (!WrittenTo(w, done, id) ==> id in db.rows && w.db.rows[id] == db.rows[id])
  }

  /** One row written, as far as the columns are concerned. */
  ghost predicate Wrote1(st: States, w: Written, w': Written, v: nat, row: Row) {
    && v < |st| && row.scope == Some(st[v].outOfScope)
    && v in w'.resolved && w'.resolved == w.resolved[v := w'.resolved[v]]
    && (v in w.resolved ==> w'.resolved[v] == w.resolved[v])
    && var id := w'.resolved[v];
       w'.db.rows == w.db.rows[id := if id in w.db.rows then MergeRow(w.db.rows[id], row) else row]
  }

  lemma WritersStay(st: States, w: Written, w': Written, v: nat, row: Row, done: set<nat>, id: nat)
    requires Wrote1(st, w, w', v, row) && forall u <- done :: u in w.resolved
    ensures WrittenTo(w', done + {v}, id) <==> WrittenTo(w, done, id) || id == w'.resolved[v]
    ensures BlockedBy(st, w', done + {v}, id) <==>
              BlockedBy(st, w, done, id) || (id == w'.resolved[v] && st[v].outOfScope)
  {
  }

  lemma ScopeOneRow(db: Db, st: States, w: Written, w': Written, v: nat, row: Row, done: set<nat>)
    requires Wrote1(st, w, w', v, row) && ScopeColumn(db, st, w, done)
    requires forall u <- done :: u in w.resolved && w.resolved[u] in w.db.rows
    requires forall id :: id in db.rows ==> id in w.db.rows
    ensures ScopeColumn(db, st, w', done + {v})
  {
    forall id | id in w'.db.rows ensures ScopeCell(db, st, w', done + {v}, id) {
      WritersStay(st, w, w', v, row, done, id);
      hide WrittenTo, BlockedBy;
      if id in w.db.rows {
        assert ScopeCell(db, st, w, done, id);
      } else {
        NewRowUnwritten(db, st, w, done, id);
      }
    }
  }

  /** No entity was written to a row that is not there. */
  lemma NewRowUnwritten(db: Db, st: States, w: Written, done: set<nat>, id: nat)
    requires forall i :: i in db.rows ==> i in w.db.rows
    requires forall u <- done :: u in w.resolved && w.resolved[u] in w.db.rows
    requires id !in w.db.rows
    ensures !WasBlocked(db, id) && !WrittenTo(w, done, id) && !BlockedBy(st, w, done, id)
  {
  }

  // ------------------------------------------------------------ the anchor mark

  /** A node's row is a mere anchor exactly when the node ends as one. */
  ghost predicate MarkColumn(b: Batch, st: States, w: Written, done: set<nat>) {
    forall v <- done :: v < |st| && b.Has(v) && v in w.resolved && w.resolved[v] in w.db.rows
                        && (IsNode(b.Item(v)) ==> w.db.rows[w.resolved[v]].isAnchor == st[v].isAnchor)
  }

  /** No two nodes of the batch bear the same name. */
  ghost predicate NodesDiffer(b: Batch) {
    forall u, v :: b.Has(u) && b.Has(v) && IsNode(b.Item(u)) && IsNode(b.Item(v))
                   && KeyOf(b.Item(u)) == KeyOf(b.Item(v))
      ==> u == v
  }

  lemma BatchNodesDiffer(b: Batch)
    requires WellFormed(b)
    ensures NodesDiffer(b)
  {
    NodeIndexMeaning(b.entities);
    hide Unique, PlainScan;
    assert IndexesNodes(b.entities, b.nodeIndex);
    forall u, v | b.Has(u) && b.Has(v) && IsNode(b.Item(u)) && IsNode(b.Item(v)) && KeyOf(b.Item(u)) == KeyOf(b.Item(v))
      ensures u == v
    {
      assert b.Item(u) == b.entities[u - 1] && b.Item(v) == b.entities[v - 1];
    }
  }

  /** Two nodes are never stored in one row, nor a node with a property. */
  lemma OwnRow(b: Batch, w: Written, u: nat, v: nat)
    requires ResolvedOK(b, w) && NodesDiffer(b) && PlainEntities(b) && EntitiesOK(b.entities)
    requires u in w.resolved && v in w.resolved && w.resolved[u] == w.resolved[v]
    requires b.Has(u) && b.Has(v) && IsNode(b.Item(u)) && Storable(b, v)
    ensures u == v
  {
    var row := w.db.rows[w.resolved[u]];
    assert Matches(b, u, w.resolved, row) && Matches(b, v, w.resolved, row);
    assert PlainCategory(b.entities[u - 1].fields.category) && PlainCategory(b.entities[v - 1].fields.category);
  }

  lemma MarkOneRow(b: Batch, st: States, w: Written, w': Written, v: nat, row: Row, done: set<nat>)
    requires Wrote1(st, w, w', v, row) && MarkColumn(b, st, w, done) && ResolvedOK(b, w')
    requires NodesDiffer(b) && PlainEntities(b) && EntitiesOK(b.entities) && Storable(b, v)
    requires (IsNode(b.Item(v)) ==> row.isAnchor == st[v].isAnchor)
    ensures MarkColumn(b, st, w', done + {v})
  {
    forall u | u in done + {v}
      ensures u < |st| && b.Has(u) && u in w'.resolved && w'.resolved[u] in w'.db.rows
      ensures IsNode(b.Item(u)) ==> w'.db.rows[w'.resolved[u]].isAnchor == st[u].isAnchor
    {
      if u != v && IsNode(b.Item(u)) && w'.resolved[u] == w'.resolved[v] {
        OwnRow(b, w', u, v);
      }
    }
  }

  // ------------------------------------------------------------ all writes of a call

  /** Both columns, after the entities in `done` were written. */
  ghost predicate Columns(db: Db, b: Batch, st: States, w: Written, done: set<nat>) {
    ScopeColumn(db, st, w, done) && MarkColumn(b, st, w, done)
  }

  lemma OneWritten(b: Batch, anchorOf: AnchorFn, st: States, v: nat, w: Written)
    requires Writable(b, anchorOf, st) && CanWrite(b, v, w.resolved) && ResolvedOK(b, w) && TableOK(w.db)
    ensures Wrote1(st, w, WriteOne(b, st, v, w), v, RowFor(b, st, v, w.resolved))
    ensures IsNode(b.Item(v)) ==> RowFor(b, st, v, w.resolved).isAnchor == st[v].isAnchor
  {
    RowForFits(b, anchorOf, st, v, w);
    UpsertRows(w.db, RowFor(b, st, v, w.resolved));
    if v in w.resolved {
      FindsAgain(b, anchorOf, st, v, w);
    }
    hide TableOK, Matches, RowFits, Upsert, UpsertID, Indexed, EntitiesOK, PlainEntities, StatesOK;
  }

  lemma WriteOneColumns(db: Db, b: Batch, anchorOf: AnchorFn, st: States, v: nat, w: Written, done: set<nat>)
    requires Writable(b, anchorOf, st) && CanWrite(b, v, w.resolved) && WriteInv(db, b, anchorOf, st, w)
    requires NodesDiffer(b) && Columns(db, b, st, w, done)
    ensures Columns(db, b, st, WriteOne(b, st, v, w), done + {v})
  {
    OneWritten(b, anchorOf, st, v, w);
    WriteOneKeeps(db, b, anchorOf, st, v, w);
    var w' := WriteOne(b, st, v, w);
    assert Kept(db, w.db) && ResolvedOK(b, w') && PlainEntities(b) && EntitiesOK(b.entities) && Storable(b, v);
    hide Writable, WriteInv, TableOK, ResolvedOK, Wrote1, ScopeCell, WriteOne, RowFor, NodesDiffer, PlainEntities,
         EntitiesOK;
    ScopeOneRow(db, st, w, w', v, RowFor(b, st, v, w.resolved), done);
    MarkOneRow(b, st, w, w', v, RowFor(b, st, v, w.resolved), done);
  }

  lemma FirstAndRest(done: set<nat>, ids: seq<nat>)
    requires ids != []
    ensures done + {ids[0]} + Elements(ids[1..]) == done + Elements(ids)
  {
    assert ids == [ids[0]] + ids[1..];
    assert forall x :: x in ids <==> x == ids[0] || x in ids[1..];
  }

  lemma {:induction false} WriteAllColumns(
    db: Db, b: Batch, anchorOf: AnchorFn, st: States, ids: seq<nat>, w: Written, done: set<nat>)
    requires Writable(b, anchorOf, st) && |st| == |b.entities| + 1
    requires (forall i :: 0 <= i < |ids| ==> b.Has(ids[i])) && Ready(b, w.resolved, ids)
    requires WriteInv(db, b, anchorOf, st, w) && NodesDiffer(b) && Columns(db, b, st, w, done)
    ensures Columns(db, b, st, WriteAll(b, st, ids, w), done + Elements(ids))
    decreases |ids|
  {
    if ids == [] {
      assert done + Elements(ids) == done;
    } else {
      hide Writable, WriteInv, Advances, Lowered, WriteOne, Columns, NodesDiffer;
      ReadyNext(b, w.resolved, w.resolved[ids[0] := 0], ids);
      WriteOneKeeps(db, b, anchorOf, st, ids[0], w);
      WriteOneColumns(db, b, anchorOf, st, ids[0], w, done);
      var w1 := WriteOne(b, st, ids[0], w);
      ReadyNext(b, w.resolved, w1.resolved, ids);
      WriteAllColumns(db, b, anchorOf, st, ids[1..], w1, done + {ids[0]});
      FirstAndRest(done, ids);
    }
  }

  lemma {:induction false} SyncAllColumns(db: Db, b: Batch, st: States, ids: seq<nat>, w: Written, done: set<nat>)
    requires forall i :: 0 <= i < |ids| ==> ids[i] < |st| && ids[i] in done
    requires Columns(db, b, st, w, done)
    ensures Columns(db, b, st, SyncAll(b, st, ids, w), done)
    decreases |ids|
  {
    if ids != [] {
      SyncOneColumns(db, b, st, ids[0], w, done);
      hide SyncOne, Columns;
      SyncAllColumns(db, b, st, ids[1..], SyncOne(b, st, ids[0], w), done);
    }
  }

  lemma SyncOneColumns(db: Db, b: Batch, st: States, v: nat, w: Written, done: set<nat>)
    requires v < |st| && v in done && Columns(db, b, st, w, done)
    ensures Columns(db, b, st, SyncOne(b, st, v, w), done)
  {
    hide AnchorRow;
    var w' := SyncOne(b, st, v, w);
    assert w'.resolved == w.resolved;
    forall id | id in w'.db.rows ensures ScopeCell(db, st, w', done, id) {
      assert ScopeCell(db, st, w, done, id);
      assert WrittenTo(w', done, id) == WrittenTo(w, done, id)
             && BlockedBy(st, w', done, id) == BlockedBy(st, w, done, id);
    }
  }

  lemma StartColumns(db: Db, b: Batch, st: States, sourceID: nat)
    ensures Columns(db, b, st, Written(db, map[b.rootID := sourceID]), {})
  {
    var w := Written(db, map[b.rootID := sourceID]);
    forall id | id in w.db.rows ensures ScopeCell(db, st, w, {}, id) {
      assert !WrittenTo(w, {}, id) && !BlockedBy(st, w, {}, id);
    }
  }

  /** Anchors, regular nodes and their links. */
  lemma NodeColumns(db: Db, b: Batch, anchorOf: AnchorFn, st: States, w0: Written)
    requires WriteInv(db, b, anchorOf, st, w0) && WellFormed(b) && Writable(b, anchorOf, st)
    requires |st| == |b.entities| + 1 && NodesInRange(b) && NodesDiffer(b) && Columns(db, b, st, w0, {})
    ensures var anchors, regular := NodesWhere(st, b.nodeIDs, true), NodesWhere(st, b.nodeIDs, false);
            Columns(db, b, st, SyncAll(b, st, regular, WriteAll(b, st, regular, WriteAll(b, st, anchors, w0))),
                Elements(anchors) + Elements(regular))
  {
    hide WellFormed, Writable, Ready, WriteInv, Lowered, AnchorLinked, Advances, WriteOne, SyncOne, NodesResolved,
         NodesDiffer, Columns;
    var anchors, regular := NodesWhere(st, b.nodeIDs, true), NodesWhere(st, b.nodeIDs, false);
    NodesReady(b, st, w0.resolved, true);
    WriteAllColumns(db, b, anchorOf, st, anchors, w0, {});
    WriteAllKeeps(db, b, anchorOf, st, anchors, w0);
    var w1 := WriteAll(b, st, anchors, w0);
    assert {} + Elements(anchors) == Elements(anchors);
    NodesReady(b, st, w1.resolved, false);
    WriteAllColumns(db, b, anchorOf, st, regular, w1, Elements(anchors));
    RegularRange(st, regular, Elements(anchors));
    SyncAllColumns(db, b, st, regular, WriteAll(b, st, regular, w1), Elements(anchors) + Elements(regular));
  }

  /** Then the properties. */
  lemma PropertyColumns(
    db: Db, b: Batch, anchorOf: AnchorFn, st: States, order: seq<nat>, w: Written, done: set<nat>)
    requires WriteInv(db, b, anchorOf, st, w) && WellFormed(b) && Writable(b, anchorOf, st) && NodesDiffer(b)
    requires |st| == |b.entities| + 1 && LayerOrder(b, order) && NodesResolved(b, w.resolved) && b.rootID in w.resolved
    requires Columns(db, b, st, w, done)
    ensures forall i :: 0 <= i < |order| ==> b.Has(order[i])
    ensures Columns(db, b, st, WriteAll(b, st, order, w), done + Elements(order))
  {
    PropertiesReady(b, w.resolved, order);
    hide WellFormed, Writable, Ready, WriteInv, LayerOrder, NodesResolved, WriteAll, NodesDiffer, Columns, Elements;
    WriteAllColumns(db, b, anchorOf, st, order, w, done);
  }

  lemma AllColumns(db: Db, b: Batch, anchorOf: AnchorFn, st: States, w0: Written, order: seq<nat>) returns (w: Written)
    requires WriteInv(db, b, anchorOf, st, w0) && WellFormed(b) && Writable(b, anchorOf, st)
    requires |st| == |b.entities| + 1 && NodesInRange(b) && NodesDiffer(b) && Columns(db, b, st, w0, {})
    requires LayerOrder(b, order) && b.rootID in w0.resolved
    ensures var anchors, regular := NodesWhere(st, b.nodeIDs, true), NodesWhere(st, b.nodeIDs, false);
            w == WriteAll(b, st, order,
                SyncAll(b, st, regular, WriteAll(b, st, regular, WriteAll(b, st, anchors, w0))))
    ensures Columns(db, b, st, w, Stores(b, st, order))
  {
    hide WellFormed, Writable, WriteInv, LayerOrder, Lowered, AnchorLinked, NodesResolved,
         WriteAll, SyncAll, Unmarked, NodesDiffer, Columns, NodesWhere, Elements, Advances;
    NodeColumns(db, b, anchorOf, st, w0);
    var w3 := NodesIn(db, b, anchorOf, st, w0);
    RootStays(w0, w3, b.rootID);
    PropertyColumns(db, b, anchorOf, st, order, w3,
        Elements(NodesWhere(st, b.nodeIDs, true)) + Elements(NodesWhere(st, b.nodeIDs, false)));
    w := WriteAll(b, st, order, w3);
  }

  /** After all rows of a batch. */
  lemma BatchColumns(db: Db, b: Batch, anchorOf: AnchorFn, st: States, sourceID: nat, order: seq<nat>)
    requires DbInv(db, anchorOf) && WellFormed(b) && Writable(b, anchorOf, st) && RootOf(db, b, sourceID)
    requires |st| == |b.entities| + 1 && NodesInRange(b) && LayerOrder(b, order)
    ensures Columns(db, b, st, WriteBatch(db, b, st, sourceID, order), Stores(b, st, order))
  {
    BatchNodesDiffer(b);
    RootResolved(db, b, anchorOf, st, sourceID);
    StartColumns(db, b, st, sourceID);
    hide DbInv, WellFormed, Writable, WriteInv, LayerOrder, RootOf, WriteAll, SyncAll, NodesDiffer, Columns,
         NodesWhere, Stores;
    var w := AllColumns(db, b, anchorOf, st, Written(db, map[b.rootID := sourceID]), order);
  }

  lemma RootStays(w: Written, w': Written, v: nat)
    requires Advances(w, w') && v in w.resolved
    ensures v in w'.resolved
  {
    hide Kept;
  }

  lemma RegularRange(st: States, ids: seq<nat>, done: set<nat>)
    requires forall i :: 0 <= i < |ids| ==> ids[i] < |st|
    ensures forall i :: 0 <= i < |ids| ==> ids[i] < |st| && ids[i] in done + Elements(ids)
  {
  }

  /** What is written: nodes, mere anchors first, and properties. */
  ghost function Stores(b: Batch, st: States, order: seq<nat>): set<nat>
    requires NodesInRange(b) && |st| == |b.entities| + 1
  {
    Elements(NodesWhere(st, b.nodeIDs, true)) + Elements(NodesWhere(st, b.nodeIDs, false)) + Elements(order)
  }

  lemma StoresAll(b: Batch, st: States, order: seq<nat>, v: nat)
    requires WellFormed(b) && NodesInRange(b) && |st| == |b.entities| + 1 && LayerOrder(b, order)
    ensures v in Stores(b, st, order) <==> Storable(b, v)
  {
    NodeIDsOK(b);
    hide WellFormed, NodesInRange;
  }

  // ------------------------------------------------------------ the states' marks

  lemma {:induction false} PassMarks(st: States, items: seq<Item>)
    requires ItemsInRange(items, |st|)
    ensures SameMarks(st, OnePass(st, items))
    decreases |items|
  {
    if items != [] {
      StepKeepsMarks(st, items[0]);
      PassMarks(Step(st, items[0]), items[1..]);
      SameMarksTrans(st, Step(st, items[0]), OnePass(st, items));
    }
  }

  lemma {:induction false} PassesMarks(st: States, items: seq<Item>, k: nat)
    requires ItemsInRange(items, |st|)
    ensures SameMarks(st, ManyPasses(st, items, k))
    decreases k
  {
    if k != 0 {
      PassMarks(st, items);
      PassesMarks(OnePass(st, items), items, k - 1);
      SameMarksTrans(st, OnePass(st, items), ManyPasses(st, items, k));
    }
  }

  /** The row that a batch entity was loaded from: a node's from the row of its name, a root that is
      no node from the packet's source row. */
  predicate LoadedAs(db: Db, b: Batch, sourceID: nat, v: nat, id: nat)
    requires b.Has(v)
  {
    && id in db.rows
    && if IsNode(b.Item(v)) then SameNode(db.rows[id], b.Item(v).fields.etype, b.Item(v).fields.value)
       else v == b.rootID && id == sourceID
  }

  ghost predicate WasStored(db: Db, b: Batch, sourceID: nat, v: nat)
    requires b.Has(v)
  {
    exists id :: LoadedAs(db, b, sourceID, v, id)
  }

  ghost predicate LoadedBlocked(db: Db, b: Batch, sourceID: nat, v: nat)
    requires b.Has(v)
  {
    exists id :: LoadedAs(db, b, sourceID, v, id) && BlockedNow(db, db.rows[id])
  }

  /** What a node was loaded as is one row. */
  lemma LoadedOnce(db: Db, b: Batch, sourceID: nat, v: nat, i: nat, j: nat)
    requires TableOK(db) && b.Has(v) && LoadedAs(db, b, sourceID, v, i) && LoadedAs(db, b, sourceID, v, j)
    ensures i == j
  {
    if IsNode(b.Item(v)) {
      assert Collides(db.rows[i], db.rows[j]);
    }
  }

  lemma InitialMarks(db: Db, b: Batch, sourceID: nat, v: nat)
    requires TableOK(db) && RootOf(db, b, sourceID) && b.Has(v)
    ensures var s := InitialStates(db, b, sourceID)[v];
            && (s.outOfScope <==> LoadedBlocked(db, b, sourceID, v))
            && (WasStored(db, b, sourceID, v) ==>
                 LoadedAs(db, b, sourceID, v, s.dbID) && s.isAnchor == db.rows[s.dbID].isAnchor)
            && (!WasStored(db, b, sourceID, v) ==> s.dbID == 0 && s.isAnchor == IsNode(b.Item(v)))
  {
    FindNode(db, b, v);
    var s := InitialStates(db, b, sourceID)[v];
    assert s == InitialState(db, b, sourceID, v);
    var found := Find(db, NodeProbe(b, v));
    if IsNode(b.Item(v)) && found.Some? {
      LoadedScope(db, b, sourceID, v, found.value);
    } else if v == b.rootID {
      assert !IsNode(b.Item(v)) by { RootFound(db, b, sourceID); }
      LoadedScope(db, b, sourceID, v, sourceID);
    } else {
      assert !WasStored(db, b, sourceID, v);
    }
  }

  lemma RootFound(db: Db, b: Batch, sourceID: nat)
    requires TableOK(db) && RootOf(db, b, sourceID)
    ensures IsNode(b.Item(b.rootID)) ==> Find(db, NodeProbe(b, b.rootID)).Some?
  {
    FindNode(db, b, b.rootID);
    assert RowOK(db, sourceID, db.rows[sourceID]);
  }

  lemma LoadedScope(db: Db, b: Batch, sourceID: nat, v: nat, id: nat)
    requires TableOK(db) && b.Has(v) && LoadedAs(db, b, sourceID, v, id)
    ensures Loaded(db, id).outOfScope <==> LoadedBlocked(db, b, sourceID, v)
    ensures Loaded(db, id).dbID == id && Loaded(db, id).isAnchor == db.rows[id].isAnchor
            && WasStored(db, b, sourceID, v)
  {
    if LoadedBlocked(db, b, sourceID, v) {
      var j :| LoadedAs(db, b, sourceID, v, j) && BlockedNow(db, db.rows[j]);
      LoadedOnce(db, b, sourceID, v, id, j);
    }
    hide TableOK;
  }

  /** The node of the batch that stands for the result's anchor. */
  predicate IsAnchorOf(b: Batch, r: BatchResult, a: nat) {
    IsNodeAt(b, a, NodeKey(ANCHOR_TYPE, r.result.anchor))
  }

  /** The result's anchor is in the batch and is the first row of the database. */
  ghost predicate OnFirstRow(db: Db, b: Batch, r: BatchResult) {
    && (exists a :: IsAnchorOf(b, r, a))
    && 1 in db.rows && SameNode(db.rows[1], ANCHOR_TYPE, r.result.anchor)
  }

  /** A result that is out of scope blocks its target, unless that is a subdomain of the first row's
      domain, and a blocked subdomain its anchor as well; flags merged into the entity block it, too. */
  ghost predicate BlocksEntity(db: Db, b: Batch, r: BatchResult, v: nat)
    requires b.Has(r.targetID)
  {
    var subdomain, first := b.Item(r.targetID).fields.etype == "subdomain", OnFirstRow(db, b, r);
    || (v == r.targetID && (b.Item(r.targetID).outOfScope || (r.result.outOfScope && !(subdomain && first))))
    || (IsAnchorOf(b, r, v) && subdomain && r.result.outOfScope && !first)
  }

  /** The anchor's node is the one that the index leads to. */
  lemma AnchorIndexed(b: Batch, r: BatchResult)
    requires IndexesNodes(b.entities, b.nodeIndex)
    ensures var key := NodeKey(ANCHOR_TYPE, r.result.anchor);
            forall a :: IsAnchorOf(b, r, a) <==> key in b.nodeIndex && a == b.nodeIndex[key]
  {
    var key := NodeKey(ANCHOR_TYPE, r.result.anchor);
    hide IsNode, KeyOf;
    forall a: nat | IsAnchorOf(b, r, a) ensures key in b.nodeIndex && a == b.nodeIndex[key] {
      assert b.Item(a) == b.entities[a - 1];
    }
    if key in b.nodeIndex {
      assert b.Item(b.nodeIndex[key]) == b.entities[b.nodeIndex[key] - 1];
    }
  }

  lemma AnchorFirst(db: Db, b: Batch, sourceID: nat, r: BatchResult)
    requires WellFormed(b) && TableOK(db) && RootOf(db, b, sourceID)
    ensures var key, st := NodeKey(ANCHOR_TYPE, r.result.anchor), InitialStates(db, b, sourceID);
            && (forall a :: IsAnchorOf(b, r, a) <==> key in b.nodeIndex && a == b.nodeIndex[key])
            && (key in b.nodeIndex ==>
                 b.nodeIndex[key] < |st| && (st[b.nodeIndex[key]].dbID == 1 <==> OnFirstRow(db, b, r)))
  {
    NodeIndexMeaning(b.entities);
    AnchorIndexed(b, r);
    hide WellFormed, IndexesNodes, TableOK, RootOf, InitialStates, OnFirstRow;
    var key := NodeKey(ANCHOR_TYPE, r.result.anchor);
    if key in b.nodeIndex {
      AnchorLoadedFirst(db, b, sourceID, r, b.nodeIndex[key]);
    }
  }

  lemma AnchorLoadedFirst(db: Db, b: Batch, sourceID: nat, r: BatchResult, a: nat)
    requires TableOK(db) && RootOf(db, b, sourceID) && IsAnchorOf(b, r, a)
    ensures InitialStates(db, b, sourceID)[a].dbID == 1 <==> OnFirstRow(db, b, r)
  {
    InitialMarks(db, b, sourceID, a);
    var s := InitialStates(db, b, sourceID)[a];
    hide InitialStates;
    if OnFirstRow(db, b, r) {
      assert LoadedAs(db, b, sourceID, a, 1);
      LoadedOnce(db, b, sourceID, a, 1, s.dbID);
    }
  }

  lemma BlocksMeaning(db: Db, b: Batch, sourceID: nat, r: BatchResult, v: nat)
    requires WellFormed(b) && TableOK(db) && RootOf(db, b, sourceID) && b.Has(r.targetID) && b.Has(v)
    ensures Blocks(b, InitialStates(db, b, sourceID), r, v) <==> BlocksEntity(db, b, r, v)
  {
    AnchorFirst(db, b, sourceID, r);
    hide WellFormed, TableOK, InitialStates, IsAnchorOf, OnFirstRow;
  }

  /** Blocked in the end: loaded as blocked, or blocked by a result.  A mere anchor in the end: neither
      the source nor a result's source or target, and stored as one or not stored at all. */
  lemma FinalFlags(db: Db, b: Batch, sourceID: nat, v: nat)
    requires WellFormed(b) && TableOK(db) && RootOf(db, b, sourceID) && b.Has(v)
    ensures var s := FinalStates(db, b, sourceID)[v];
            && (forall r <- b.results :: b.Has(r.targetID))
            && (s.outOfScope <==>
                 LoadedBlocked(db, b, sourceID, v)
                 || exists i :: 0 <= i < |b.results| && b.results[i] in b.results
                                && BlocksEntity(db, b, b.results[i], v))
            && (s.isAnchor <==>
                 && v != b.rootID
                 && (forall i :: 0 <= i < |b.results| ==> v != b.results[i].sourceID && v != b.results[i].targetID)
                 && (if WasStored(db, b, sourceID, v)
                     then exists id :: LoadedAs(db, b, sourceID, v, id) && db.rows[id].isAnchor
                     else IsNode(b.Item(v))))
  {
    MarkedFlags(db, b, sourceID, v);
    InitialMarks(db, b, sourceID, v);
    ResultsBlock(db, b, sourceID, v);
    var s0 := InitialStates(db, b, sourceID)[v];
    hide WellFormed, TableOK, RootOf, InitialStates, FinalStates, Blocks, BlocksEntity, LoadedBlocked;
    if WasStored(db, b, sourceID, v) && exists id :: LoadedAs(db, b, sourceID, v, id) && db.rows[id].isAnchor {
      var id :| LoadedAs(db, b, sourceID, v, id) && db.rows[id].isAnchor;
      LoadedOnce(db, b, sourceID, v, id, s0.dbID);
    }
  }

  lemma ResultsBlock(db: Db, b: Batch, sourceID: nat, v: nat)
    requires WellFormed(b) && TableOK(db) && RootOf(db, b, sourceID) && b.Has(v)
    ensures forall i :: 0 <= i < |b.results| ==> b.results[i] in b.results && b.Has(b.results[i].targetID)
    ensures forall i :: 0 <= i < |b.results| ==>
              (Blocks(b, InitialStates(db, b, sourceID), b.results[i], v) <==> BlocksEntity(db, b, b.results[i], v))
  {
    ItemsOK(b);
    hide WellFormed, TableOK, RootOf, InitialStates, Blocks, BlocksEntity;
    forall i | 0 <= i < |b.results|
      ensures b.results[i] in b.results && b.Has(b.results[i].targetID)
      ensures Blocks(b, InitialStates(db, b, sourceID), b.results[i], v) <==> BlocksEntity(db, b, b.results[i], v)
    {
      assert b.results[i] in b.results;
      BlocksMeaning(db, b, sourceID, b.results[i], v);
    }
  }

  lemma ClearedMeaning(b: Batch, st0: States, v: nat)
    requires |st0| == |b.entities| + 1 && b.Has(b.rootID) && b.Has(v)
    requires forall r <- b.results :: b.Has(r.sourceID) && b.Has(r.targetID)
    ensures forall i :: 0 <= i < |b.results| ==> b.results[i] in b.results && b.Has(b.results[i].targetID)
    ensures var s := MarkAll(b, ClearAnchorMark(st0, b.rootID), b.results)[v];
            && (s.outOfScope <==>
                 st0[v].outOfScope || exists i :: 0 <= i < |b.results| && Blocks(b, st0, b.results[i], v))
            && (s.isAnchor <==>
                 && st0[v].isAnchor && v != b.rootID
                 && forall i :: 0 <= i < |b.results| ==> v != b.results[i].sourceID && v != b.results[i].targetID)
  {
    var st1 := ClearAnchorMark(st0, b.rootID);
    assert forall i :: 0 <= i < |b.results| ==> b.results[i] in b.results;
    hide MarkAll, Blocks;
    MarkMeaning(b, st1, b.results, v);
    forall i | 0 <= i < |b.results| ensures Blocks(b, st1, b.results[i], v) == Blocks(b, st0, b.results[i], v) {
      SameIDsBlock(b, st0, st1, b.results[i], v);
    }
  }

  /** The marks in the end, from the marks as loaded. */
  lemma MarkedFlags(db: Db, b: Batch, sourceID: nat, v: nat)
    requires WellFormed(b) && sourceID in db.rows && b.Has(b.rootID) && b.Has(v)
    ensures forall i :: 0 <= i < |b.results| ==> b.results[i] in b.results && b.Has(b.results[i].targetID)
    ensures var s, st0 := FinalStates(db, b, sourceID)[v], InitialStates(db, b, sourceID);
            && (s.outOfScope <==>
                 st0[v].outOfScope || exists i :: 0 <= i < |b.results| && Blocks(b, st0, b.results[i], v))
            && (s.isAnchor <==>
                 && st0[v].isAnchor && v != b.rootID
                 && forall i :: 0 <= i < |b.results| ==> v != b.results[i].sourceID && v != b.results[i].targetID)
  {
    ItemsOK(b);
    hide WellFormed, InitialStates, MarkAll, ManyPasses, Blocks;
    ClearedMeaning(b, InitialStates(db, b, sourceID), v);
    PassesMarks(MarkedStates(db, b, sourceID), Items(b, b.results), |b.entities|);
  }

  // ------------------------------------------------------------ the whole call

  /** Some entity of the batch is stored in the row. */
  ghost predicate StandsFor(db: Db, p: Packet, order: seq<nat>, id: nat)
    requires p.sourceID in db.rows && LayerOrder(PacketBatch(db, p), order)
  {
    exists v: nat :: StoredIn(db, p, order, v, id)
  }

  ghost predicate StoredIn(db: Db, p: Packet, order: seq<nat>, v: nat, id: nat)
    requires p.sourceID in db.rows && LayerOrder(PacketBatch(db, p), order)
  {
    var w := PacketRows(db, p, order);
    Storable(PacketBatch(db, p), v) && v in w.resolved && w.resolved[v] == id
  }

  /** Such an entity ends blocked. */
  ghost predicate BlockedIn(db: Db, p: Packet, order: seq<nat>, id: nat)
    requires p.sourceID in db.rows && LayerOrder(PacketBatch(db, p), order)
  {
    var st := FinalStates(db, PacketBatch(db, p), p.sourceID);
    exists v: nat :: StoredIn(db, p, order, v, id) && v < |st| && st[v].outOfScope
  }

  /** Every row of the database after the call: blocked exactly when it was or an entity stored in it
      ends blocked; otherwise in scope, unless it was there without a flag.  A row in which no entity
      of the packet is stored is as it was. */
  lemma StoredScopeMeaning(db: Db, p: Packet, blamed: string, order: seq<nat>, anchorOf: AnchorFn, id: nat)
    requires DbInv(db, anchorOf) && AnchorFnOK(anchorOf) && PacketFits(db, p, anchorOf)
    requires LayerOrder(PacketBatch(db, p), order) && id in Stored(db, p, blamed, order).rows
    ensures var row := Stored(db, p, blamed, order).rows[id];
            && (row.scope == Some(true) <==> WasBlocked(db, id) || BlockedIn(db, p, order, id))
            && (StandsFor(db, p, order, id) && row.scope != Some(true) ==>
                  row.scope == if id in db.rows && db.rows[id].scope == None then None else Some(false))
            && (!StandsFor(db, p, order, id) ==> id in db.rows && row == db.rows[id])
  {
    var b, w := PacketBatch(db, p), PacketRows(db, p, order);
    var st := FinalStates(db, b, p.sourceID);
    PacketColumns(db, p, order, anchorOf);
    var done := Stores(b, st, order);
    assert Stored(db, p, blamed, order).rows == w.db.rows && ScopeCell(db, st, w, done, id);
    WritersMeaning(db, p, order, id, done);
    hide DbInv, AnchorFnOK, PacketFits, LayerOrder, PacketBatch, PacketRows, FinalStates, Stored, Stores, WellFormed,
         Columns, StandsFor, BlockedIn, WrittenTo, BlockedBy;
  }

  lemma WriterMeaning(db: Db, p: Packet, order: seq<nat>, v: nat, id: nat)
    requires p.sourceID in db.rows && LayerOrder(PacketBatch(db, p), order) && NodesInRange(PacketBatch(db, p))
    ensures var w, st := PacketRows(db, p, order), FinalStates(db, PacketBatch(db, p), p.sourceID);
            StoredIn(db, p, order, v, id)
            <==> v in Stores(PacketBatch(db, p), st, order) && v in w.resolved && w.resolved[v] == id
  {
    StoresAll(PacketBatch(db, p), FinalStates(db, PacketBatch(db, p), p.sourceID), order, v);
    hide LayerOrder, PacketBatch, PacketRows, FinalStates, Stores, WellFormed;
  }

  lemma WritersMeaning(db: Db, p: Packet, order: seq<nat>, id: nat, done: set<nat>)
    requires p.sourceID in db.rows && LayerOrder(PacketBatch(db, p), order) && NodesInRange(PacketBatch(db, p))
    requires done == Stores(PacketBatch(db, p), FinalStates(db, PacketBatch(db, p), p.sourceID), order)
    ensures var w, st := PacketRows(db, p, order), FinalStates(db, PacketBatch(db, p), p.sourceID);
            && (WrittenTo(w, done, id) <==> StandsFor(db, p, order, id))
            && (BlockedBy(st, w, done, id) <==> BlockedIn(db, p, order, id))
  {
    hide LayerOrder, PacketBatch, PacketRows, FinalStates, Stores, WellFormed, StoredIn;
    var w := PacketRows(db, p, order);
    forall v: nat ensures StoredIn(db, p, order, v, id) <==> v in done && v in w.resolved && w.resolved[v] == id {
      WriterMeaning(db, p, order, v, id);
    }
  }

  lemma PacketColumns(db: Db, p: Packet, order: seq<nat>, anchorOf: AnchorFn)
    requires DbInv(db, anchorOf) && AnchorFnOK(anchorOf) && PacketFits(db, p, anchorOf)
    requires LayerOrder(PacketBatch(db, p), order)
    ensures var b := PacketBatch(db, p);
            var st := FinalStates(db, b, p.sourceID);
            NodesInRange(b) && Columns(db, b, st, PacketRows(db, p, order), Stores(b, st, order))
  {
    var b := PacketBatch(db, p);
    BatchWritable(db, p, anchorOf);
    hide DbInv, AnchorFnOK, PacketFits, LayerOrder, PacketBatch, FinalStates, Stores, WellFormed, Columns, Writable,
         RootOf,
         WriteBatch;
    BatchColumns(db, b, anchorOf, FinalStates(db, b, p.sourceID), p.sourceID, order);
  }

  /** A node's row is a mere anchor exactly when the node ends as one. */
  lemma StoredMarkMeaning(db: Db, p: Packet, blamed: string, order: seq<nat>, anchorOf: AnchorFn, v: nat)
    requires DbInv(db, anchorOf) && AnchorFnOK(anchorOf) && PacketFits(db, p, anchorOf)
    requires LayerOrder(PacketBatch(db, p), order) && PacketBatch(db, p).Has(v) && IsNode(PacketBatch(db, p).Item(v))
    ensures var w, st := PacketRows(db, p, order), FinalStates(db, PacketBatch(db, p), p.sourceID);
            && v < |st| && v in w.resolved && w.resolved[v] in Stored(db, p, blamed, order).rows
            && Stored(db, p, blamed, order).rows[w.resolved[v]].isAnchor == st[v].isAnchor
  {
    var b := PacketBatch(db, p);
    PacketColumns(db, p, order, anchorOf);
    StoresAll(b, FinalStates(db, b, p.sourceID), order, v);
    hide DbInv, AnchorFnOK, PacketFits, LayerOrder, PacketBatch, PacketRows, FinalStates, Stores, WellFormed;
  }
}
