/**
 One `Store` call as a step of the database keeps every database invariant: hop-sound
 strict depths, relaxed depths that never exceed strict ones, parents before children.
 */
module StoreStep {
  import opened Schema
  import opened StoreBatch
  import opened StoreResult
  import opened DepthLoop
  import opened Database
  import opened StoreDb
  import opened BatchFacts
  import opened EntityStates
  import opened StoreWrites

  // ------------------------------------------------------------ every entity gets its row

  ghost predicate InRow(b: Batch, st: States, w: Written, v: nat)
    requires b.Has(v) && |st| == |b.entities| + 1
  {
    && v in w.resolved
    && (IsNode(b.Item(v)) || IsProperty(b.Item(v)) ==> Lowered(st, w, v))
    && (IsNode(b.Item(v)) && !st[v].isAnchor ==> AnchorLinked(b, st, w, v) && Unmarked(w, v))
  }

  ghost predicate BatchIn(db: Db, b: Batch, anchorOf: AnchorFn, st: States, sourceID: nat, w: Written) {
    && |st| == |b.entities| + 1 && WriteInv(db, b, anchorOf, st, w)
    && b.rootID in w.resolved && w.resolved[b.rootID] == sourceID
    && forall v: nat :: b.Has(v) ==> InRow(b, st, w, v)
  }

  lemma RootResolved(db: Db, b: Batch, anchorOf: AnchorFn, st: States, sourceID: nat)
    requires DbInv(db, anchorOf) && Writable(b, anchorOf, st) && RootOf(db, b, sourceID)
    ensures WriteInv(db, b, anchorOf, st, Written(db, map[b.rootID := sourceID]))
  {
    hide DepthsSound, RelationsOK, RelaxedOK, StatesOK, Indexed, EntitiesOK;
    assert PlainCategory(b.entities[b.rootID - 1].fields.category);
    assert RowOK(db, sourceID, db.rows[sourceID]);
    var w := Written(db, map[b.rootID := sourceID]);
    assert Matches(b, b.rootID, w.resolved, db.rows[sourceID]);
    hide TableOK, AnchorsOK;
  }

  lemma NodesReady(b: Batch, st: States, resolved: map<nat, nat>, isAnchor: bool)
    requires WellFormed(b) && |st| == |b.entities| + 1 && NodesInRange(b)
    ensures var ids := NodesWhere(st, b.nodeIDs, isAnchor);
            && (forall i :: 0 <= i < |ids| ==> b.Has(ids[i]) && IsNode(b.Item(ids[i])) && ids[i] < |st|)
            && Ready(b, resolved, ids)
            && forall v: nat :: b.Has(v) && IsNode(b.Item(v)) && st[v].isAnchor == isAnchor ==> v in ids
  {
    NodeIDsOK(b);
    hide WellFormed, NodesInRange;
    var ids := NodesWhere(st, b.nodeIDs, isAnchor);
    assert forall v: nat :: b.Has(v) && IsNode(b.Item(v)) && st[v].isAnchor == isAnchor ==> v in ids;
    assert forall i :: 0 <= i < |ids| ==> ids[i] in b.nodeIDs;
    hide NodesWhere;
    NodesAreReady(b, resolved, ids);
  }

  lemma NodesAreReady(b: Batch, resolved: map<nat, nat>, ids: seq<nat>)
    requires forall i :: 0 <= i < |ids| ==> b.Has(ids[i]) && IsNode(b.Item(ids[i]))
    ensures Ready(b, resolved, ids)
  {
  }

  lemma PropertiesReady(b: Batch, resolved: map<nat, nat>, order: seq<nat>)
    requires WellFormed(b) && LayerOrder(b, order) && NodesResolved(b, resolved) && b.rootID in resolved
    ensures forall i :: 0 <= i < |order| ==> b.Has(order[i])
    ensures Ready(b, resolved, order)
    ensures forall v: nat :: b.Has(v) && IsProperty(b.Item(v)) ==> v in order
  {
    NodeIDsOK(b);
    assert EntitiesOK(b.entities) && b.rootID == 1;
    hide WellFormed;
  }

  lemma EntityKinds(b: Batch, v: nat)
    requires WellFormed(b) && b.Has(v)
    ensures v == b.rootID || IsNode(b.Item(v)) || IsProperty(b.Item(v))
  {
  }

  // ------------------------------------------------------------ who ends as a mere anchor

  ghost predicate Unmarked(w: Written, v: nat) {
    v in w.resolved && w.resolved[v] in w.db.rows && !w.db.rows[w.resolved[v]].isAnchor
  }

  /** Nothing becomes a mere anchor. */
  ghost predicate NoNewAnchors(db: Db, db': Db) {
    forall id :: id in db.rows && !db.rows[id].isAnchor ==> id in db'.rows && !db'.rows[id].isAnchor
  }

  predicate NoneMarked(b: Batch, st: States, ids: seq<nat>) {
    forall i :: 0 <= i < |ids| ==>
          ids[i] < |st| && b.Has(ids[i]) && (IsProperty(b.Item(ids[i])) || !st[ids[i]].isAnchor)
  }

  lemma UpsertUnmarks(db: Db, row: Row)
    requires TableOK(db) && RowFits(db, row) && !row.isAnchor
    ensures NoNewAnchors(db, Upsert(db, row)) && UpsertID(db, row) in Upsert(db, row).rows
            && !Upsert(db, row).rows[UpsertID(db, row)].isAnchor
  {
    UpsertRows(db, row);
    hide TableOK, RowFits;
  }

  lemma RowUnmarked(b: Batch, st: States, v: nat, resolved: map<nat, nat>)
    requires NoneMarked(b, st, [v]) && b.Has(v) && |st| == |b.entities| + 1
    ensures !RowFor(b, st, v, resolved).isAnchor
  {
    assert [v][0] == v;
  }

  lemma WriteOneUnmarks(db: Db, b: Batch, anchorOf: AnchorFn, st: States, v: nat, w: Written)
    requires Writable(b, anchorOf, st) && CanWrite(b, v, w.resolved) && WriteInv(db, b, anchorOf, st, w)
    requires b.Has(v) && |st| == |b.entities| + 1 && NoneMarked(b, st, [v])
    ensures NoNewAnchors(w.db, WriteOne(b, st, v, w).db) && Unmarked(WriteOne(b, st, v, w), v)
  {
    hide Writable, TableOK, AnchorsOK, Kept, ResolvedOK, Sourced, RowFits, Matches, Upsert, UpsertID, RowFor,
         NoneMarked, NoNewAnchors, CanWrite;
    RowForFits(b, anchorOf, st, v, w);
    RowUnmarked(b, st, v, w.resolved);
    UpsertUnmarks(w.db, RowFor(b, st, v, w.resolved));
  }

  lemma NoneMarkedSplit(b: Batch, st: States, ids: seq<nat>)
    requires NoneMarked(b, st, ids) && ids != []
    ensures NoneMarked(b, st, [ids[0]]) && NoneMarked(b, st, ids[1..]) && b.Has(ids[0])
  {
  }

  lemma UnmarkedKept(w: Written, w': Written, v: nat)
    requires Unmarked(w, v) && Advances(w, w') && NoNewAnchors(w.db, w'.db)
    ensures Unmarked(w', v)
  {
    hide Kept;
  }

  lemma NoNewAnchorsTrans(a: Db, b: Db, c: Db)
    requires NoNewAnchors(a, b) && NoNewAnchors(b, c)
    ensures NoNewAnchors(a, c)
  {
  }

  lemma FirstUnmarks(db: Db, b: Batch, anchorOf: AnchorFn, st: States, ids: seq<nat>, w: Written)
    requires Writable(b, anchorOf, st) && |st| == |b.entities| + 1
    requires ids != [] && b.Has(ids[0]) && NoneMarked(b, st, ids)
    requires Ready(b, w.resolved, ids) && WriteInv(db, b, anchorOf, st, w)
    ensures var w1 := WriteOne(b, st, ids[0], w);
            && WriteInv(db, b, anchorOf, st, w1) && Ready(b, w1.resolved, ids[1..]) && NoneMarked(b, st, ids[1..])
            && NoNewAnchors(w.db, w1.db) && Unmarked(w1, ids[0])
  {
    hide Writable, WriteInv, CanWrite, Advances, Ready, WriteOne, Lowered, NoNewAnchors, Unmarked, NoneMarked;
    NoneMarkedSplit(b, st, ids);
    ReadyNext(b, w.resolved, w.resolved[ids[0] := 0], ids);
    WriteOneKeeps(db, b, anchorOf, st, ids[0], w);
    WriteOneUnmarks(db, b, anchorOf, st, ids[0], w);
    ReadyNext(b, w.resolved, WriteOne(b, st, ids[0], w).resolved, ids);
  }

  lemma {:induction false} WriteAllUnmarks(db: Db, b: Batch, anchorOf: AnchorFn, st: States, ids: seq<nat>, w: Written)
    requires Writable(b, anchorOf, st) && |st| == |b.entities| + 1
    requires (forall i :: 0 <= i < |ids| ==> b.Has(ids[i])) && NoneMarked(b, st, ids)
    requires Ready(b, w.resolved, ids) && WriteInv(db, b, anchorOf, st, w)
    ensures NoNewAnchors(w.db, WriteAll(b, st, ids, w).db)
    ensures forall i :: 0 <= i < |ids| ==> Unmarked(WriteAll(b, st, ids, w), ids[i])
    decreases |ids|
  {
    if ids != [] {
      hide Writable, WriteInv, Advances, Ready, WriteOne, Lowered, NoNewAnchors, Unmarked, NoneMarked;
      FirstUnmarks(db, b, anchorOf, st, ids, w);
      var w1 := WriteOne(b, st, ids[0], w);
      WriteAllUnmarks(db, b, anchorOf, st, ids[1..], w1);
      WriteAllKeeps(db, b, anchorOf, st, ids[1..], w1);
      var w2 := WriteAll(b, st, ids[1..], w1);
      NoNewAnchorsTrans(w.db, w1.db, w2.db);
      UnmarkedKept(w1, w2, ids[0]);
      UnmarkedAll(w2, ids);
    }
  }

  lemma UnmarkedAll(w: Written, ids: seq<nat>)
    requires ids != [] && Unmarked(w, ids[0])
    requires forall i :: 0 <= i < |ids| - 1 ==> Unmarked(w, ids[1..][i])
    ensures forall i :: 0 <= i < |ids| ==> Unmarked(w, ids[i])
  {
    hide Unmarked;
    forall i | 0 < i < |ids| ensures Unmarked(w, ids[i]) {
      assert ids[i] == ids[1..][i - 1];
    }
  }

  lemma {:induction false} SyncAllUnmarks(b: Batch, st: States, ids: seq<nat>, w: Written)
    requires forall i :: 0 <= i < |ids| ==> ids[i] < |st|
    ensures NoNewAnchors(w.db, SyncAll(b, st, ids, w).db)
    decreases |ids|
  {
    if ids != [] {
      SyncAllUnmarks(b, st, ids[1..], SyncOne(b, st, ids[0], w));
    }
  }

  // ------------------------------------------------------------ the passes

  lemma NodesWritten(b: Batch, st: States, w1: Written, w2: Written, anchors: seq<nat>, regular: seq<nat>)
    requires forall i :: 0 <= i < |anchors| ==> Lowered(st, w1, anchors[i])
    requires forall i :: 0 <= i < |regular| ==> Lowered(st, w2, regular[i])
    requires Advances(w1, w2)
    requires forall v: nat :: b.Has(v) && IsNode(b.Item(v)) ==> v in anchors || v in regular
    ensures NodesResolved(b, w2.resolved)
    ensures forall v: nat :: b.Has(v) && IsNode(b.Item(v)) ==> Lowered(st, w2, v)
  {
    forall v: nat | b.Has(v) && IsNode(b.Item(v)) ensures Lowered(st, w2, v) {
      if v in anchors {
        LoweredKept(st, w1, w2, v);
      }
    }
  }

  lemma RegularUnmarked(b: Batch, st: States, regular: seq<nat>)
    requires |st| == |b.entities| + 1 && NodesInRange(b) && regular == NodesWhere(st, b.nodeIDs, false)
    ensures NoneMarked(b, st, regular)
  {
    forall i | 0 <= i < |regular| ensures regular[i] < |st| && b.Has(regular[i]) && !st[regular[i]].isAnchor {
      assert regular[i] in regular;
    }
  }

  /** Anchors, then regular nodes, then their links. */
  lemma NodesIn(db: Db, b: Batch, anchorOf: AnchorFn, st: States, w0: Written) returns (w3: Written)
    requires WriteInv(db, b, anchorOf, st, w0) && WellFormed(b) && Writable(b, anchorOf, st)
    requires |st| == |b.entities| + 1 && NodesInRange(b)
    ensures w3 == (var regular := NodesWhere(st, b.nodeIDs, false);
                   SyncAll(b, st, regular, WriteAll(b, st, regular,
                       WriteAll(b, st, NodesWhere(st, b.nodeIDs, true), w0))))
    ensures Wrote(db, b, anchorOf, st, w0, w3) && NodesResolved(b, w3.resolved)
    ensures forall v: nat :: b.Has(v) && IsNode(b.Item(v)) ==>
              Lowered(st, w3, v) && (!st[v].isAnchor ==> AnchorLinked(b, st, w3, v) && Unmarked(w3, v))
  {
    hide WellFormed, Writable, Ready, WriteInv, Lowered, AnchorLinked, Advances, WriteOne, SyncOne, NodesResolved,
         Unmarked, NoneMarked, NoNewAnchors;
    var anchors, regular := NodesWhere(st, b.nodeIDs, true), NodesWhere(st, b.nodeIDs, false);
    NodesReady(b, st, w0.resolved, true);
    WriteAllKeeps(db, b, anchorOf, st, anchors, w0);
    var w1 := WriteAll(b, st, anchors, w0);
    NodesReady(b, st, w1.resolved, false);
    WriteAllKeeps(db, b, anchorOf, st, regular, w1);
    var w2 := WriteAll(b, st, regular, w1);
    NodesWritten(b, st, w1, w2, anchors, regular);
    SyncAllKeeps(db, b, anchorOf, st, regular, w2);
    w3 := SyncAll(b, st, regular, w2);
    RegularUnmarked(b, st, regular);
    WriteAllUnmarks(db, b, anchorOf, st, regular, w1);
    SyncAllUnmarks(b, st, regular, w2);
    WroteTrans(db, b, anchorOf, st, w0, w1, w2);
    WroteTrans(db, b, anchorOf, st, w0, w2, w3);
    forall v: nat | b.Has(v) && IsNode(b.Item(v))
      ensures Lowered(st, w3, v) && (!st[v].isAnchor ==> AnchorLinked(b, st, w3, v) && Unmarked(w3, v))
    {
      LoweredKept(st, w2, w3, v);
      if !st[v].isAnchor {
        UnmarkedKept(w2, w3, v);
      }
    }
  }

  lemma BatchWritten(db: Db, b: Batch, anchorOf: AnchorFn, st: States, sourceID: nat, order: seq<nat>)
    requires DbInv(db, anchorOf) && WellFormed(b) && Writable(b, anchorOf, st) && RootOf(db, b, sourceID)
    requires |st| == |b.entities| + 1 && NodesInRange(b) && LayerOrder(b, order)
    ensures BatchIn(db, b, anchorOf, st, sourceID, WriteBatch(db, b, st, sourceID, order))
  {
    hide DbInv, WellFormed, Writable, Ready, WriteInv, LayerOrder, RootOf, Lowered, AnchorLinked, Kept, NodesResolved,
         WriteOne, SyncOne, Unmarked, NoneMarked, NoNewAnchors;
    var w0 := Written(db, map[b.rootID := sourceID]);
    RootResolved(db, b, anchorOf, st, sourceID);
    var w3 := NodesIn(db, b, anchorOf, st, w0);
    PropertiesReady(b, w3.resolved, order);
    WriteAllKeeps(db, b, anchorOf, st, order, w3);
    PropertiesUnmarked(b, st, order);
    WriteAllUnmarks(db, b, anchorOf, st, order, w3);
    var w4 := WriteAll(b, st, order, w3);
    forall v: nat | b.Has(v) ensures InRow(b, st, w4, v) {
      EntityKinds(b, v);
      if IsNode(b.Item(v)) {
        LoweredKept(st, w3, w4, v);
        LoweredResolved(st, w4, v);
        if !st[v].isAnchor {
          LinkedKept(b, st, w3, w4, v);
          UnmarkedKept(w3, w4, v);
        }
      } else if IsProperty(b.Item(v)) {
        LoweredResolved(st, w4, v);
      }
    }
  }

  lemma PropertiesUnmarked(b: Batch, st: States, order: seq<nat>)
    requires |st| == |b.entities| + 1 && LayerOrder(b, order)
    ensures NoneMarked(b, st, order)
  {
  }

  lemma LoweredResolved(st: States, w: Written, v: nat)
    requires Lowered(st, w, v)
    ensures v in w.resolved
  {
  }

  // ------------------------------------------------------------ relations

  /** A packet that may be stored: its source has a row, its results are the processor's. */
  predicate PacketFits(db: Db, p: Packet, anchorOf: AnchorFn) {
    p.sourceID in db.rows && GroupsFit(p.groups, anchorOf)
  }

  lemma BatchRoot(db: Db, p: Packet, anchorOf: AnchorFn)
    requires TableOK(db) && PacketFits(db, p, anchorOf)
    ensures RootOf(db, PacketBatch(db, p), p.sourceID) && Plain(PacketBatch(db, p), anchorOf)
  {
    hide WellFormed, GroupsFit, Plain;
    var row := db.rows[p.sourceID];
    assert RowOK(db, p.sourceID, row);
    FinalBatchPlain(FieldsOf(row), p.groups, anchorOf);
    assert SameRoot(NewBatch(FieldsOf(row)), PacketBatch(db, p));
  }

  lemma BatchWritable(db: Db, p: Packet, anchorOf: AnchorFn)
    requires DbInv(db, anchorOf) && AnchorFnOK(anchorOf) && PacketFits(db, p, anchorOf)
    ensures var b := PacketBatch(db, p);
            var st := FinalStates(db, b, p.sourceID);
            && RootOf(db, b, p.sourceID) && Plain(b, anchorOf) && NodesInRange(b)
            && Writable(b, anchorOf, st) && AnchoredUnmarked(b, anchorOf, st) && TargetsUnmarked(b, st)
            && Untouched(b, anchorOf, InitialStates(db, b, p.sourceID), st)
  {
    var b := PacketBatch(db, p);
    BatchRoot(db, p, anchorOf);
    assert EntitiesOK(b.entities);
    hide DbInv, WellFormed, AnchorFnOK, PacketBatch, FinalStates, AnchoredUnmarked, TargetsUnmarked, Untouched,
         StatesOK, RootOf, EntitiesOK;
    FinalStatesOK(db, b, p.sourceID, anchorOf);
    NodeIDsOK(b);
    ItemsOfFit(b, anchorOf);
  }

  lemma PacketWritten(db: Db, p: Packet, order: seq<nat>, anchorOf: AnchorFn)
    requires DbInv(db, anchorOf) && AnchorFnOK(anchorOf) && PacketFits(db, p, anchorOf)
    requires LayerOrder(PacketBatch(db, p), order)
    ensures var b := PacketBatch(db, p);
            BatchIn(db, b, anchorOf, FinalStates(db, b, p.sourceID), p.sourceID, PacketRows(db, p, order))
  {
    var b := PacketBatch(db, p);
    BatchWritable(db, p, anchorOf);
    hide DbInv, AnchorFnOK, PacketBatch, WellFormed, Writable, BatchIn, LayerOrder, PacketFits, Untouched,
         AnchoredUnmarked, RootOf;
    BatchWritten(db, b, anchorOf, FinalStates(db, b, p.sourceID), p.sourceID, order);
  }
}
