/**
 The depths of the items that reach the dispatcher, handed back by a `Store` call or built for
 a resume, and what the two depth limits let through.
 */
module ItemDepths {
  import opened Collections
  import opened Schema
  import opened StoreBatch
  import opened DepthLoop
  import opened Database
  import opened StoreDb
  import opened BatchFacts
  import opened EntityStates
  import opened StoreWrites
  import opened StoreStep
  import opened StoreKeeps
  import opened PropertyLayers
  import opened StoreCall
  import D = Dispatcher
  import R = Resume

  // ------------------------------------------------------------ rows while the properties are written

  /** The rows once the first `m` properties of `order` have been written. */
  ghost function RowsAfter(db: Db, b: Batch, st: States, sourceID: nat, order: seq<nat>, m: nat): Written
    requires NodesInRange(b) && |st| == |b.entities| + 1 && LayerOrder(b, order) && m <= |order|
  {
    WriteAll(b, st, order[..m], NodesDone(b, st, Written(db, map[b.rootID := sourceID])))
  }

  lemma FirstWritten(db: Db, b: Batch, anchorOf: AnchorFn, st: States, ids: seq<nat>, w: Written)
    requires Writable(b, anchorOf, st) && |st| == |b.entities| + 1 && ids != [] && b.Has(ids[0])
    requires Ready(b, w.resolved, ids) && WriteInv(db, b, anchorOf, st, w)
    ensures CanWrite(b, ids[0], w.resolved)
    ensures WriteInv(db, b, anchorOf, st, WriteOne(b, st, ids[0], w))
            && Ready(b, WriteOne(b, st, ids[0], w).resolved, ids[1..])
  {
    hide Writable, WriteInv, CanWrite, Advances, Ready, WriteOne, Lowered;
    ReadyNext(b, w.resolved, w.resolved[ids[0] := 0], ids);
    WriteOneKeeps(db, b, anchorOf, st, ids[0], w);
    ReadyNext(b, w.resolved, WriteOne(b, st, ids[0], w).resolved, ids);
  }

  lemma ReadyPrefix(b: Batch, resolved: map<nat, nat>, ids: seq<nat>, m: nat)
    requires Ready(b, resolved, ids) && m <= |ids|
    ensures Ready(b, resolved, ids[..m])
  {
    forall i | 0 <= i < m ensures ids[..m][i] == ids[i] && ids[..m][..i] == ids[..i] {
    }
  }

  lemma ReadySuffix(b: Batch, resolved: map<nat, nat>, resolved': map<nat, nat>, ids: seq<nat>, m: nat)
    requires Ready(b, resolved, ids) && m <= |ids| && resolved.Keys + Elements(ids[..m]) <= resolved'.Keys
    ensures Ready(b, resolved', ids[m..])
  {
    forall i | 0 <= i < |ids| - m
      ensures b.Has(ids[m..][i]) && (IsProperty(b.Item(ids[m..][i])) ==>
                b.Item(ids[m..][i]).parentID in resolved' || b.Item(ids[m..][i]).parentID in ids[m..][..i])
    {
      assert ids[m..][i] == ids[m + i] && ids[..m + i] == ids[..m] + ids[m..][..i];
      assert forall p :: p in ids[..m] ==> p in Elements(ids[..m]);
    }
  }

  /** Any number of the writes, then the others. */
  lemma PrefixAdvances(db: Db, b: Batch, anchorOf: AnchorFn, st: States, ids: seq<nat>, w: Written, m: nat)
    requires Writable(b, anchorOf, st) && |st| == |b.entities| + 1 && m <= |ids|
    requires (forall i :: 0 <= i < |ids| ==> b.Has(ids[i])) && Ready(b, w.resolved, ids)
             && WriteInv(db, b, anchorOf, st, w)
    ensures forall i :: 0 <= i < m ==> b.Has(ids[..m][i])
    ensures Advances(WriteAll(b, st, ids[..m], w), WriteAll(b, st, ids, w))
  {
    hide Writable, WriteInv, Advances, Ready, Lowered, WriteAll, WriteOne, Elements;
    assert forall i :: 0 <= i < |ids| - m ==> ids[m..][i] == ids[m + i];
    var w1 := WriteAll(b, st, ids[..m], w);
    ReadyPrefix(b, w.resolved, ids, m);
    WriteAllKeeps(db, b, anchorOf, st, ids[..m], w);
    WriteAllKeys(b, st, ids[..m], w);
    ReadySuffix(b, w.resolved, w1.resolved, ids, m);
    WriteAllKeeps(db, b, anchorOf, st, ids[m..], w1);
    assert ids[..m] + ids[m..] == ids;
    WriteAllConcat(b, st, ids[..m], ids[m..], w);
  }

  // ------------------------------------------------------------ property rows are ordered at any time

  ghost predicate PropertiesOrdered(db: Db) {
    forall id :: id in db.rows && db.rows[id].category == "property" ==> db.rows[id].relaxed <= db.rows[id].strict
  }

  lemma WriteOneOrdered(db: Db, b: Batch, anchorOf: AnchorFn, st: States, v: nat, w: Written)
    requires Writable(b, anchorOf, st) && CanWrite(b, v, w.resolved) && WriteInv(db, b, anchorOf, st, w)
             && PropertiesOrdered(w.db)
    ensures PropertiesOrdered(WriteOne(b, st, v, w).db)
  {
    assert StateOK(b, anchorOf, st, v);
    RowForFits(b, anchorOf, st, v, w);
    UpsertRows(w.db, RowFor(b, st, v, w.resolved));
    hide Writable, TableOK, AnchorsOK, Kept, ResolvedOK, Sourced, RowFits, Matches, Upsert, UpsertID, RowFor, StateOK;
  }

  lemma {:induction false} WriteAllOrdered(db: Db, b: Batch, anchorOf: AnchorFn, st: States, ids: seq<nat>, w: Written)
    requires Writable(b, anchorOf, st) && |st| == |b.entities| + 1 && (forall i :: 0 <= i < |ids| ==> b.Has(ids[i]))
    requires Ready(b, w.resolved, ids) && WriteInv(db, b, anchorOf, st, w) && PropertiesOrdered(w.db)
    ensures PropertiesOrdered(WriteAll(b, st, ids, w).db)
    decreases |ids|
  {
    if ids != [] {
      hide Writable, WriteInv, CanWrite, Ready, WriteOne, PropertiesOrdered;
      FirstWritten(db, b, anchorOf, st, ids, w);
      WriteOneOrdered(db, b, anchorOf, st, ids[0], w);
      WriteAllOrdered(db, b, anchorOf, st, ids[1..], WriteOne(b, st, ids[0], w));
    }
  }

  lemma {:induction false} SyncAllOrdered(b: Batch, st: States, ids: seq<nat>, w: Written)
    requires (forall i :: 0 <= i < |ids| ==> ids[i] < |st|) && PropertiesOrdered(w.db)
    ensures PropertiesOrdered(SyncAll(b, st, ids, w).db)
    decreases |ids|
  {
    if ids != [] {
      SyncAllOrdered(b, st, ids[1..], SyncOne(b, st, ids[0], w));
    }
  }

  lemma StoredOrdered(db: Db, anchorOf: AnchorFn)
    requires DbInv(db, anchorOf)
    ensures PropertiesOrdered(db)
  {
    forall id | id in db.rows && db.rows[id].category == "property" ensures db.rows[id].relaxed <= db.rows[id].strict {
      assert RelaxedRowOK(db, anchorOf, db.rows[id]);
      assert db.rows[id].anchor.None?;
    }
  }

  lemma NodePassOrdered(db: Db, b: Batch, anchorOf: AnchorFn, st: States, w: Written, isAnchor: bool)
    requires WellFormed(b) && Writable(b, anchorOf, st) && |st| == |b.entities| + 1 && NodesInRange(b)
    requires WriteInv(db, b, anchorOf, st, w) && PropertiesOrdered(w.db)
    ensures WriteInv(db, b, anchorOf, st, NodePassed(b, st, isAnchor, w))
            && PropertiesOrdered(NodePassed(b, st, isAnchor, w).db)
  {
    hide WellFormed, Writable, WriteInv, Ready, PropertiesOrdered, WriteAll;
    NodePass(db, b, anchorOf, st, w, isAnchor);
    WriteAllOrdered(db, b, anchorOf, st, NodesWhere(st, b.nodeIDs, isAnchor), w);
  }

  lemma NodesOrdered(db: Db, b: Batch, anchorOf: AnchorFn, st: States, sourceID: nat)
    requires DbInv(db, anchorOf) && WellFormed(b) && Writable(b, anchorOf, st) && RootOf(db, b, sourceID)
    requires |st| == |b.entities| + 1 && NodesInRange(b)
    ensures PropertiesOrdered(NodesDone(b, st, Written(db, map[b.rootID := sourceID])).db)
  {
    hide DbInv, WellFormed, Writable, RootOf, WriteInv, PropertiesOrdered, WriteAll, SyncAll, NodePassed;
    var w0 := Written(db, map[b.rootID := sourceID]);
    RootResolved(db, b, anchorOf, st, sourceID);
    StoredOrdered(db, anchorOf);
    NodePassOrdered(db, b, anchorOf, st, w0, true);
    var w1 := NodePassed(b, st, true, w0);
    NodePassOrdered(db, b, anchorOf, st, w1, false);
    SyncAllOrdered(b, st, NodesWhere(st, b.nodeIDs, false), NodePassed(b, st, false, w1));
  }

  /** While the properties are written their rows keep relaxed at most strict, and only fall. */
  lemma RowsAfterOK(db: Db, b: Batch, anchorOf: AnchorFn, st: States, sourceID: nat, order: seq<nat>, m: nat)
    requires DbInv(db, anchorOf) && WellFormed(b) && Writable(b, anchorOf, st) && RootOf(db, b, sourceID)
    requires |st| == |b.entities| + 1 && NodesInRange(b) && LayerOrder(b, order) && m <= |order|
    ensures PropertiesOrdered(RowsAfter(db, b, st, sourceID, order, m).db)
    ensures Advances(RowsAfter(db, b, st, sourceID, order, m), WriteBatch(db, b, st, sourceID, order))
  {
    hide DbInv, WellFormed, Writable, RootOf, WriteInv, Ready, AreRows, PropertiesOrdered, LayerOrder, Advances,
         NodePassed;
    var w := NodesDone(b, st, Written(db, map[b.rootID := sourceID]));
    NodesDoneOK(db, b, anchorOf, st, sourceID);
    NodesOrdered(db, b, anchorOf, st, sourceID);
    OrderReady(b, w.resolved, order);
    ReadyPrefix(b, w.resolved, order, m);
    PrefixAdvances(db, b, anchorOf, st, order, w, m);
    WriteAllOrdered(db, b, anchorOf, st, order[..m], w);
    SameBatch(db, b, st, sourceID, order);
  }

  lemma OrderReady(b: Batch, resolved: map<nat, nat>, order: seq<nat>)
    requires WellFormed(b) && LayerOrder(b, order) && AreRows(b, resolved.Keys)
    ensures Ready(b, resolved, order) && forall i :: 0 <= i < |order| ==> b.Has(order[i])
  {
    assert b.Has(b.rootID) && !IsProperty(b.Item(b.rootID));
    hide WellFormed;
    assert NodesResolved(b, resolved);
    PropertiesReady(b, resolved, order);
  }

  lemma SameBatch(db: Db, b: Batch, st: States, sourceID: nat, order: seq<nat>)
    requires NodesInRange(b) && |st| == |b.entities| + 1 && LayerOrder(b, order)
    ensures WriteBatch(db, b, st, sourceID, order)
            == WriteAll(b, st, order, NodesDone(b, st, Written(db, map[b.rootID := sourceID])))
  {
  }

  // ------------------------------------------------------------ items handed back by Store

  /** The item for batch entity `v`: a node's depths are those computed for the batch, a property's
      those of its row as the insert returned it. */
  ghost predicate HandedBack(db: Db, p: Packet, order: seq<nat>, v: nat, item: D.WorkItem)
    requires p.sourceID in db.rows && LayerOrder(PacketBatch(db, p), order) && NodesInRange(PacketBatch(db, p))
  {
    var b := PacketBatch(db, p);
    var st := FinalStates(db, b, p.sourceID);
    && b.Has(v) && v in PacketRows(db, p, order).resolved && item.entityID == PacketRows(db, p, order).resolved[v]
    && if IsProperty(b.Item(v)) then
         exists m: nat :: m < |order| && ReturnedAs(db, b, st, p.sourceID, order, m, v, item)
       else item.strict == st[v].strict && item.relaxed == st[v].relaxed
  }

  ghost predicate ReturnedAs(db: Db, b: Batch, st: States, sourceID: nat, order: seq<nat>, m: nat, v: nat,
      item: D.WorkItem)
    requires NodesInRange(b) && |st| == |b.entities| + 1 && LayerOrder(b, order) && m < |order|
  {
    var w := RowsAfter(db, b, st, sourceID, order, m + 1);
    && order[m] == v && v in w.resolved && item.entityID == w.resolved[v] && item.entityID in w.db.rows
    && w.db.rows[item.entityID].category == "property"
    && item.strict == w.db.rows[item.entityID].strict && item.relaxed == w.db.rows[item.entityID].relaxed
  }

  lemma ReturnedRow(
    db: Db, b: Batch, anchorOf: AnchorFn, st: States, sourceID: nat, order: seq<nat>, m: nat, v: nat, item: D.WorkItem)
    requires DbInv(db, anchorOf) && WellFormed(b) && Writable(b, anchorOf, st) && RootOf(db, b, sourceID)
    requires |st| == |b.entities| + 1 && NodesInRange(b) && LayerOrder(b, order) && m < |order|
    requires ReturnedAs(db, b, st, sourceID, order, m, v, item)
    ensures var rows := WriteBatch(db, b, st, sourceID, order).db.rows;
            item.relaxed <= item.strict && item.entityID in rows && rows[item.entityID].strict <= item.strict
  {
    hide DbInv, WellFormed, Writable, RootOf, LayerOrder, RowsAfter, WriteBatch, NodesInRange;
    RowsAfterOK(db, b, anchorOf, st, sourceID, order, m + 1);
    assert SameRow(RowsAfter(db, b, st, sourceID, order, m + 1).db.rows[item.entityID],
                   WriteBatch(db, b, st, sourceID, order).db.rows[item.entityID]);
  }

  /** A property's item: relaxed at most strict, and its strict depth not below the committed row's. */
  lemma ReturnedDepths(db: Db, p: Packet, blamed: string, order: seq<nat>, anchorOf: AnchorFn, v: nat, item: D.WorkItem)
    requires DbInv(db, anchorOf) && AnchorFnOK(anchorOf) && PacketFits(db, p, anchorOf)
    requires LayerOrder(PacketBatch(db, p), order) && NodesInRange(PacketBatch(db, p))
    requires HandedBack(db, p, order, v, item) && IsProperty(PacketBatch(db, p).Item(v))
    ensures item.relaxed <= item.strict
    ensures item.entityID in Stored(db, p, blamed, order).rows
            && Stored(db, p, blamed, order).rows[item.entityID].strict <= item.strict
  {
    hide DbInv, AnchorFnOK, WellFormed, Writable, RootOf, Plain, AnchoredUnmarked, Untouched, TargetsUnmarked,
         LayerOrder, GroupsFit,
         PacketBatch, FinalStates, ReturnedAs, WriteBatch, StoredErrors, NodesInRange;
    var b := PacketBatch(db, p);
    var st := FinalStates(db, b, p.sourceID);
    BatchWritable(db, p, anchorOf);
    var m: nat :| m < |order| && ReturnedAs(db, b, st, p.sourceID, order, m, v, item);
    ReturnedRow(db, b, anchorOf, st, p.sourceID, order, m, v, item);
  }

  lemma RowWithin(db: Db, anchorOf: AnchorFn, id: nat, d: nat)
    requires DbInv(db, anchorOf) && id in db.rows && db.rows[id].strict <= d < UNRESOLVED
    ensures Within(db, id, d)
  {
    hide Within, TableOK, RelationsOK, AnchorsOK, RelaxedOK, TagsOK;
    WithinWeakens(db, id, db.rows[id].strict, d);
  }

  lemma StateWithin(db: Db, st: DepthLoop.States, resolved: map<nat, nat>, v: nat, d: nat)
    requires StatesSound(db, st, resolved) && v in resolved && v < |st| && st[v].strict <= d < UNRESOLVED
    ensures Within(db, resolved[v], d)
  {
    hide Within;
    WithinWeakens(db, resolved[v], st[v].strict, d);
  }

  lemma StatesAreSound(db: Db, p: Packet, blamed: string, order: seq<nat>, anchorOf: AnchorFn)
    requires DbInv(db, anchorOf) && AnchorFnOK(anchorOf) && PacketFits(db, p, anchorOf)
    requires LayerOrder(PacketBatch(db, p), order)
    ensures StatesSound(Stored(db, p, blamed, order), FinalStates(db, PacketBatch(db, p), p.sourceID),
            PacketRows(db, p, order).resolved)
  {
    hide PacketBatch, FinalStates, PacketRows, Stored, LayerOrder, AnchorFnOK, WellFormed, Writable, Plain, RootOf,
         DbInv, Committed,
         StatesSound, GroupsFit;
    BatchWritable(db, p, anchorOf);
    StoredCommits(db, p, blamed, order, anchorOf);
    FinalSound(db, Stored(db, p, blamed, order), PacketBatch(db, p), anchorOf, p.sourceID, PacketRows(db, p, order));
  }

  /** Under the strict limit a module only runs on entities within that many node hops of the initial target. */
  lemma RunsWithinHops(
    db: Db, p: Packet, blamed: string, order: seq<nat>, anchorOf: AnchorFn, v: nat,
    item: D.WorkItem, index: D.Index, limits: D.Limits, mf: D.ModuleFunction)
    requires DbInv(db, anchorOf) && AnchorFnOK(anchorOf) && PacketFits(db, p, anchorOf)
    requires LayerOrder(PacketBatch(db, p), order) && NodesInRange(PacketBatch(db, p))
             && HandedBack(db, p, order, v, item)
    requires D.WouldRun(item, index, limits, mf) && limits.strictDepth && limits.maxDepth < UNRESOLVED
    ensures Within(Stored(db, p, blamed, order), item.entityID, limits.maxDepth)
  {
    var b := PacketBatch(db, p);
    var db' := Stored(db, p, blamed, order);
    if IsProperty(b.Item(v)) {
      ReturnedDepths(db, p, blamed, order, anchorOf, v, item);
    }
    hide PacketBatch, FinalStates, PacketRows, Stored, LayerOrder, GroupsFit, AnchorFnOK, Within, WellFormed, DbInv,
         DepthsSound, StatesSound,
         ReturnedAs, NodesInRange;
    assert item.strict <= limits.maxDepth;
    if IsProperty(b.Item(v)) {
      StoreKeepsDb(db, p, blamed, order, anchorOf);
      RowWithin(db', anchorOf, item.entityID, limits.maxDepth);
    } else {
      StatesAreSound(db, p, blamed, order, anchorOf);
      StateWithin(db', FinalStates(db, b, p.sourceID), PacketRows(db, p, order).resolved, v, limits.maxDepth);
    }
  }

  /** An item that the strict limit admits, the relaxed limit admits too. */
  lemma RelaxedAdmitsMore(
    db: Db, p: Packet, order: seq<nat>, anchorOf: AnchorFn, v: nat, item: D.WorkItem, maxDepth: nat)
    requires DbInv(db, anchorOf) && AnchorFnOK(anchorOf) && PacketFits(db, p, anchorOf)
    requires LayerOrder(PacketBatch(db, p), order) && NodesInRange(PacketBatch(db, p))
             && HandedBack(db, p, order, v, item)
    requires D.ItemAllowed(item, D.Limits(maxDepth, true))
    ensures D.ItemAllowed(item, D.Limits(maxDepth, false))
  {
    var b := PacketBatch(db, p);
    if IsProperty(b.Item(v)) {
      ReturnedDepths(db, p, "", order, anchorOf, v, item);
    } else {
      BatchWritable(db, p, anchorOf);
      assert StateOK(b, anchorOf, FinalStates(db, b, p.sourceID), v);
    }
  }

  // ------------------------------------------------------------ items of a resume

  /** Both hold for the items of a resume payload as well. */
  lemma ResumedWithinHops(
    db: Db, anchorOf: AnchorFn, lists: R.TagLists, item: D.WorkItem, index: D.Index, limits: D.Limits,
        mf: D.ModuleFunction)
    requires DbInv(db, anchorOf) && R.ResumeItem(db, lists, item)
    requires D.WouldRun(item, index, limits, mf) && limits.strictDepth && limits.maxDepth < UNRESOLVED
    ensures Within(db, item.entityID, limits.maxDepth)
  {
    RowWithin(db, anchorOf, item.entityID, limits.maxDepth);
  }

  lemma ResumedRelaxedAdmitsMore(db: Db, anchorOf: AnchorFn, lists: R.TagLists, item: D.WorkItem, maxDepth: nat)
    requires DbInv(db, anchorOf) && R.ResumeItem(db, lists, item) && D.ItemAllowed(item, D.Limits(maxDepth, true))
    ensures D.ItemAllowed(item, D.Limits(maxDepth, false))
  {
    assert RelaxedRowOK(db, anchorOf, db.rows[item.entityID]);
  }
}
