/**
 `Store` as a step of the database: build the batch, load and relax the entity states,
 write nodes, anchors and properties, then relations and logs.
 */
module StoreDb {
  import opened Schema
  import opened StoreBatch
  import opened StoreResult
  import opened StoreLog
  import opened DepthLoop
  import opened Database

  function FieldsOf(row: Row): EntityFields {
    EntityFields(row.etype, row.value, NormalizeCategory(row.category))
  }

  function Loaded(db: Db, id: nat): EntityState
    requires id in db.rows
  {
    var row := db.rows[id];
    EntityState(id, EffectiveScope(db, row), row.strict, EffectiveRelaxed(db, row), AnchorName(db, row), row.isAnchor)
  }

  function NodeProbe(b: Batch, v: nat): Row
    requires b.Has(v)
  {
    Row(b.Item(v).fields.etype, b.Item(v).fields.value, "node", None, false, 0, 0, None, None)
  }

  /** The state of a batch entity before the depth loop. */
  ghost function InitialState(db: Db, b: Batch, sourceID: nat, v: nat): EntityState
    requires sourceID in db.rows
  {
    if v == 0 || !b.Has(v) then EntityState(0, false, 0, 0, "", false)
    else if IsNode(b.Item(v)) && Find(db, NodeProbe(b, v)).Some? then Loaded(db, Find(db, NodeProbe(b, v)).value)
    else if v == b.rootID then Loaded(db, sourceID)
    else EntityState(0, false, UNRESOLVED, UNRESOLVED, "", IsNode(b.Item(v)))
  }

  ghost function InitialStates(db: Db, b: Batch, sourceID: nat): (st: States)
    requires sourceID in db.rows
    ensures |st| == |b.entities| + 1
    ensures forall v: nat :: v < |st| ==> st[v] == InitialState(db, b, sourceID, v)
  {
    seq(|b.entities| + 1, (v: nat) requires 0 <= v <= |b.entities| => InitialState(db, b, sourceID, v))
  }

  // ------------------------------------------------------------ scope and anchor marks

  function SetScope(st: States, v: nat, scope: bool): States
    requires v < |st|
  {
    st[v := st[v].(outOfScope := scope)]
  }

  function ClearAnchorMark(st: States, v: nat): States
    requires v < |st|
  {
    st[v := st[v].(isAnchor := false)]
  }

  /** One result's marks: its source and target are no mere anchors, and its scope flag is
      taken over.  A blocked subdomain also blocks its anchor, except the first row's. */
  function MarkResult(b: Batch, st: States, r: BatchResult): (st': States)
    requires b.Has(r.sourceID) && b.Has(r.targetID) && |st| == |b.entities| + 1
    ensures |st'| == |st|
  {
    var marked := ClearAnchorMark(ClearAnchorMark(st, r.sourceID), r.targetID);
    var key := NodeKey(ANCHOR_TYPE, r.result.anchor);
    var own := b.Item(r.targetID).outOfScope;
    var flag := marked[r.targetID].outOfScope;
    if b.Item(r.targetID).fields.etype == "subdomain" && r.result.outOfScope then
      if key in b.nodeIndex && b.nodeIndex[key] < |st| then
        if marked[b.nodeIndex[key]].dbID == 1 then SetScope(marked, r.targetID, flag || own)
        else SetScope(SetScope(marked, r.targetID, true), b.nodeIndex[key], true)
      else SetScope(marked, r.targetID, true)
    else SetScope(marked, r.targetID, flag || own || r.result.outOfScope)
  }

  function MarkAll(b: Batch, st: States, rs: seq<BatchResult>): (st': States)
    requires |st| == |b.entities| + 1 && forall r <- rs :: b.Has(r.sourceID) && b.Has(r.targetID)
    ensures |st'| == |st|
    decreases |rs|
  {
    if rs == [] then st else MarkAll(b, MarkResult(b, st, rs[0]), rs[1..])
  }

  function Items(b: Batch, rs: seq<BatchResult>): (items: seq<Item>)
    requires forall r <- rs :: b.Has(r.targetID)
    ensures |items| == |rs| && forall i :: 0 <= i < |rs| ==> rs[i] in rs && items[i] == ItemOf(b, rs[i])
  {
    if rs == [] then [] else [ItemOf(b, rs[0])] + Items(b, rs[1..])
  }

  lemma ItemsOK(b: Batch)
    requires WellFormed(b)
    ensures forall r <- b.results :: b.Has(r.targetID) && b.Has(r.sourceID)
    ensures ItemsInRange(Items(b, b.results), |b.entities| + 1)
  {
    forall r | r in b.results ensures b.Has(r.targetID) && b.Has(r.sourceID) {
      assert ResultOK(b, r);
    }
    var items := Items(b, b.results);
    forall it | it in items ensures ItemInRange(it, |b.entities| + 1) {
      var i :| 0 <= i < |items| && items[i] == it;
      assert ResultOK(b, b.results[i]);
      if it.anchor.AnchorAt? {
        NodeLookup(b, NodeKey(ANCHOR_TYPE, b.results[i].result.anchor));
      }
    }
  }

  /** The states that enter the depth loop. */
  ghost function MarkedStates(db: Db, b: Batch, sourceID: nat): (st: States)
    requires WellFormed(b) && sourceID in db.rows
    ensures |st| == |b.entities| + 1
  {
    ItemsOK(b);
    MarkAll(b, ClearAnchorMark(InitialStates(db, b, sourceID), b.rootID), b.results)
  }

  /** The states that are written. */
  ghost function FinalStates(db: Db, b: Batch, sourceID: nat): (st: States)
    requires WellFormed(b) && sourceID in db.rows
    ensures |st| == |b.entities| + 1
  {
    ItemsOK(b);
    ManyPasses(MarkedStates(db, b, sourceID), Items(b, b.results), |b.entities|)
  }

  // ------------------------------------------------------------ writing the rows

  datatype Written = Written(db: Db, resolved: map<nat, nat>)

  /** The row of the database that a state's anchor name stands for, once that is known. */
  function AnchorRow(b: Batch, st: EntityState, resolved: map<nat, nat>): Option<nat> {
    var key := NodeKey(ANCHOR_TYPE, st.anchor);
    if st.anchor != "" && key in b.nodeIndex && b.nodeIndex[key] in resolved
    then Some(resolved[b.nodeIndex[key]]) else None
  }

  function RowFor(b: Batch, st: States, v: nat, resolved: map<nat, nat>): Row
    requires b.Has(v) && |st| == |b.entities| + 1
  {
    var e, s := b.Item(v), st[v];
    if IsProperty(e) then
      Row(e.fields.etype, e.fields.value, e.fields.category, Some(s.outOfScope), false, s.strict, s.relaxed,
          if e.parentID in resolved then Some(resolved[e.parentID]) else None, None)
    else
      Row(e.fields.etype, e.fields.value, e.fields.category, Some(s.outOfScope), s.isAnchor, s.strict, s.relaxed,
          None, if s.isAnchor then None else AnchorRow(b, s, resolved))
  }

  ghost function WriteOne(b: Batch, st: States, v: nat, w: Written): Written
    requires b.Has(v) && |st| == |b.entities| + 1
  {
    var row := RowFor(b, st, v, w.resolved);
    Written(Upsert(w.db, row), w.resolved[v := UpsertID(w.db, row)])
  }

  ghost function WriteAll(b: Batch, st: States, ids: seq<nat>, w: Written): Written
    requires |st| == |b.entities| + 1 && forall i :: 0 <= i < |ids| ==> b.Has(ids[i])
    decreases |ids|
  {
    if ids == [] then w else WriteAll(b, st, ids[1..], WriteOne(b, st, ids[0], w))
  }

  /** UPDATE entities SET anchor_id for every regular node whose anchor is part of the batch. */
  ghost function SyncOne(b: Batch, st: States, v: nat, w: Written): Written
    requires v < |st|
  {
    if v in w.resolved && w.resolved[v] in w.db.rows && AnchorRow(b, st[v], w.resolved).Some? then
      var id := w.resolved[v];
      w.(db := w.db.(rows := w.db.rows[id := w.db.rows[id].(anchor := AnchorRow(b, st[v], w.resolved))]))
    else w
  }

  ghost function SyncAll(b: Batch, st: States, ids: seq<nat>, w: Written): Written
    requires forall i :: 0 <= i < |ids| ==> ids[i] < |st|
    decreases |ids|
  {
    if ids == [] then w else SyncAll(b, st, ids[1..], SyncOne(b, st, ids[0], w))
  }

  function NodesWhere(st: States, ids: seq<nat>, isAnchor: bool): (r: seq<nat>)
    requires forall i :: 0 <= i < |ids| ==> ids[i] < |st|
    ensures forall v :: v in r <==> v in ids && st[v].isAnchor == isAnchor
    ensures |r| <= |ids| && forall i :: 0 <= i < |r| ==> r[i] in ids
    decreases |ids|
  {
    if ids == [] then []
    else (if st[ids[0]].isAnchor == isAnchor then [ids[0]] else []) + NodesWhere(st, ids[1..], isAnchor)
  }

  /** An order in which the layer loop may insert the properties: each once, parents first. */
  ghost predicate LayerOrder(b: Batch, order: seq<nat>) {
    && (forall v: nat :: v in order <==> v in b.propertyIDs)
    && (forall i, j :: 0 <= i < j < |order| ==> order[i] != order[j])
    && (forall i :: 0 <= i < |order| ==> b.Has(order[i]) && IsProperty(b.Item(order[i])))
    && (forall i :: 0 <= i < |order| ==>
         b.Item(order[i]).parentID in b.propertyIDs ==> b.Item(order[i]).parentID in order[..i])
  }

  function RelationsOf(rs: seq<BatchResult>, resolved: map<nat, nat>): set<(nat, nat)> {
    set r | r in rs && r.sourceID in resolved && r.targetID in resolved
            && resolved[r.sourceID] != resolved[r.targetID]
         :: (resolved[r.sourceID], resolved[r.targetID])
  }

  predicate NodesInRange(b: Batch) {
    forall i :: 0 <= i < |b.nodeIDs| ==> b.Has(b.nodeIDs[i])
  }

  lemma NodeIDsOK(b: Batch)
    requires WellFormed(b)
    ensures NodesInRange(b)
    ensures forall v: nat :: v in b.nodeIDs <==> b.Has(v) && IsNode(b.Item(v))
    ensures forall v: nat :: v in b.propertyIDs <==> b.Has(v) && IsProperty(b.Item(v))
  {
    assert b.nodeIDs == PlainScan(b.entities).nodeIDs && b.propertyIDs == PlainScan(b.entities).propertyIDs;
    hide WellFormed, PlainScan, IsNode, IsProperty;
    ScanIDs(b.entities);
    forall i | 0 <= i < |b.nodeIDs| ensures b.Has(b.nodeIDs[i]) {
      assert b.nodeIDs[i] in b.nodeIDs;
    }
  }

  lemma {:induction false} ScanIDs(entities: seq<BatchEntity>)
    ensures forall v: nat :: v in PlainScan(entities).nodeIDs <==> 1 <= v <= |entities| && IsNode(entities[v - 1])
    ensures forall v: nat :: v in PlainScan(entities).propertyIDs <==>
              1 <= v <= |entities| && IsProperty(entities[v - 1])
    decreases |entities|
  {
    if entities != [] {
      hide KeyOf, PropKeyOf, RefOf;
      var n := |entities| - 1;
      ScanIDs(entities[..n]);
    }
  }

  /** All rows of one packet: anchors, regular nodes, anchor links, then properties in `order`. */
  ghost function WriteBatch(db: Db, b: Batch, st: States, sourceID: nat, order: seq<nat>): Written
    requires NodesInRange(b) && |st| == |b.entities| + 1 && LayerOrder(b, order)
  {
    var w0 := Written(db, map[b.rootID := sourceID]);
    var w1 := WriteAll(b, st, NodesWhere(st, b.nodeIDs, true), w0);
    var regular := NodesWhere(st, b.nodeIDs, false);
    var w2 := SyncAll(b, st, regular, WriteAll(b, st, regular, w1));
    WriteAll(b, st, order, w2)
  }

  /** Tags go to the results' targets. */
  function TagsOf(rs: seq<BatchResult>, resolved: map<nat, nat>): set<(nat, string)> {
    set r, t | r in rs && r.targetID in resolved && t in r.result.tags && t != "" :: (resolved[r.targetID], t)
  }

  // ------------------------------------------------------------ the whole call

  /** The function named in the error of a rejected batch: any key of the raw data, or none. */
  predicate Blames(p: Packet, blamed: string) {
    if p.functionRawData == map[] then blamed == "" else blamed in p.functionRawData
  }

  /** A packet whose batch is rejected is stored without groups, with one more error. */
  ghost function StoredErrors(source: EntityFields, p: Packet, blamed: string): seq<ReportedError> {
    if Build(source, p.groups).Built? then p.errors
    else p.errors + [ReportedError(blamed, "invalid_batch(core)")]
  }

  function LogRows(p: Packet, log: Log): map<LogKey, bool> {
    map k: (nat, string) | k in log :: LogKey(k.0, p.moduleName, k.1) := log[k].ok
  }

  ghost function PacketBatch(db: Db, p: Packet): (b: Batch)
    requires p.sourceID in db.rows
    ensures WellFormed(b)
  {
    FinalBatch(FieldsOf(db.rows[p.sourceID]), p.groups)
  }

  /** The rows that the packet's batch leads to. */
  ghost function PacketRows(db: Db, p: Packet, order: seq<nat>): Written
    requires p.sourceID in db.rows && LayerOrder(PacketBatch(db, p), order)
  {
    var b := PacketBatch(db, p);
    NodeIDsOK(b);
    WriteBatch(db, b, FinalStates(db, b, p.sourceID), p.sourceID, order)
  }

  /** The database after a committed call. */
  ghost function Stored(db: Db, p: Packet, blamed: string, order: seq<nat>): Db
    requires p.sourceID in db.rows && LayerOrder(PacketBatch(db, p), order)
  {
    var b := PacketBatch(db, p);
    var w := PacketRows(db, p, order);
    var log := LogEntries(p, w.resolved, b.results, StoredErrors(FieldsOf(db.rows[p.sourceID]), p, blamed));
    w.db.(relations := w.db.relations + RelationsOf(b.results, w.resolved),
          tags := w.db.tags + TagsOf(b.results, w.resolved),
          logs := w.db.logs + LogRows(p, log))
  }
}
