/**
 The simplest step of a crawl: a function run on a stored node reports one new node, and `Store`
 adds exactly one row, one hop further out.
 */
module HopSteps {
  import opened Schema
  import opened StoreBatch
  import opened StoreResult
  import opened StoreLog
  import opened NodeBatches
  import opened DepthLoop
  import opened Database
  import opened StoreDb
  import opened BatchFacts
  import opened EntityStates
  import opened StoreStep
  import opened History
  import P = Processor
  import Q = Processing
  import S = SentPackets
  import R = Reachability

  /** The source entity with its anchor, and the node that is found on it. */
  datatype Hop = Hop(source: NodeKey, anchor: string, next: NodeKey)

  function NextResult(hop: Hop): Result {
    Result("f", hop.next.etype, "node", hop.next.value, false, false, [], "", 0)
  }

  function Groups(hop: Hop): seq<Group> {
    [Group(EntityRef(hop.source.etype, hop.source.value, hop.anchor, 0), [NextResult(hop)])]
  }

  function HopPacket(hop: Hop, sourceID: nat): Packet {
    Packet("m", sourceID, Groups(hop), [], map["f" := ""], [])
  }

  function HopRun(hop: Hop, sourceID: nat): P.Run {
    S.SendingRun(hop.source.etype, hop.source.value, "f", [], HopPacket(hop, sourceID))
  }

  // ------------------------------------------------------------ the packet is sent

  predicate ChecksAsUsual(rules: P.Rules, hop: Hop) {
    && S.Normalised(rules, hop.source.etype, hop.source.value, hop.anchor)
    && S.Normalised(rules, hop.next.etype, hop.next.value, "") && !rules.blocked(hop.next.etype, hop.next.value)
    && hop.next != hop.source && hop.next.etype != "" && hop.next.value != ""
  }

  lemma HopIsSent(rules: P.Rules, hop: Hop, sourceID: nat)
    requires ChecksAsUsual(rules, hop)
    ensures Q.IsPacket(rules, HopRun(hop, sourceID), HopPacket(hop, sourceID))
  {
    hide Q.Found, Q.IsPacket;
    S.FoundFirst(HopRun(hop, sourceID));
    var p := HopPacket(hop, sourceID);
    assert S.ResultSendable(rules, "f", [], p.groups[0].source, p.groups[0].results[0]);
    S.PacketIsSent(rules, hop.source.etype, hop.source.value, "f", [], p);
  }

  // ------------------------------------------------------------ its batch

  function Keys(hop: Hop): seq<NodeKey> {
    [hop.source, hop.next]
  }

  function HopResults(hop: Hop): seq<BatchResult> {
    [BatchResult(1, 2, NextResult(hop))]
  }

  function HopBatch(hop: Hop): Batch {
    NodeBatch(Keys(hop), 2, HopResults(hop))
  }

  function Source(hop: Hop): EntityFields {
    EntityFields(hop.source.etype, hop.source.value, "node")
  }

  lemma HopBuild(hop: Hop)
    requires hop.source != hop.next
    ensures WellFormed(HopBatch(hop)) && Build(Source(hop), Groups(hop)) == Built(HopBatch(hop))
  {
    var keys, gs := Keys(hop), Groups(hop);
    NewBatchWellFormed(Source(hop));
    SourceBatch(keys);
    hide WellFormed, Round, Rounds, Place, PlaceAll, Resolve, NodeBatch;
    var b0 := NodeBatch(keys, 1, []);
    BatchHas(keys, 1, [], 1);
    ResolveName(keys, 1, [], gs[0].source, 0);
    RoundPlaces(b0, gs, 1);
    PlaceName(keys, 1, [], 1, NextResult(hop), 1);
    OneResult(b0, 1, NextResult(hop));
    assert [] + HopResults(hop) == HopResults(hop);
    assert gs[1..] == [];
    NoneLeft(HopBatch(hop));
    OneRound(b0, gs, HopBatch(hop));
  }

  lemma HopItems(hop: Hop)
    requires hop.source != hop.next
    ensures var b := HopBatch(hop);
            && |b.entities| == 2 && b.rootID == 1 && b.results == HopResults(hop) && b.nodeIDs == [1, 2]
               && b.propertyIDs == []
            && b.Item(1) == FreshNode(hop.source) && b.Item(2) == FreshNode(hop.next) && IsNode(b.Item(1))
               && IsNode(b.Item(2))
            && (forall k :: k in b.nodeIndex <==> k == hop.source || k == hop.next)
            && b.Has(1) && b.Has(2) && Items(b, b.results) == [Item(1, 2, false, "", NoAnchor)]
  {
    var keys := Keys(hop);
    assert "node" != "property" by { assert "node"[0] == 'n'; }
    assert keys[..2] == keys && keys[..1] == [hop.source] && keys[..1][..0] == [];
    assert IndexOf([]) == map[] && IndexOf([hop.source]) == map[][hop.source := 1];
    assert UpTo(1) == UpTo(0) + [1] == [1] && UpTo(2) == UpTo(1) + [2] == [1, 2];
    var b := HopBatch(hop);
    assert ItemOf(b, b.results[0]) == Item(1, 2, false, "", NoAnchor);
    assert b.results[1..] == [] && Items(b, []) == [];
  }

  // ------------------------------------------------------------ its states

  /** The stored source: no mere anchor, not blocked, at these depths, and its anchor is no part of the batch. */
  predicate StoredAt(db: Db, id: nat, hop: Hop, strict: nat, relaxed: nat) {
    && id in db.rows && SameNode(db.rows[id], hop.source.etype, hop.source.value) && !db.rows[id].isAnchor
    && !EffectiveScope(db, db.rows[id]) && db.rows[id].scope != Some(true)
    && db.rows[id].strict == strict && EffectiveRelaxed(db, db.rows[id]) == relaxed && db.rows[id].relaxed <= relaxed
    && strict + 1 < UNRESOLVED && relaxed + 1 < UNRESOLVED
    && (AnchorName(db, db.rows[id]) != "" ==>
         NodeKey(ANCHOR_TYPE, AnchorName(db, db.rows[id])) !in {hop.source, hop.next})
  }

  predicate Unknown(db: Db, k: NodeKey) {
    forall id :: id in db.rows ==> !SameNode(db.rows[id], k.etype, k.value)
  }

  predicate HopStates(db: Db, id: nat, strict: nat, relaxed: nat, st: States)
    requires id in db.rows
  {
    && |st| == 3
    && st[1] == EntityState(id, false, strict, relaxed, AnchorName(db, db.rows[id]), false)
    && st[2] == EntityState(0, false, strict + 1, relaxed + 1, "", false)
  }

  lemma HopInitial(db: Db, id: nat, hop: Hop, strict: nat, relaxed: nat)
    requires TableOK(db) && StoredAt(db, id, hop, strict, relaxed) && Unknown(db, hop.next) && hop.source != hop.next
    ensures var st := InitialStates(db, HopBatch(hop), id);
            |st| == 3 && st[1] == Loaded(db, id) && st[2] == EntityState(0, false, UNRESOLVED, UNRESOLVED, "", true)
  {
    HopItems(hop);
    hide HopBatch, TableOK;
    var b := HopBatch(hop);
    FindNode(db, b, 1);
    FindNode(db, b, 2);
    assert InitialStates(db, b, id)[1] == InitialState(db, b, id, 1)
           && InitialStates(db, b, id)[2] == InitialState(db, b, id, 2);
  }

  lemma HopMarked(b: Batch, hop: Hop, st: States, id: nat)
    requires hop.source != hop.next && b == HopBatch(hop)
    requires |st| == 3 && b.rootID == 1 && |b.entities| == 2 && b.results == HopResults(hop)
             && b.Item(2) == FreshNode(hop.next)
    requires hop.next.etype != "subdomain" && !st[2].outOfScope && !st[1].isAnchor
    ensures forall r <- b.results :: b.Has(r.sourceID) && b.Has(r.targetID)
    ensures MarkAll(b, ClearAnchorMark(st, 1), b.results) == st[2 := st[2].(isAnchor := false)]
  {
    hide HopBatch;
    var r := BatchResult(1, 2, NextResult(hop));
    assert b.results == [r] && b.results[1..] == [];
    var st0 := ClearAnchorMark(st, 1);
    assert st0 == st;
    assert MarkResult(b, st, r) == st[2 := st[2].(isAnchor := false)];
    assert MarkAll(b, MarkResult(b, st, r), []) == MarkResult(b, st, r);
  }

  lemma {:induction false} HopPasses(st: States, strict: nat, relaxed: nat)
    requires |st| == 3 && st[1].strict == strict && st[1].relaxed == relaxed && strict + 1 < UNRESOLVED
             && relaxed + 1 < UNRESOLVED
    requires st[2].strict == UNRESOLVED && st[2].relaxed == UNRESOLVED
    ensures ItemsInRange([Item(1, 2, false, "", NoAnchor)], 3)
    ensures ManyPasses(st, [Item(1, 2, false, "", NoAnchor)], 2)
            == st[2 := st[2].(strict := strict + 1, relaxed := relaxed + 1)]
  {
    var it := Item(1, 2, false, "", NoAnchor);
    var st' := Step(st, it);
    assert [it][1..] == [] && st' == st[2 := st[2].(strict := strict + 1, relaxed := relaxed + 1)];
    assert OnePass(st, [it]) == OnePass(st', []) == st';
    assert Step(st', it) == st';
    assert OnePass(st', [it]) == OnePass(st', []) == st';
    StablePasses(st', [it], 1);
  }

  lemma HopFinal(db: Db, id: nat, hop: Hop, strict: nat, relaxed: nat)
    requires TableOK(db) && StoredAt(db, id, hop, strict, relaxed) && Unknown(db, hop.next) && hop.source != hop.next
    requires hop.next.etype != "subdomain" && WellFormed(HopBatch(hop))
    ensures HopStates(db, id, strict, relaxed, FinalStates(db, HopBatch(hop), id))
  {
    HopItems(hop);
    HopInitial(db, id, hop, strict, relaxed);
    var b := HopBatch(hop);
    var st := InitialStates(db, b, id);
    HopMarked(b, hop, st, id);
    hide WellFormed, HopBatch, TableOK, Unknown, InitialStates;
    var st' := st[2 := st[2].(isAnchor := false)];
    assert MarkedStates(db, b, id) == st';
    HopPasses(st', strict, relaxed);
    hide MarkedStates, MarkAll, ManyPasses;
    assert FinalStates(db, b, id) == st'[2 := st'[2].(strict := strict + 1, relaxed := relaxed + 1)];
  }

  // ------------------------------------------------------------ its rows

  function NextRow(hop: Hop, strict: nat, relaxed: nat): Row {
    Row(hop.next.etype, hop.next.value, "node", Some(false), false, strict + 1, relaxed + 1, None, None)
  }

  /** The source's row is merged with itself. */
  lemma SourceUnchanged(db: Db, id: nat, hop: Hop, strict: nat, relaxed: nat, row: Row)
    requires TableOK(db) && StoredAt(db, id, hop, strict, relaxed)
    requires row == Row(hop.source.etype, hop.source.value, "node", Some(false), false, strict, relaxed, None, None)
    ensures Upsert(db, row) == db && UpsertID(db, row) == id
  {
    assert RowOK(db, id, db.rows[id]);
    var found := Find(db, row);
    assert Collides(db.rows[id], row);
    assert Collides(db.rows[id], db.rows[found.value]);
    assert found == Some(id);
    assert MergeRow(db.rows[id], row) == db.rows[id];
    assert db.rows[id := db.rows[id]] == db.rows;
  }

  lemma NextInserted(db: Db, hop: Hop, row: Row)
    requires Unknown(db, hop.next) && row.etype == hop.next.etype && row.value == hop.next.value
             && row.category == "node"
    ensures Upsert(db, row) == db.(rows := db.rows[db.nextID := row], nextID := db.nextID + 1)
            && UpsertID(db, row) == db.nextID
  {
    assert Find(db, row).None?;
  }

  function HopRows(db: Db, hop: Hop, strict: nat, relaxed: nat): map<nat, Row> {
    db.rows[db.nextID := NextRow(hop, strict, relaxed)]
  }

  function HopResult(db: Db, id: nat, hop: Hop, strict: nat, relaxed: nat): Written {
    Written(db.(rows := HopRows(db, hop, strict, relaxed), nextID := db.nextID + 1), map[1 := id, 2 := db.nextID])
  }

  lemma {:induction false} HopRegular(db: Db, id: nat, strict: nat, relaxed: nat, st: States)
    requires id in db.rows && HopStates(db, id, strict, relaxed, st)
    ensures NodesWhere(st, [1, 2], true) == [] && NodesWhere(st, [1, 2], false) == [1, 2]
  {
    assert [1, 2][1..] == [2] && [2][1..] == [];
    assert NodesWhere(st, [], true) == [] && NodesWhere(st, [], false) == [];
    assert NodesWhere(st, [2], true) == [] && NodesWhere(st, [2], false) == [2];
  }

  lemma {:induction false} NothingSynced(b: Batch, st: States, w: Written)
    requires |st| == 3 && AnchorRow(b, st[1], w.resolved).None? && AnchorRow(b, st[2], w.resolved).None?
    ensures SyncAll(b, st, [1, 2], w) == w
  {
    assert [1, 2][1..] == [2] && [2][1..] == [];
    assert SyncAll(b, st, [2], w) == SyncAll(b, st, [], w) == w;
  }

  lemma {:induction false} WriteParts(db: Db, b: Batch, st: States, id: nat, w: Written)
    requires NodesInRange(b) && |b.entities| == 2 && |st| == 3 && LayerOrder(b, []) && b.rootID == 1
             && b.nodeIDs == [1, 2]
    requires NodesWhere(st, [1, 2], true) == [] && NodesWhere(st, [1, 2], false) == [1, 2]
    requires WriteAll(b, st, [1, 2], Written(db, map[1 := id])) == w && SyncAll(b, st, [1, 2], w) == w
    ensures WriteBatch(db, b, st, id, []) == w
  {
    hide NodesWhere, SyncAll, WriteOne;
    assert WriteAll(b, st, [], Written(db, map[1 := id])) == Written(db, map[1 := id]) && WriteAll(b, st, [], w) == w;
  }

  lemma HopWritten(db: Db, id: nat, hop: Hop, strict: nat, relaxed: nat, st: States)
    requires TableOK(db) && StoredAt(db, id, hop, strict, relaxed) && Unknown(db, hop.next) && hop.source != hop.next
    requires HopStates(db, id, strict, relaxed, st)
    ensures var b := HopBatch(hop);
            && NodesInRange(b) && |st| == |b.entities| + 1 && LayerOrder(b, [])
            && WriteBatch(db, b, st, id, []) == HopResult(db, id, hop, strict, relaxed)
  {
    HopItems(hop);
    WriteTwo(db, id, hop, strict, relaxed, st);
    HopRegular(db, id, strict, relaxed, st);
    hide HopBatch, TableOK, Upsert, UpsertID, Unknown, HopRows, NodesWhere, WriteAll, WriteBatch;
    var b, w := HopBatch(hop), HopResult(db, id, hop, strict, relaxed);
    NothingSynced(b, st, w);
    WriteParts(db, b, st, id, w);
  }

  lemma WriteTwo(db: Db, id: nat, hop: Hop, strict: nat, relaxed: nat, st: States)
    requires TableOK(db) && StoredAt(db, id, hop, strict, relaxed) && Unknown(db, hop.next) && hop.source != hop.next
    requires HopStates(db, id, strict, relaxed, st)
    ensures var b := HopBatch(hop);
            && |b.entities| == 2 && b.Has(1) && b.Has(2)
            && WriteAll(b, st, [1, 2], Written(db, map[1 := id])) == HopResult(db, id, hop, strict, relaxed)
  {
    HopItems(hop);
    var b := HopBatch(hop);
    hide HopBatch, TableOK, Upsert, UpsertID, Unknown;
    var w0 := Written(db, map[1 := id]);
    var row1, row2 := RowFor(b, st, 1, w0.resolved), RowFor(b, st, 2, w0.resolved);
    assert row1 == Row(hop.source.etype, hop.source.value, "node", Some(false), false, strict, relaxed, None, None);
    assert row2 == NextRow(hop, strict, relaxed);
    SourceUnchanged(db, id, hop, strict, relaxed, row1);
    NextInserted(db, hop, row2);
    assert map[1 := id][1 := id] == map[1 := id];
    assert WriteOne(b, st, 1, w0) == w0;
    assert map[1 := id][2 := db.nextID] == map[1 := id, 2 := db.nextID];
    assert [1, 2][1..] == [2] && [2][1..] == [];
    assert WriteAll(b, st, [2], w0) == WriteAll(b, st, [], WriteOne(b, st, 2, w0));
  }

  // ------------------------------------------------------------ the step

  lemma HopPacketRows(db: Db, id: nat, hop: Hop, strict: nat, relaxed: nat)
    requires TableOK(db) && StoredAt(db, id, hop, strict, relaxed) && Unknown(db, hop.next) && hop.source != hop.next
    requires hop.next.etype != "subdomain"
    ensures var p := HopPacket(hop, id);
            LayerOrder(PacketBatch(db, p), []) && PacketRows(db, p, []) == HopResult(db, id, hop, strict, relaxed)
  {
    HopBuild(hop);
    assert FieldsOf(db.rows[id]) == Source(hop);
    hide Build, WellFormed, HopBatch, TableOK, Unknown, LayerOrder, WriteBatch, HopResult, StoredAt, HopStates;
    assert PacketBatch(db, HopPacket(hop, id)) == HopBatch(hop);
    HopFinal(db, id, hop, strict, relaxed);
    HopWritten(db, id, hop, strict, relaxed, FinalStates(db, HopBatch(hop), id));
  }

  /** Relations, tags and logs do not touch the rows. */
  lemma StoredRows(db: Db, p: Packet, blamed: string, order: seq<nat>)
    requires p.sourceID in db.rows && LayerOrder(PacketBatch(db, p), order)
    ensures var db', w := Stored(db, p, blamed, order), PacketRows(db, p, order).db;
            db'.rows == w.rows && db'.target == w.target && db'.nextID == w.nextID
  {
    hide LayerOrder, PacketBatch, PacketRows, LogEntries, LogRows, RelationsOf, TagsOf, StoredErrors;
  }

  lemma HopFits(db: Db, hop: Hop, id: nat, anchorOf: AnchorFn)
    requires id in db.rows && anchorOf(hop.next.etype, hop.next.value) == ""
    ensures PacketFits(db, HopPacket(hop, id), anchorOf) && Blames(HopPacket(hop, id), "f")
  {
    assert "f" in HopPacket(hop, id).functionRawData;
  }

  /** Storing the packet adds one row, one hop further out, and touches no other. */
  lemma HopStored(db: Db, id: nat, hop: Hop, strict: nat, relaxed: nat, anchorOf: AnchorFn)
    requires TableOK(db) && StoredAt(db, id, hop, strict, relaxed) && Unknown(db, hop.next) && hop.source != hop.next
    requires hop.next.etype != "subdomain" && anchorOf(hop.next.etype, hop.next.value) == ""
    ensures var p := HopPacket(hop, id);
            && PacketFits(db, p, anchorOf) && LayerOrder(PacketBatch(db, p), [])
            && var db' := Stored(db, p, "f", []);
               && StoresTo(db, db', anchorOf, p, "f", []) && db'.target == db.target && db'.nextID == db.nextID + 1
               && db'.rows == HopRows(db, hop, strict, relaxed)
  {
    var p := HopPacket(hop, id);
    HopPacketRows(db, id, hop, strict, relaxed);
    HopFits(db, hop, id, anchorOf);
    StoredRows(db, p, "f", []);
    hide TableOK, Unknown, LayerOrder, PacketBatch, PacketRows, Stored, HopRows, GroupsFit, Blames;
  }
}
