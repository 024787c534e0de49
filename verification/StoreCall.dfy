/**
 `Store` as the program runs it: a project whose tables the call updates in place, loops
 over the batch's entities, an array of entity states.  The whole call is tied to `Stored`.
 */
module StoreCall {
  import opened Collections
  import opened Schema
  import opened StoreBatch
  import opened BatchBuilder
  import opened StoreResult
  import opened StoreLog
  import opened DepthLoop
  import opened Database
  import opened StoreDb
  import opened BatchFacts
  import opened EntityStates
  import opened StoreWrites
  import opened StoreStep
  import opened StoreKeeps
  import opened PropertyLayers

  // ------------------------------------------------------------ loops over the entity states

  /** The marks of all results, in place. */
  method MarkStates(states: array<EntityState>, b: Batch, rs: seq<BatchResult>)
    requires states.Length == |b.entities| + 1 && forall r <- rs :: b.Has(r.sourceID) && b.Has(r.targetID)
    modifies states
    ensures states[..] == MarkAll(b, old(states[..]), rs)
  {
    for i := 0 to |rs|
      invariant MarkAll(b, states[..], rs[i..]) == MarkAll(b, old(states[..]), rs)
    {
      assert rs[i..][0] == rs[i] && rs[i..][1..] == rs[i + 1..];
      MarkOne(states, b, rs[i]);
    }
  }

  method MarkOne(states: array<EntityState>, b: Batch, r: BatchResult)
    requires states.Length == |b.entities| + 1 && b.Has(r.sourceID) && b.Has(r.targetID)
    modifies states
    ensures states[..] == MarkResult(b, old(states[..]), r)
  {
    states[r.sourceID] := states[r.sourceID].(isAnchor := false);
    states[r.targetID] := states[r.targetID].(isAnchor := false);
    var item := b.Item(r.targetID);
    var key := NodeKey(ANCHOR_TYPE, r.result.anchor);
    if item.fields.etype == "subdomain" && r.result.outOfScope {
      if key in b.nodeIndex && b.nodeIndex[key] < states.Length && states[b.nodeIndex[key]].dbID == 1 {
        states[r.targetID] := states[r.targetID].(outOfScope := states[r.targetID].outOfScope || item.outOfScope);
      } else {
        states[r.targetID] := states[r.targetID].(outOfScope := true);
        if key in b.nodeIndex && b.nodeIndex[key] < states.Length {
          states[b.nodeIndex[key]] := states[b.nodeIndex[key]].(outOfScope := true);
        }
      }
    } else {
      states[r.targetID] := states[r.targetID].(outOfScope := states[r.targetID].outOfScope || item.outOfScope
          || r.result.outOfScope);
    }
  }

  // ------------------------------------------------------------ writing in several goes

  lemma {:induction false} WriteAllConcat(b: Batch, st: States, xs: seq<nat>, ys: seq<nat>, w: Written)
    requires |st| == |b.entities| + 1
    requires (forall i :: 0 <= i < |xs| ==> b.Has(xs[i])) && (forall i :: 0 <= i < |ys| ==> b.Has(ys[i]))
    requires forall i :: 0 <= i < |xs + ys| ==> b.Has((xs + ys)[i])
    ensures WriteAll(b, st, xs + ys, w) == WriteAll(b, st, ys, WriteAll(b, st, xs, w))
    decreases |xs|
  {
    hide WriteOne;
    if xs == [] {
      assert xs + ys == ys;
    } else {
      assert (xs + ys)[1..] == xs[1..] + ys;
      WriteAllConcat(b, st, xs[1..], ys, WriteOne(b, st, xs[0], w));
    }
  }

  lemma {:induction false} WriteAllKeys(b: Batch, st: States, ids: seq<nat>, w: Written)
    requires |st| == |b.entities| + 1 && forall i :: 0 <= i < |ids| ==> b.Has(ids[i])
    ensures WriteAll(b, st, ids, w).resolved.Keys == w.resolved.Keys + Elements(ids)
    decreases |ids|
  {
    hide Upsert, UpsertID, RowFor;
    if ids == [] {
      assert Elements(ids) == {};
    } else {
      WriteAllKeys(b, st, ids[1..], WriteOne(b, st, ids[0], w));
      assert Elements(ids) == {ids[0]} + Elements(ids[1..]);
    }
  }

  lemma LayerReady(b: Batch, resolved: map<nat, nat>, layer: seq<nat>, pending: set<nat>)
    requires Elements(layer) == set v | v in pending && b.Has(v) && b.Item(v).parentID in resolved.Keys
    requires forall v :: v in pending ==> b.Has(v) && IsProperty(b.Item(v))
    ensures Ready(b, resolved, layer) && forall i :: 0 <= i < |layer| ==> b.Has(layer[i])
  {
    forall i | 0 <= i < |layer|
      ensures b.Has(layer[i]) && IsProperty(b.Item(layer[i])) && b.Item(layer[i]).parentID in resolved {
      assert layer[i] in Elements(layer);
    }
  }

  lemma NothingInserted(b: Batch, start: set<nat>)
    ensures Inserted(b, start, Elements(b.propertyIDs), []) && Elements<nat>([]) == {}
  {
  }

  lemma InsertedHas(b: Batch, start: set<nat>, pending: set<nat>, order: seq<nat>)
    requires Inserted(b, start, pending, order)
    ensures forall i :: 0 <= i < |order| ==> b.Has(order[i])
  {
  }

  lemma LayerKeys(
    db: Db, b: Batch, anchorOf: AnchorFn, st: States, start: set<nat>, order: seq<nat>, layer: seq<nat>, w: Written)
    requires Writable(b, anchorOf, st) && |st| == |b.entities| + 1 && WriteInv(db, b, anchorOf, st, w)
    requires w.resolved.Keys == start + Elements(order)
    requires Ready(b, w.resolved, layer) && forall i :: 0 <= i < |layer| ==> b.Has(layer[i])
    ensures WriteInv(db, b, anchorOf, st, WriteAll(b, st, layer, w))
    ensures WriteAll(b, st, layer, w).resolved.Keys == start + Elements(order + layer)
  {
    hide Writable, WriteInv, Ready, WriteOne, Lowered, Advances;
    WriteAllKeeps(db, b, anchorOf, st, layer, w);
    WriteAllKeys(b, st, layer, w);
    assert Elements(order + layer) == Elements(order) + Elements(layer);
  }

  ghost function NodePassed(b: Batch, st: States, isAnchor: bool, w: Written): Written
    requires |st| == |b.entities| + 1 && NodesInRange(b)
  {
    WriteAll(b, st, NodesWhere(st, b.nodeIDs, isAnchor), w)
  }

  ghost function NodesDone(b: Batch, st: States, w0: Written): Written
    requires |st| == |b.entities| + 1 && NodesInRange(b)
  {
    SyncAll(b, st, NodesWhere(st, b.nodeIDs, false), NodePassed(b, st, false, NodePassed(b, st, true, w0)))
  }

  lemma PassesCover(st: States, ids: seq<nat>)
    requires forall i :: 0 <= i < |ids| ==> ids[i] < |st|
    ensures Elements(NodesWhere(st, ids, true)) + Elements(NodesWhere(st, ids, false)) == Elements(ids)
  {
  }

  lemma NodeRows(b: Batch, resolved: map<nat, nat>)
    requires WellFormed(b) && resolved.Keys == {b.rootID} + Elements(b.nodeIDs)
    ensures AreRows(b, resolved.Keys)
  {
    NodeIDsOK(b);
    assert b.Has(b.rootID) && !IsProperty(b.Item(b.rootID));
    forall v: nat | b.Has(v) ensures v == b.rootID || IsNode(b.Item(v)) || IsProperty(b.Item(v)) {
      EntityKinds(b, v);
    }
    hide WellFormed, NodesInRange;
    forall v: nat ensures v in resolved.Keys <==> b.Has(v) && !IsProperty(b.Item(v)) {
      assert v in Elements(b.nodeIDs) <==> v in b.nodeIDs;
    }
  }

  /** One of the two passes over the batch's nodes. */
  lemma NodePass(db: Db, b: Batch, anchorOf: AnchorFn, st: States, w: Written, isAnchor: bool)
    requires WellFormed(b) && Writable(b, anchorOf, st) && |st| == |b.entities| + 1 && NodesInRange(b)
    requires WriteInv(db, b, anchorOf, st, w)
    ensures var ids := NodesWhere(st, b.nodeIDs, isAnchor);
            && (forall i :: 0 <= i < |ids| ==> b.Has(ids[i]) && ids[i] < |st|) && Ready(b, w.resolved, ids)
            && WriteInv(db, b, anchorOf, st, WriteAll(b, st, ids, w))
            && WriteAll(b, st, ids, w).resolved.Keys == w.resolved.Keys + Elements(ids)
  {
    hide WellFormed, Writable, WriteInv, Ready, Advances, Lowered, WriteOne;
    var ids := NodesWhere(st, b.nodeIDs, isAnchor);
    NodesReady(b, st, w.resolved, isAnchor);
    WriteAllKeeps(db, b, anchorOf, st, ids, w);
    WriteAllKeys(b, st, ids, w);
  }

  lemma {:induction false} SyncAllKeys(b: Batch, st: States, ids: seq<nat>, w: Written)
    requires forall i :: 0 <= i < |ids| ==> ids[i] < |st|
    ensures SyncAll(b, st, ids, w).resolved == w.resolved
    decreases |ids|
  {
    if ids != [] {
      SyncAllKeys(b, st, ids[1..], SyncOne(b, st, ids[0], w));
    }
  }

  lemma PassKeys(b: Batch, st: States, isAnchor: bool, w: Written)
    requires |st| == |b.entities| + 1 && NodesInRange(b)
    ensures NodePassed(b, st, isAnchor, w).resolved.Keys
            == w.resolved.Keys + Elements(NodesWhere(st, b.nodeIDs, isAnchor))
  {
    var ids := NodesWhere(st, b.nodeIDs, isAnchor);
    forall i | 0 <= i < |ids| ensures b.Has(ids[i]) {
      assert ids[i] in b.nodeIDs;
    }
    WriteAllKeys(b, st, ids, w);
  }

  /** After the node passes exactly the root and the nodes have rows. */
  lemma NodesDoneOK(db: Db, b: Batch, anchorOf: AnchorFn, st: States, sourceID: nat)
    requires DbInv(db, anchorOf) && WellFormed(b) && Writable(b, anchorOf, st) && RootOf(db, b, sourceID)
    requires |st| == |b.entities| + 1 && NodesInRange(b)
    ensures var w := NodesDone(b, st, Written(db, map[b.rootID := sourceID]));
            WriteInv(db, b, anchorOf, st, w) && AreRows(b, w.resolved.Keys)
  {
    hide DbInv, WellFormed, Writable, RootOf, WriteInv, Advances, Lowered, AnchorLinked, NodesResolved, AreRows,
         WriteAll, SyncAll;
    var w0 := Written(db, map[b.rootID := sourceID]);
    RootResolved(db, b, anchorOf, st, sourceID);
    var w := NodesIn(db, b, anchorOf, st, w0);
    PassKeys(b, st, true, w0);
    var w1 := NodePassed(b, st, true, w0);
    PassKeys(b, st, false, w1);
    SyncAllKeys(b, st, NodesWhere(st, b.nodeIDs, false), NodePassed(b, st, false, w1));
    PassesCover(st, b.nodeIDs);
    NodeRows(b, w.resolved);
  }

  // ------------------------------------------------------------ the project

  class Project {
    const target: nat
    var rows: map<nat, Row>
    var nextID: nat
    var relations: set<(nat, nat)>
    var tags: set<(nat, string)>
    var logs: map<LogKey, bool>

    function Model(): Db
      reads this
    {
      Db(target, rows, nextID, relations, tags, logs)
    }

    /** The row that an insert would collide with. */
    method FindRow(row: Row) returns (found: Option<nat>)
      requires TableOK(Model())
      ensures found == Find(Model(), row)
    {
      found := None;
      var todo := rows.Keys;
      while todo != {}
        invariant todo <= rows.Keys
        invariant forall id :: id in rows.Keys - todo ==> !Collides(rows[id], row)
        decreases |todo|
      {
        var id :| id in todo;
        if Collides(rows[id], row) {
          assert Collides(rows[id], rows[Find(Model(), row).value]);
          return Some(id);
        }
        todo := todo - {id};
      }
    }

    /** INSERT ... ON CONFLICT DO UPDATE ... RETURNING id */
    method UpsertRow(row: Row) returns (id: nat)
      requires TableOK(Model())
      modifies this`rows, this`nextID
      ensures Model() == Upsert(old(Model()), row) && id == UpsertID(old(Model()), row)
    {
      var found := FindRow(row);
      match found
      case Some(existing) =>
        id := existing;
        rows := rows[id := MergeRow(rows[id], row)];
      case None =>
        id := nextID;
        rows := rows[id := row];
        nextID := nextID + 1;
    }

    /** Anchors, regular nodes, or one layer of properties. */
    method UpsertRows(b: Batch, st: States, ids: seq<nat>, resolved: map<nat, nat>, ghost db: Db,
        ghost anchorOf: AnchorFn)
      returns (resolved': map<nat, nat>)
      requires Writable(b, anchorOf, st) && |st| == |b.entities| + 1 && forall i :: 0 <= i < |ids| ==> b.Has(ids[i])
      requires WriteInv(db, b, anchorOf, st, Written(Model(), resolved)) && Ready(b, resolved, ids)
      modifies this`rows, this`nextID
      ensures Written(Model(), resolved') == WriteAll(b, st, ids, Written(old(Model()), resolved))
    {
      hide Writable, Ready, CanWrite, Advances, Lowered, Upsert, UpsertID, RowFor, TableOK, AnchorsOK, Kept,
           ResolvedOK, Sourced;
      resolved' := resolved;
      for i := 0 to |ids|
        invariant WriteInv(db, b, anchorOf, st, Written(Model(), resolved')) && Ready(b, resolved', ids[i..])
        invariant WriteAll(b, st, ids[i..], Written(Model(), resolved'))
                  == WriteAll(b, st, ids, Written(old(Model()), resolved))
      {
        ghost var w := Written(Model(), resolved');
        assert ids[i..][0] == ids[i] && ids[i..][1..] == ids[i + 1..];
        ReadyNext(b, resolved', resolved'[ids[i] := 0], ids[i..]);
        WriteOneKeeps(db, b, anchorOf, st, ids[i], w);
        ReadyNext(b, resolved', WriteOne(b, st, ids[i], w).resolved, ids[i..]);
        var id := UpsertRow(RowFor(b, st, ids[i], resolved'));
        resolved' := resolved'[ids[i] := id];
        assert Written(Model(), resolved') == WriteOne(b, st, ids[i], w);
      }
    }

    /** Sets the anchor of every regular node whose anchor has a row by now. */
    method SyncNodeAnchors(b: Batch, st: States, ids: seq<nat>, resolved: map<nat, nat>)
      requires forall i :: 0 <= i < |ids| ==> ids[i] < |st|
      modifies this`rows
      ensures Written(Model(), resolved) == SyncAll(b, st, ids, Written(old(Model()), resolved))
    {
      for i := 0 to |ids|
        invariant SyncAll(b, st, ids[i..], Written(Model(), resolved))
                  == SyncAll(b, st, ids, Written(old(Model()), resolved))
      {
        assert ids[i..][0] == ids[i] && ids[i..][1..] == ids[i + 1..];
        ghost var w := Written(Model(), resolved);
        var anchor := AnchorRow(b, st[ids[i]], resolved);
        if ids[i] in resolved && resolved[ids[i]] in rows && anchor.Some? {
          var id := resolved[ids[i]];
          rows := rows[id := rows[id].(anchor := anchor)];
        }
        assert Written(Model(), resolved) == SyncOne(b, st, ids[i], w);
      }
    }

    /** The states before the depth loop: fresh, then the source's, then whatever rows exist. */
    method LoadStates(b: Batch, sourceID: nat) returns (states: array<EntityState>)
      requires TableOK(Model()) && sourceID in rows
      ensures fresh(states) && states[..] == InitialStates(Model(), b, sourceID)
    {
      states := new EntityState[|b.entities| + 1](i => EntityState(0, false, 0, 0, "", false));
      for v := 1 to |b.entities| + 1
        invariant forall u: nat :: u < v ==> states[u] == InitialState(Model(), b, sourceID, u)
        invariant fresh(states)
      {
        var found := None;
        if IsNode(b.Item(v)) {
          found := FindRow(NodeProbe(b, v));
        }
        if found.Some? {
          states[v] := Loaded(Model(), found.value);
        } else if v == b.rootID {
          states[v] := Loaded(Model(), sourceID);
        } else {
          states[v] := EntityState(0, false, UNRESOLVED, UNRESOLVED, "", IsNode(b.Item(v)));
        }
      }
    }

    /** The nodes that are anchors only, or the others. */
    method UpsertPass(b: Batch, st: States, isAnchor: bool, resolved: map<nat, nat>, ghost db: Db,
        ghost anchorOf: AnchorFn)
      returns (resolved': map<nat, nat>)
      requires WellFormed(b) && Writable(b, anchorOf, st) && |st| == |b.entities| + 1 && NodesInRange(b)
      requires WriteInv(db, b, anchorOf, st, Written(Model(), resolved))
      modifies this`rows, this`nextID
      ensures Written(Model(), resolved') == NodePassed(b, st, isAnchor, Written(old(Model()), resolved))
      ensures WriteInv(db, b, anchorOf, st, Written(Model(), resolved'))
      ensures resolved'.Keys == resolved.Keys + Elements(NodesWhere(st, b.nodeIDs, isAnchor))
    {
      hide WellFormed, Writable, WriteInv, Ready, WriteOne;
      NodePass(db, b, anchorOf, st, Written(Model(), resolved), isAnchor);
      resolved' := UpsertRows(b, st, NodesWhere(st, b.nodeIDs, isAnchor), resolved, db, anchorOf);
    }

    /** Anchors first, then regular nodes, then their anchor links. */
    method UpsertNodes(b: Batch, st: States, sourceID: nat, ghost anchorOf: AnchorFn) returns (resolved: map<nat, nat>)
      requires DbInv(Model(), anchorOf) && WellFormed(b) && Writable(b, anchorOf, st) && RootOf(Model(), b, sourceID)
      requires |st| == |b.entities| + 1 && NodesInRange(b)
      modifies this`rows, this`nextID
      ensures Written(Model(), resolved) == NodesDone(b, st, Written(old(Model()), map[b.rootID := sourceID]))
    {
      hide DbInv, WellFormed, Writable, RootOf, WriteInv, WriteAll, SyncAll;
      ghost var db := Model();
      resolved := map[b.rootID := sourceID];
      RootResolved(db, b, anchorOf, st, sourceID);
      resolved := UpsertPass(b, st, true, resolved, db, anchorOf);
      resolved := UpsertPass(b, st, false, resolved, db, anchorOf);
      SyncNodeAnchors(b, st, NodesWhere(st, b.nodeIDs, false), resolved);
    }

    /** Layer after layer, until no property is pending. */
    method UpsertLayers(b: Batch, st: States, resolved: map<nat, nat>, ghost db: Db, ghost anchorOf: AnchorFn)
      returns (ok: bool, resolved': map<nat, nat>, ghost order: seq<nat>)
      requires Writable(b, anchorOf, st) && |st| == |b.entities| + 1 && WellFormed(b)
      requires WriteInv(db, b, anchorOf, st, Written(Model(), resolved)) && AreRows(b, resolved.Keys)
      modifies this`rows, this`nextID
      ensures ok && LayerOrder(b, order)
      ensures Written(Model(), resolved') == WriteAll(b, st, order, Written(old(Model()), resolved))
    {
      hide Writable, WellFormed, WriteInv, AreRows, Ready, LayerOrder, WriteOne, Inserted;
      NothingInserted(b, resolved.Keys);
      ghost var start, w0 := resolved.Keys, Written(Model(), resolved);
      var pending := Elements(b.propertyIDs);
      resolved', order := resolved, [];
      while pending != {}
        invariant (forall i :: 0 <= i < |order| ==> b.Has(order[i]))
        invariant Inserted(b, start, pending, order) && resolved'.Keys == start + Elements(order)
        invariant WriteInv(db, b, anchorOf, st, Written(Model(), resolved'))
        invariant Written(Model(), resolved') == WriteAll(b, st, order, w0)
        decreases |pending|
      {
        ghost var w := Written(Model(), resolved');
        var layer: seq<nat>, rest: set<nat>;
        layer, rest := TakeLayer(b, start, pending, order, resolved');
        LayerAppends(b, start, order, layer, pending);
        InsertedHas(b, start, rest, order + layer);
        LayerKeys(db, b, anchorOf, st, start, order, layer, w);
        WriteAllConcat(b, st, order, layer, w0);
        resolved' := UpsertRows(b, st, layer, resolved', db, anchorOf);
        pending, order := rest, order + layer;
      }
      AllInserted(b, start, order);
      ok := true;
    }

    /** The states that are written. */
    method ComputeStates(b: Batch, sourceID: nat) returns (st: States)
      requires TableOK(Model()) && WellFormed(b) && sourceID in rows
      ensures st == FinalStates(Model(), b, sourceID)
    {
      ItemsOK(b);
      hide WellFormed, TableOK, InitialStates, MarkAll, ManyPasses;
      var states := LoadStates(b, sourceID);
      ghost var st0 := states[..];
      states[b.rootID] := states[b.rootID].(isAnchor := false);
      assert states[..] == ClearAnchorMark(st0, b.rootID);
      MarkStates(states, b, b.results);
      RelaxDepths(states, Items(b, b.results), |b.entities|);
      st := states[..];
    }

    /** The batch of a packet, or the root alone when the packet's groups cannot be placed. */
    method BuildBatch(p: Packet) returns (b: Batch, errors: seq<ReportedError>, ghost blamed: string)
      requires p.sourceID in rows
      ensures Blames(p, blamed) && b == PacketBatch(Model(), p)
      ensures errors == StoredErrors(FieldsOf(rows[p.sourceID]), p, blamed)
    {
      hide WellFormed;
      var source := FieldsOf(rows[p.sourceID]);
      errors := p.errors;
      var fn := "";
      if p.functionRawData != map[] {
        assert p.functionRawData.Keys != {};
        fn :| fn in p.functionRawData.Keys;
      }
      blamed := fn;
      var status, builder := BuildStoreBatch(source, p.groups);
      if status.Failure? {
        errors := errors + [ReportedError(fn, "invalid_batch(core)")];
        FallbackIsEmpty(source);
        status, builder := BuildStoreBatch(source, []);
      }
      b := builder.Model();
    }

    /** All rows of one batch. */
    method WriteTables(b: Batch, st: States, sourceID: nat, ghost anchorOf: AnchorFn) returns (resolved: map<nat,
        nat>, ghost order: seq<nat>)
      requires DbInv(Model(), anchorOf) && WellFormed(b) && Writable(b, anchorOf, st) && RootOf(Model(), b, sourceID)
      requires |st| == |b.entities| + 1 && NodesInRange(b)
      modifies this`rows, this`nextID
      ensures LayerOrder(b, order) && Written(Model(), resolved) == WriteBatch(old(Model()), b, st, sourceID, order)
    {
      hide DbInv, WellFormed, Writable, RootOf, WriteInv, AreRows, LayerOrder, WriteOne, SyncOne, NodesInRange;
      ghost var db := Model();
      resolved := UpsertNodes(b, st, sourceID, anchorOf);
      NodesDoneOK(db, b, anchorOf, st, sourceID);
      var ok: bool;
      ok, resolved, order := UpsertLayers(b, st, resolved, db, anchorOf);
    }

    /** Batch, states and rows. */
    method StoreRows(p: Packet, ghost anchorOf: AnchorFn)
      returns (b: Batch, resolved: map<nat, nat>, errors: seq<ReportedError>, ghost blamed: string,
              ghost order: seq<nat>)
      requires DbInv(Model(), anchorOf) && AnchorFnOK(anchorOf) && PacketFits(Model(), p, anchorOf)
      modifies this`rows, this`nextID
      ensures Blames(p, blamed) && errors == StoredErrors(FieldsOf(old(rows)[p.sourceID]), p, blamed)
      ensures b == PacketBatch(old(Model()), p) && LayerOrder(b, order)
      ensures Written(Model(), resolved) == PacketRows(old(Model()), p, order)
    {
      hide DbInv, AnchorFnOK, WellFormed, Writable, RootOf, Plain, Untouched, AnchoredUnmarked, FinalStates,
           LayerOrder, StoredErrors, GroupsFit,
           Blames, PacketBatch, WriteBatch;
      TableFits(Model(), anchorOf);
      BatchWritable(Model(), p, anchorOf);
      b, errors, blamed := BuildBatch(p);
      var st := ComputeStates(b, p.sourceID);
      resolved, order := WriteTables(b, st, p.sourceID, anchorOf);
    }

    /** Relations, tags and the execution log. */
    method StoreFacts(p: Packet, b: Batch, resolved: map<nat, nat>, errors: seq<ReportedError>)
      modifies this`relations, this`tags, this`logs
      ensures relations == old(relations) + RelationsOf(b.results, resolved)
      ensures tags == old(tags) + TagsOf(b.results, resolved)
      ensures logs == old(logs) + LogRows(p, LogEntries(p, resolved, b.results, errors))
    {
      relations := relations + RelationsOf(b.results, resolved);
      tags := tags + TagsOf(b.results, resolved);
      var log := CollectLog(p, resolved, b.results, errors);
      logs := logs + LogRows(p, log);
    }

    /** One call.  It fails when the source has no row, and when the transaction does not commit, for
        whatever reason: then every table is as it was.  `targets` are the rows of the results, in batch order. */
    method Store(p: Packet, commits: bool, ghost anchorOf: AnchorFn)
      returns (stored: bool, targets: seq<nat>, ghost blamed: string, ghost order: seq<nat>)
      requires DbInv(Model(), anchorOf) && AnchorFnOK(anchorOf) && GroupsFit(p.groups, anchorOf)
      modifies this
      ensures stored <==> p.sourceID in old(rows) && commits
      ensures !stored ==> Model() == old(Model()) && targets == []
      ensures stored ==>
                && Blames(p, blamed) && LayerOrder(PacketBatch(old(Model()), p), order)
                && Model() == Stored(old(Model()), p, blamed, order) && |targets| <= TotalResults(p.groups)
                && targets == TargetRows(PacketBatch(old(Model()), p).results,
                   PacketRows(old(Model()), p, order).resolved)
      ensures DbInv(Model(), anchorOf)
    {
      hide DbInv, AnchorFnOK, WellFormed, LayerOrder, GroupsFit, PacketBatch, PacketRows, Blames, Stored, TargetRows;
      if p.sourceID !in rows {
        return false, [], "", [];
      }
      var rows0, nextID0, relations0, tags0, logs0 := rows, nextID, relations, tags, logs;
      targets, blamed, order := WriteAllTables(p, anchorOf);
      stored := commits;
      if !commits {
        rows, nextID, relations, tags, logs := rows0, nextID0, relations0, tags0, logs0;
        targets := [];
      }
    }

    /** Everything the transaction writes. */
    method WriteAllTables(p: Packet, ghost anchorOf: AnchorFn) returns (targets: seq<nat>, ghost blamed: string,
        ghost order: seq<nat>)
      requires DbInv(Model(), anchorOf) && AnchorFnOK(anchorOf) && PacketFits(Model(), p, anchorOf)
      modifies this
      ensures Blames(p, blamed) && LayerOrder(PacketBatch(old(Model()), p), order)
      ensures Model() == Stored(old(Model()), p, blamed, order) && |targets| <= TotalResults(p.groups)
      ensures targets == TargetRows(PacketBatch(old(Model()), p).results, PacketRows(old(Model()), p, order).resolved)
      ensures DbInv(Model(), anchorOf)
    {
      hide DbInv, AnchorFnOK, WellFormed, LayerOrder, Build, StoredErrors, GroupsFit, PacketBatch, Blames, PacketRows,
           LogEntries, LogRows,
           RelationsOf, TagsOf;
      ghost var db := Model();
      var b, resolved, errors;
      b, resolved, errors, blamed, order := StoreRows(p, anchorOf);
      RowsAlone(db, p, blamed, order, anchorOf);
      StoreFacts(p, b, resolved, errors);
      targets := ResultTargets(b, resolved);
      ResultCount(db, p);
      StoreKeepsDb(db, p, blamed, order, anchorOf);
    }
  }

  lemma TableFits(db: Db, anchorOf: AnchorFn)
    requires DbInv(db, anchorOf)
    ensures TableOK(db)
  {
  }

  lemma ResultCount(db: Db, p: Packet)
    requires p.sourceID in db.rows
    ensures |PacketBatch(db, p).results| <= TotalResults(p.groups)
  {
    FinalBatchSize(FieldsOf(db.rows[p.sourceID]), p.groups);
  }

  lemma RowsAlone(db: Db, p: Packet, blamed: string, order: seq<nat>, anchorOf: AnchorFn)
    requires DbInv(db, anchorOf) && AnchorFnOK(anchorOf) && PacketFits(db, p, anchorOf)
    requires LayerOrder(PacketBatch(db, p), order)
    ensures var w := PacketRows(db, p, order);
            w.db.relations == db.relations && w.db.tags == db.tags && w.db.logs == db.logs && w.db.target == db.target
  {
    PacketWritten(db, p, order, anchorOf);
    hide WellFormed, DbInv, LayerOrder, InRow, PacketBatch, PacketRows, FinalStates;
  }

  /** The rows that the results lead to, one for each result whose target has a row, in their order. */
  function TargetRows(results: seq<BatchResult>, resolved: map<nat, nat>): (targets: seq<nat>)
    ensures |targets| <= |results|
    ensures forall id :: id in targets <==>
              exists i :: 0 <= i < |results| && results[i].targetID in resolved
                          && id == resolved[results[i].targetID] != 0
  {
    if results == [] then []
    else
      var n := |results| - 1;
      var v := results[n].targetID;
      TargetRows(results[..n], resolved) + (if v in resolved && resolved[v] != 0 then [resolved[v]] else [])
  }

  method ResultTargets(b: Batch, resolved: map<nat, nat>) returns (targets: seq<nat>)
    ensures targets == TargetRows(b.results, resolved)
  {
    targets := [];
    for n := 0 to |b.results|
      invariant targets == TargetRows(b.results[..n], resolved)
    {
      assert b.results[..n + 1][..n] == b.results[..n];
      var v := b.results[n].targetID;
      if v in resolved && resolved[v] != 0 {
        targets := targets + [resolved[v]];
      }
    }
    assert b.results[..|b.results|] == b.results;
  }

  /** When every target has a row, no result is passed over. */
  lemma {:induction false} AllTargets(results: seq<BatchResult>, resolved: map<nat, nat>)
    requires forall i :: 0 <= i < |results| ==> results[i].targetID in resolved && resolved[results[i].targetID] != 0
    ensures |TargetRows(results, resolved)| == |results|
    ensures forall i :: 0 <= i < |results| ==> TargetRows(results, resolved)[i] == resolved[results[i].targetID]
    decreases |results|
  {
    if results != [] {
      var n := |results| - 1;
      assert forall i :: 0 <= i < n ==> results[..n][i] == results[i];
      AllTargets(results[..n], resolved);
    }
  }

  lemma TargetHasRow(db: Db, p: Packet, blamed: string, order: seq<nat>, anchorOf: AnchorFn, i: nat)
    requires DbInv(db, anchorOf) && AnchorFnOK(anchorOf) && PacketFits(db, p, anchorOf)
    requires LayerOrder(PacketBatch(db, p), order) && i < |PacketBatch(db, p).results|
    ensures var r, w := PacketBatch(db, p).results[i], PacketRows(db, p, order);
            && r.targetID in w.resolved && w.resolved[r.targetID] != 0
            && ReturnsTarget(Stored(db, p, blamed, order), w.resolved[r.targetID], r)
  {
    var b, w := PacketBatch(db, p), PacketRows(db, p, order);
    ResultTargetHas(b, i);
    assert ResultOK(b, b.results[i]) && Stored(db, p, blamed, order).rows == w.db.rows;
    hide DbInv, AnchorFnOK, PacketFits, LayerOrder, PacketBatch, PacketRows, WellFormed, FinalStates, BatchIn, Stored;
    PacketWritten(db, p, order, anchorOf);
    RowHasID(b, anchorOf, FinalStates(db, b, p.sourceID), p.sourceID, db, w, b.results[i].targetID);
    InRowMatches(b, anchorOf, FinalStates(db, b, p.sourceID), p.sourceID, db, w, b.results[i].targetID);
  }

  /** A committed call returns one row for each result of the stored batch, in batch order: the row
      of the result's target, under its type and value. */
  lemma EveryResultIsReturned(db: Db, p: Packet, blamed: string, order: seq<nat>, anchorOf: AnchorFn)
    requires DbInv(db, anchorOf) && AnchorFnOK(anchorOf) && PacketFits(db, p, anchorOf)
    requires LayerOrder(PacketBatch(db, p), order)
    ensures var results := PacketBatch(db, p).results;
            var targets := TargetRows(results, PacketRows(db, p, order).resolved);
            && |targets| == |results|
            && forall i :: 0 <= i < |results| ==> ReturnsTarget(Stored(db, p, blamed, order), targets[i], results[i])
  {
    var b, w := PacketBatch(db, p), PacketRows(db, p, order);
    var targets := TargetRows(b.results, w.resolved);
    forall i | 0 <= i < |b.results|
      ensures b.results[i].targetID in w.resolved && w.resolved[b.results[i].targetID] != 0
      ensures ReturnsTarget(Stored(db, p, blamed, order), w.resolved[b.results[i].targetID], b.results[i])
    {
      TargetHasRow(db, p, blamed, order, anchorOf, i);
    }
    hide DbInv, AnchorFnOK, PacketFits, LayerOrder, PacketBatch, PacketRows, Stored, ReturnsTarget;
    AllTargets(b.results, w.resolved);
  }

  predicate ReturnsTarget(db: Db, id: nat, r: BatchResult) {
    id in db.rows && db.rows[id].etype == r.result.etype && db.rows[id].value == r.result.value
  }

  /** The next layer is never empty, so the error for a layer that cannot be resolved never arises. */
  method TakeLayer(b: Batch, ghost start: set<nat>, pending: set<nat>, ghost order: seq<nat>, resolved: map<nat, nat>)
    returns (layer: seq<nat>, rest: set<nat>)
    requires WellFormed(b) && AreRows(b, start) && Inserted(b, start, pending, order) && pending != {}
    requires resolved.Keys == start + Elements(order)
    ensures layer != [] && rest == pending - Elements(layer) && |rest| < |pending|
    ensures forall v :: v in Elements(layer) ==>
              v in pending && b.Has(v) && b.Item(v).parentID in start + Elements(order)
    ensures forall i, j :: 0 <= i < j < |layer| ==> layer[i] != layer[j]
    ensures Ready(b, resolved, layer) && forall i :: 0 <= i < |layer| ==> b.Has(layer[i])
  {
    hide WellFormed, AreRows, Inserted, Ready;
    PendingHas(b, start, pending, order);
    var least := PendingReady(b, start, pending, order);
    layer, rest := NextLayer(b, pending, resolved.Keys);
    assert least in Elements(layer);
    assert least in pending && least !in rest;
    SubsetSize(rest, pending - {least});
    LayerReady(b, resolved, layer, pending);
  }
}
