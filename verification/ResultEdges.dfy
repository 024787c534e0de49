/**
 The edges that the depth loop works on, told from the batch's results alone, and the depths it
 starts from: what `BatchSources.PacketDepthsIff` calls exact.
 */
module ResultEdges {
  import opened Schema
  import opened StoreBatch
  import opened SourceLookup
  import opened ShortestPaths
  import opened DepthLoop
  import opened Database
  import opened StoreDb
  import opened BatchFacts
  import opened EntityStates
  import opened StoreWrites
  import opened StoreStep
  import opened StoreColumns
  import opened BatchSources

  /** A property is as deep as its source, a node one step deeper. */
  predicate StrictHop(b: Batch, i: nat, e: Edge) {
    i < |b.results| &&
    e == Edge(b.results[i].sourceID, b.results[i].targetID, if b.results[i].result.category == "property" then 0 else 1)
  }

  /** A node with an anchor is as deep as the anchor, and the anchor one step deeper than the source. */
  ghost predicate RelaxedHop(b: Batch, i: nat, e: Edge) {
    i < |b.results| &&
    if b.results[i].result.category == "property" || b.results[i].result.anchor == "" then StrictHop(b, i, e)
    else exists a: nat :: ViaAnchor(b, b.results[i], a, e)
  }

  predicate ViaAnchor(b: Batch, r: BatchResult, a: nat, e: Edge) {
    NodeNamed(b, a, ANCHOR_TYPE, r.result.anchor) && (e == Edge(r.sourceID, a, 1) || e == Edge(a, r.targetID, 0))
  }

  lemma TargetCategory(b: Batch, anchorOf: AnchorFn, i: nat)
    requires WellFormed(b) && Plain(b, anchorOf) && i < |b.results|
    ensures b.Has(b.results[i].targetID)
    ensures b.Item(b.results[i].targetID).fields.category == "property" <==> b.results[i].result.category == "property"
  {
    assert ResultOK(b, b.results[i]) && ResultFits(b.results[i].result, anchorOf);
    hide WellFormed, KeyOf;
    var e := b.Item(b.results[i].targetID);
    assert e == b.entities[b.results[i].targetID - 1] && PlainCategory(e.fields.category);
  }

  lemma AnchorOfItem(b: Batch, i: nat)
    requires WellFormed(b) && i < |b.results| && b.results[i].result.anchor != ""
    ensures var r := b.results[i];
            && b.Has(r.targetID) && ItemOf(b, r).anchor.AnchorAt?
            && forall a: nat :: NodeNamed(b, a, ANCHOR_TYPE, r.result.anchor) <==> a == ItemOf(b, r).anchor.id
  {
    var r := b.results[i];
    assert ResultOK(b, r);
    NodeIndexMeaning(b.entities);
    var key := NodeKey(ANCHOR_TYPE, r.result.anchor);
    FoundNode(b, key);
    forall a: nat | NodeNamed(b, a, ANCHOR_TYPE, r.result.anchor) ensures a == b.nodeIndex[key] {
      assert b.Item(a) == b.entities[a - 1];
    }
  }

  lemma {:induction false} RelaxedEdgesOf(items: seq<Item>, e: Edge)
    ensures e in RelaxedEdges(items) <==> exists i :: 0 <= i < |items| && e in RelaxedEdge(items[i])
    decreases |items|
  {
    if items != [] {
      RelaxedEdgesOf(items[1..], e);
      assert items == [items[0]] + items[1..];
    }
  }

  lemma HopsOf(b: Batch, anchorOf: AnchorFn, i: nat, e: Edge)
    requires WellFormed(b) && Plain(b, anchorOf) && i < |b.results|
    ensures b.Has(b.results[i].targetID)
    ensures e == StrictEdge(ItemOf(b, b.results[i])) <==> StrictHop(b, i, e)
    ensures e in RelaxedEdge(ItemOf(b, b.results[i])) <==> RelaxedHop(b, i, e)
  {
    hide WellFormed, Plain;
    TargetCategory(b, anchorOf, i);
    if b.results[i].result.anchor != "" {
      AnchorOfItem(b, i);
      var r := b.results[i];
      var a := ItemOf(b, r).anchor.id;
      assert NodeNamed(b, a, ANCHOR_TYPE, r.result.anchor);
      assert ViaAnchor(b, r, a, e) <==> e == Edge(r.sourceID, a, 1) || e == Edge(a, r.targetID, 0);
    }
  }

  /** The edges are the results': each gives its strict hop, and its relaxed hop or the two by way
      of its anchor, and there are no others. */
  lemma EdgesMeaning(db: Db, p: Packet, anchorOf: AnchorFn, e: Edge)
    requires DbInv(db, anchorOf) && AnchorFnOK(anchorOf) && PacketFits(db, p, anchorOf)
    ensures var b := PacketBatch(db, p);
            && (forall r <- b.results :: b.Has(r.targetID))
            && (e in StrictEdges(Items(b, b.results)) <==> exists i: nat :: StrictHop(b, i, e))
            && (e in RelaxedEdges(Items(b, b.results)) <==> exists i: nat :: RelaxedHop(b, i, e))
  {
    hide WellFormed, Plain, PacketBatch, DbInv, AnchorFnOK, GroupsFit, StrictHop, RelaxedHop, StrictEdge, RelaxedEdge,
         RelaxedEdges, ItemOf;
    PacketLoop(db, p, anchorOf);
    PacketIsWellFormed(db, p, anchorOf);
    var b := PacketBatch(db, p);
    var items := Items(b, b.results);
    RelaxedEdgesOf(items, e);
    forall i: nat | i < |b.results|
      ensures e == StrictEdges(items)[i] <==> StrictHop(b, i, e)
      ensures e in RelaxedEdge(items[i]) <==> RelaxedHop(b, i, e)
    {
      assert items[i] == ItemOf(b, b.results[i]);
      HopsOf(b, anchorOf, i, e);
    }
    HopsInRange(b, e);
  }

  lemma HopsInRange(b: Batch, e: Edge)
    ensures forall i: nat :: StrictHop(b, i, e) || RelaxedHop(b, i, e) ==> i < |b.results|
  {
  }

  lemma PacketIsWellFormed(db: Db, p: Packet, anchorOf: AnchorFn)
    requires DbInv(db, anchorOf) && PacketFits(db, p, anchorOf)
    ensures WellFormed(PacketBatch(db, p)) && Plain(PacketBatch(db, p), anchorOf)
  {
    hide WellFormed, Plain, GroupsFit;
    BatchRoot(db, p, anchorOf);
  }

  /** The loop starts from the depths of the stored rows, an anchored row's relaxed depth being its
      anchor's; entities without a row start without a depth. */
  lemma StartingDepths(db: Db, b: Batch, sourceID: nat, v: nat)
    requires TableOK(db) && RootOf(db, b, sourceID) && WellFormed(b) && b.Has(v)
    ensures var s := MarkedStates(db, b, sourceID)[v];
            && (!WasStored(db, b, sourceID, v) ==> s.strict == UNRESOLVED && s.relaxed == UNRESOLVED)
            && forall id :: LoadedAs(db, b, sourceID, v, id) ==>
                 var row := db.rows[id];
                 && s.strict == row.strict
                 && (row.anchor.None? ==> s.relaxed == row.relaxed)
                 && (row.anchor.Some? && row.anchor.value in db.rows ==> s.relaxed == db.rows[row.anchor.value].relaxed)
  {
    MarksOnly(db, b, sourceID);
    var x := InitialSource(db, b, sourceID, v);
    hide WellFormed, MarkedStates, InitialStates, TableOK;
    forall id | LoadedAs(db, b, sourceID, v, id) ensures x == id {
      if x in db.rows {
        assert LoadedAs(db, b, sourceID, v, x);
        LoadedOnce(db, b, sourceID, v, x, id);
      }
    }
    assert x in db.rows ==> LoadedAs(db, b, sourceID, v, x);
  }
}
