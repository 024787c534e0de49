/**
 What a batch built from plain packets looks like to the depth loop and to the writer:
 every category is "node" or "property", and a node result carries the anchor that its
 type and value determine.
 */
module BatchFacts {
  import opened Schema
  import opened Tags
  import opened StoreBatch
  import opened StoreResult
  import opened DepthLoop
  import opened Database
  import opened StoreDb

  predicate PlainCategory(category: string) {
    category == "node" || category == "property"
  }

  /** What the processor hands over for one result. */
  predicate ResultFits(r: Result, anchorOf: AnchorFn) {
    && PlainCategory(NormalizeCategory(r.category))
    && (IsNodeResult(r) ==> r.anchor == anchorOf(r.etype, r.value))
    && ValidTags(r.tags)
  }

  predicate ResultsFit(rs: seq<Result>, anchorOf: AnchorFn) {
    forall i :: 0 <= i < |rs| ==> ResultFits(rs[i], anchorOf)
  }

  predicate GroupsFit(groups: seq<Group>, anchorOf: AnchorFn) {
    forall i :: 0 <= i < |groups| ==> ResultsFit(groups[i].results, anchorOf)
  }

  predicate PlainEntities(b: Batch) {
    forall i :: 0 <= i < |b.entities| ==> PlainCategory(b.entities[i].fields.category)
  }

  predicate PayloadFits(b: Batch, anchorOf: AnchorFn) {
    forall i :: 0 <= i < |b.results| ==> ResultFits(b.results[i].result, anchorOf)
  }

  predicate Plain(b: Batch, anchorOf: AnchorFn) {
    PlainEntities(b) && PayloadFits(b, anchorOf)
  }

  // ------------------------------------------------------------ plain packets build plain batches

  lemma AddNodePlain(b: Batch, key: NodeKey, localID: int)
    requires IndexesAgree(b) && PlainEntities(b)
    requires key in b.nodeIndex ==> b.Has(b.nodeIndex[key])
    ensures PlainEntities(AddNode(b, key, "node", localID))
  {
    hide IndexesAgree;
    if key in b.nodeIndex {
      var id := b.nodeIndex[key];
      assert AddNode(b, key, "node", localID).entities == b.entities[id - 1 := Recategorized(b.Item(id), "node")];
    }
  }

  lemma AddTargetPlain(b: Batch, sourceID: nat, r: Result)
    requires IndexesAgree(b) && b.Has(sourceID) && PlainEntities(b) && PlainCategory(NormalizeCategory(r.category))
    ensures PlainEntities(AddTarget(b, sourceID, r)) && AddTarget(b, sourceID, r).results == b.results
  {
    hide EntitiesOK, Extends, Unique, PlainScan;
    if IsNodeResult(r) {
      AddNodeKeeps(b, NodeKey(r.etype, r.value), "node", r.localID);
      AddNodePlain(b, NodeKey(r.etype, r.value), r.localID);
    } else {
      AddPropertyKeeps(b, sourceID, r);
    }
  }

  lemma AddAnchorPlain(b: Batch, anchor: string)
    requires IndexesAgree(b) && PlainEntities(b)
    ensures PlainEntities(AddAnchor(b, anchor))
  {
    hide EntitiesOK, Extends, Unique, PlainScan;
    if anchor != "" {
      AddNodeKeeps(b, NodeKey(ANCHOR_TYPE, anchor), "node", 0);
      AddNodePlain(b, NodeKey(ANCHOR_TYPE, anchor), 0);
    }
  }

  lemma PlacePlain(b: Batch, sourceID: nat, r: Result, anchorOf: AnchorFn)
    requires WellFormed(b) && b.Has(sourceID) && Plain(b, anchorOf) && ResultFits(r, anchorOf)
    ensures Plain(Place(b, sourceID, r), anchorOf)
  {
    hide IndexesAgree, ResultsOK, Ordered, Extends, AddTarget, AddAnchor;
    AddTargetPlain(b, sourceID, r);
    AddAnchorPlain(AddTarget(b, sourceID, r), r.anchor);
  }

  lemma {:induction false} PlaceAllPlain(b: Batch, sourceID: nat, rs: seq<Result>, anchorOf: AnchorFn)
    requires WellFormed(b) && b.Has(sourceID) && Plain(b, anchorOf) && ResultsFit(rs, anchorOf)
    ensures Plain(PlaceAll(b, sourceID, rs), anchorOf)
    decreases |rs|
  {
    if rs != [] {
      hide WellFormed, Place, Plain, Extends, ResultFits;
      PlaceKeeps(b, sourceID, rs[0]);
      PlacePlain(b, sourceID, rs[0], anchorOf);
      assert ResultsFit(rs[1..], anchorOf);
      PlaceAllPlain(Place(b, sourceID, rs[0]), sourceID, rs[1..], anchorOf);
    }
  }

  lemma {:induction false} RoundPlain(b: Batch, pending: seq<Group>, anchorOf: AnchorFn)
    requires WellFormed(b) && Plain(b, anchorOf) && GroupsFit(pending, anchorOf)
    ensures var out := Round(b, pending);
            out.RoundDone? ==> Plain(out.batch, anchorOf) && GroupsFit(out.next, anchorOf)
    decreases |pending|
  {
    hide WellFormed, Plain, PlaceAll, Resolve, ResultsFit;
    if pending != [] {
      ResolveMeaning(b, pending[0].source);
      match Resolve(b, RootKey(b), pending[0].source)
      case Ambiguous =>
      case Resolved(id) =>
        PlaceAllPlain(b, id, pending[0].results, anchorOf);
        RoundPlain(PlaceAll(b, id, pending[0].results), pending[1..], anchorOf);
      case Unresolved =>
        RoundPlain(b, pending[1..], anchorOf);
    }
  }

  lemma {:induction false} RoundsPlain(b: Batch, pending: seq<Group>, anchorOf: AnchorFn)
    requires WellFormed(b) && Plain(b, anchorOf) && GroupsFit(pending, anchorOf)
    ensures var out := Rounds(b, pending);
            out.Built? ==> Plain(out.batch, anchorOf)
    decreases |pending|
  {
    hide WellFormed, Plain, Round, GroupsFit;
    if pending != [] {
      RoundPlain(b, pending, anchorOf);
      var out := Round(b, pending);
      if out.RoundDone? && |out.next| != |pending| {
        RoundsPlain(out.batch, out.next, anchorOf);
      }
    }
  }

  lemma FinalBatchPlain(source: EntityFields, groups: seq<Group>, anchorOf: AnchorFn)
    requires PlainCategory(source.category) && GroupsFit(groups, anchorOf)
    ensures Plain(FinalBatch(source, groups), anchorOf)
  {
    NewBatchWellFormed(source);
    assert Plain(NewBatch(source), anchorOf);
    RoundsPlain(NewBatch(source), groups, anchorOf);
  }

  // ------------------------------------------------------------ facts used below

  /** The node index leads to the nodes it names. */
  ghost predicate Indexed(b: Batch) {
    forall k: NodeKey :: k in b.nodeIndex ==> IsNodeAt(b, b.nodeIndex[k], k)
  }

  predicate IsNodeAt(b: Batch, v: nat, k: NodeKey) {
    b.Has(v) && IsNode(b.Item(v)) && KeyOf(b.Item(v)) == k
  }

  /** The anchor that belongs to a batch entity. */
  function AnchorNameOf(b: Batch, anchorOf: AnchorFn, v: nat): string
    requires b.Has(v)
  {
    if IsNode(b.Item(v)) then anchorOf(b.Item(v).fields.etype, b.Item(v).fields.value) else ""
  }

  predicate ItemFits(b: Batch, anchorOf: AnchorFn, it: Item) {
    && b.Has(it.src) && b.Has(it.dst)
    && (it.isProperty ==> IsProperty(b.Item(it.dst)) && b.Item(it.dst).parentID == it.src)
    && (!it.isProperty ==>
          && IsNode(b.Item(it.dst)) && it.anchorName == AnchorNameOf(b, anchorOf, it.dst)
          && var key := NodeKey(ANCHOR_TYPE, it.anchorName);
             if it.anchorName == "" then it.anchor == NoAnchor
             else key in b.nodeIndex && it.anchor == AnchorAt(b.nodeIndex[key]))
  }

  ghost predicate ItemsFit(b: Batch, anchorOf: AnchorFn, items: seq<Item>) {
    forall i :: 0 <= i < |items| ==> ItemFits(b, anchorOf, items[i])
  }

  lemma ItemOfFits(b: Batch, anchorOf: AnchorFn, r: BatchResult)
    requires EntitiesOK(b.entities) && Indexed(b) && PlainEntities(b) && ResultOK(b, r)
             && ResultFits(r.result, anchorOf)
    ensures ItemFits(b, anchorOf, ItemOf(b, r))
  {
    assert PlainCategory(b.entities[r.targetID - 1].fields.category);
  }

  lemma IndexedNodes(b: Batch)
    requires IndexesAgree(b)
    ensures Indexed(b)
  {
    forall k: NodeKey | k in b.nodeIndex ensures IsNodeAt(b, b.nodeIndex[k], k) {
      NodeLookup(b, k);
    }
  }

  lemma ItemsOfFit(b: Batch, anchorOf: AnchorFn)
    requires WellFormed(b) && Plain(b, anchorOf)
    ensures Indexed(b)
    ensures forall r <- b.results :: b.Has(r.targetID) && b.Has(r.sourceID)
    ensures ItemsFit(b, anchorOf, Items(b, b.results))
  {
    assert EntitiesOK(b.entities);
    hide IndexesAgree, EntitiesOK, Ordered, ItemFits, PlainEntities, ResultFits, ResultOK;
    ItemsOK(b);
    IndexedNodes(b);
    var items := Items(b, b.results);
    forall i | 0 <= i < |items| ensures ItemFits(b, anchorOf, items[i]) {
      assert ResultOK(b, b.results[i]) && ResultFits(b.results[i].result, anchorOf);
      ItemOfFits(b, anchorOf, b.results[i]);
    }
  }
}
