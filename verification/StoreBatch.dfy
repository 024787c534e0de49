/**
 The in-memory batch that the repository builds from one packet: one entity array, the
 indexes over it, and the list of results with their resolved source and target.
 */
module StoreBatch {
  import opened Schema

  datatype BatchEntity = BatchEntity(
    parentID: nat, fields: EntityFields, anchor: string, outOfScope: bool, tags: seq<string>)

  datatype NodeKey = NodeKey(etype: string, value: string)
  datatype PropertyKey = PropertyKey(parentID: nat, etype: string, value: string)
  datatype BatchResult = BatchResult(sourceID: nat, targetID: nat, result: Result)

  datatype Batch = Batch(
    rootID: nat, entities: seq<BatchEntity>,
    nodeIndex: map<NodeKey, nat>, nodeIDs: seq<nat>,
    propertyIndex: map<PropertyKey, nat>, propertyRefs: map<string, seq<nat>>, propertyIDs: seq<nat>,
    results: seq<BatchResult>, localIDMap: map<int, nat>)
  {
    predicate Has(id: nat) { 1 <= id <= |entities| }

    /** Ids count from 1; id 0 means "no entity". */
    function Item(id: nat): BatchEntity
      requires Has(id)
    {
      entities[id - 1]
    }
  }

  datatype Resolution = Unresolved | Ambiguous | Resolved(id: nat)
  datatype BuildOutcome = Built(batch: Batch) | SourceAmbiguous | SourceUnresolvable

  // ------------------------------------------------------------ the operations

  function AppendUniqueTags(dst: seq<string>, src: seq<string>): (r: seq<string>)
    ensures forall t :: t in r <==> t in dst || (t in src && t != "")
    decreases |src|
  {
    if src == [] then dst
    else AppendUniqueTags(if src[0] == "" || src[0] in dst then dst else dst + [src[0]], src[1..])
  }

  function NodeID(b: Batch, key: NodeKey): nat {
    if key in b.nodeIndex then b.nodeIndex[key] else |b.entities| + 1
  }

  function WithLocalID(m: map<int, nat>, localID: int, id: nat): map<int, nat> {
    if localID != 0 then m[localID := id] else m
  }

  function Replace(b: Batch, id: nat, e: BatchEntity): Batch
    requires b.Has(id)
  {
    b.(entities := b.entities[id - 1 := e])
  }

  function AppendNode(b: Batch, key: NodeKey, category: string): Batch {
    var id := |b.entities| + 1;
    b.(entities := b.entities + [BatchEntity(0, EntityFields(key.etype, key.value, category), "", false, [])],
       nodeIndex := b.nodeIndex[key := id],
       nodeIDs := b.nodeIDs + [id])
  }

  function AppendProperty(b: Batch, parentID: nat, r: Result): Batch {
    var id := |b.entities| + 1;
    var ref := EntityKey(r.etype, r.value);
    b.(entities := b.entities + [BatchEntity(parentID,
         EntityFields(r.etype, r.value, NormalizeCategory(r.category)), r.anchor, r.outOfScope,
         AppendUniqueTags([], r.tags))],
       propertyIndex := b.propertyIndex[PropertyKeyOf(parentID, r) := id],
       propertyRefs := b.propertyRefs[ref := Refs(b, ref) + [id]],
       propertyIDs := b.propertyIDs + [id])
  }

  function Recategorized(e: BatchEntity, category: string): BatchEntity {
    if category == "" then e else e.(fields := e.fields.(category := category))
  }

  function Merged(e: BatchEntity, r: Result): BatchEntity {
    e.(outOfScope := e.outOfScope || r.outOfScope,
       tags := AppendUniqueTags(e.tags, r.tags),
       anchor := if e.anchor == "" then r.anchor else e.anchor)
  }

  function AddNode(b: Batch, key: NodeKey, category: string, localID: int): Batch
    requires key in b.nodeIndex ==> b.Has(b.nodeIndex[key])
  {
    var id := NodeID(b, key);
    var b' := if key in b.nodeIndex then Replace(b, id, Recategorized(b.Item(id), category))
              else AppendNode(b, key, category);
    b'.(localIDMap := WithLocalID(b.localIDMap, localID, id))
  }

  function PropertyKeyOf(parentID: nat, r: Result): PropertyKey {
    PropertyKey(parentID, r.etype, r.value)
  }

  function PropertyID(b: Batch, parentID: nat, r: Result): nat {
    var key := PropertyKeyOf(parentID, r);
    if key in b.propertyIndex then b.propertyIndex[key] else |b.entities| + 1
  }

  function Refs(b: Batch, key: string): seq<nat> {
    if key in b.propertyRefs then b.propertyRefs[key] else []
  }

  function AddProperty(b: Batch, parentID: nat, r: Result): Batch
    requires PropertyKeyOf(parentID, r) in b.propertyIndex ==> b.Has(b.propertyIndex[PropertyKeyOf(parentID, r)])
  {
    var id := PropertyID(b, parentID, r);
    var b' := if PropertyKeyOf(parentID, r) in b.propertyIndex then Replace(b, id, Merged(b.Item(id), r))
              else AppendProperty(b, parentID, r);
    b'.(localIDMap := WithLocalID(b.localIDMap, r.localID, id))
  }

  function Resolve(b: Batch, rootKey: string, source: EntityRef): Resolution {
    if source.localID != 0 then
      if source.localID in b.localIDMap then Resolved(b.localIDMap[source.localID]) else Unresolved
    else
      var key := EntityKey(source.etype, source.value);
      var node := NodeKey(source.etype, source.value);
      if key == rootKey then Resolved(b.rootID)
      else if node in b.nodeIndex then Resolved(b.nodeIndex[node])
      else if |Refs(b, key)| == 0 then Unresolved
      else if |Refs(b, key)| == 1 then Resolved(Refs(b, key)[0])
      else Ambiguous
  }

  // ------------------------------------------------------------ agreement with a plain scan

  predicate IsNode(e: BatchEntity) { e.parentID == 0 && e.fields.category != "property" }
  predicate IsProperty(e: BatchEntity) { e.parentID != 0 }

  function KeyOf(e: BatchEntity): NodeKey { NodeKey(e.fields.etype, e.fields.value) }
  function PropKeyOf(e: BatchEntity): PropertyKey { PropertyKey(e.parentID, e.fields.etype, e.fields.value) }
  function RefOf(e: BatchEntity): string { EntityKey(e.fields.etype, e.fields.value) }

  /** The five indexes, as one pass over the entity array computes them. */
  datatype Indexes = Indexes(
    nodeIndex: map<NodeKey, nat>, nodeIDs: seq<nat>,
    propertyIndex: map<PropertyKey, nat>, propertyRefs: map<string, seq<nat>>, propertyIDs: seq<nat>)

  function IndexesOf(b: Batch): Indexes {
    Indexes(b.nodeIndex, b.nodeIDs, b.propertyIndex, b.propertyRefs, b.propertyIDs)
  }

  function PlainScan(entities: seq<BatchEntity>): Indexes {
    if entities == [] then Indexes(map[], [], map[], map[], [])
    else
      var id := |entities|;
      var e := entities[id - 1];
      var x := PlainScan(entities[..id - 1]);
      if IsNode(e) then
        x.(nodeIndex := x.nodeIndex[KeyOf(e) := id], nodeIDs := x.nodeIDs + [id])
      else if IsProperty(e) then
        var refs := if RefOf(e) in x.propertyRefs then x.propertyRefs[RefOf(e)] else [];
        x.(propertyIndex := x.propertyIndex[PropKeyOf(e) := id],
           propertyRefs := x.propertyRefs[RefOf(e) := refs + [id]],
           propertyIDs := x.propertyIDs + [id])
      else x
  }

  /** No two nodes share a type and value; no two properties share parent, type and value. */
  predicate Unique(entities: seq<BatchEntity>) {
    entities != [] ==>
      var e := entities[|entities| - 1];
      var x := PlainScan(entities[..|entities| - 1]);
      && Unique(entities[..|entities| - 1])
      && (IsNode(e) ==> KeyOf(e) !in x.nodeIndex)
      && (IsProperty(e) ==> PropKeyOf(e) !in x.propertyIndex)
  }

  /** For every local id, the target of the last result that carries it. */
  ghost function LocalTargets(results: seq<BatchResult>): map<int, nat> {
    if results == [] then map[]
    else
      var last := results[|results| - 1];
      WithLocalID(LocalTargets(results[..|results| - 1]), last.result.localID, last.targetID)
  }

  /** Only the root may be neither a node nor a property of the batch. */
  ghost predicate EntitiesOK(es: seq<BatchEntity>) {
    && es != [] && es[0].parentID == 0
    && forall i :: 0 <= i < |es| ==>
         && es[i].parentID <= i
         && (IsNode(es[i]) || IsProperty(es[i]) || i == 0)
         && (IsProperty(es[i]) ==> es[i].fields.category != "node")
  }

  ghost predicate IndexesAgree(b: Batch) {
    b.rootID == 1 && EntitiesOK(b.entities) && Unique(b.entities) && IndexesOf(b) == PlainScan(b.entities)
  }

  ghost predicate ResultOK(b: Batch, r: BatchResult) {
    && b.Has(r.sourceID) && b.Has(r.targetID)
    && KeyOf(b.Item(r.targetID)) == NodeKey(r.result.etype, r.result.value)
    && (if NormalizeCategory(r.result.category) == "node" then IsNode(b.Item(r.targetID))
        else IsProperty(b.Item(r.targetID)) && b.Item(r.targetID).parentID == r.sourceID)
    && (r.result.anchor != "" ==> NodeKey(ANCHOR_TYPE, r.result.anchor) in b.nodeIndex)
  }

  ghost predicate ResultsOK(b: Batch) {
    forall r <- b.results :: ResultOK(b, r)
  }

  /** `id` is the root, or an earlier result's target, or an earlier result's anchor node. */
  ghost predicate Introduced(b: Batch, id: nat, n: nat)
    requires b.Has(id) && n <= |b.results|
  {
    || id == b.rootID
    || exists j :: 0 <= j < n && (b.results[j].targetID == id || Anchors(b, b.results[j], id))
  }

  ghost predicate Anchors(b: Batch, r: BatchResult, id: nat)
    requires b.Has(id)
  {
    r.result.anchor != "" && IsNode(b.Item(id)) && KeyOf(b.Item(id)) == NodeKey(ANCHOR_TYPE, r.result.anchor)
  }

  /** Sources are introduced before they are used, and every entity is introduced. */
  ghost predicate Ordered(b: Batch)
    requires ResultsOK(b)
  {
    && (forall id: nat :: b.Has(id) ==> Introduced(b, id, |b.results|))
    && (forall i :: 0 <= i < |b.results| ==> b.results[i] in b.results && Introduced(b, b.results[i].sourceID, i))
  }

  ghost predicate WellFormed(b: Batch) {
    IndexesAgree(b) && ResultsOK(b) && Ordered(b) && b.localIDMap == LocalTargets(b.results)
  }

  // ------------------------------------------------------------ every operation keeps the agreement

  /** `b'` has every entity of `b` at the same id, of the same kind and name, and every node key. */
  ghost predicate Extends(b: Batch, b': Batch) {
    && b'.rootID == b.rootID && |b.entities| <= |b'.entities|
    && (forall id: nat :: b.Has(id) ==> SameIdentity(b.Item(id), b'.Item(id)))
    && b.nodeIndex.Keys <= b'.nodeIndex.Keys
  }

  predicate SameIdentity(e: BatchEntity, e': BatchEntity) {
    && e'.parentID == e.parentID && KeyOf(e') == KeyOf(e)
    && (e'.fields.category == "property" <==> e.fields.category == "property")
    && (IsProperty(e) ==> e'.fields.category == e.fields.category)
  }

  /** `index` leads to the nodes among `entities` and nowhere else, each under its own key. */
  ghost predicate IndexesNodes(entities: seq<BatchEntity>, index: map<NodeKey, nat>) {
    && (forall i :: 0 <= i < |entities| && IsNode(entities[i]) ==>
          KeyOf(entities[i]) in index && index[KeyOf(entities[i])] == i + 1)
    && (forall k :: k in index ==>
          var id := index[k];
          1 <= id <= |entities| && IsNode(entities[id - 1]) && KeyOf(entities[id - 1]) == k)
  }

  lemma IndexesOneMore(entities: seq<BatchEntity>, e: BatchEntity, index: map<NodeKey, nat>)
    requires IndexesNodes(entities, index) && (IsNode(e) ==> KeyOf(e) !in index)
    ensures IndexesNodes(entities + [e], if IsNode(e) then index[KeyOf(e) := |entities| + 1] else index)
  {
  }

  /** What the scanned node index means. */
  lemma {:induction false} NodeIndexMeaning(entities: seq<BatchEntity>)
    requires Unique(entities)
    ensures IndexesNodes(entities, PlainScan(entities).nodeIndex)
    decreases |entities|
  {
    if entities != [] {
      hide IndexesNodes, IsNode, KeyOf, PropKeyOf, RefOf;
      var n := |entities| - 1;
      NodeIndexMeaning(entities[..n]);
      IndexesOneMore(entities[..n], entities[n], PlainScan(entities[..n]).nodeIndex);
      assert entities[..n] + [entities[n]] == entities;
    }
  }

  lemma {:induction false} PropertyIndexMeaning(entities: seq<BatchEntity>)
    requires Unique(entities)
    ensures forall i :: 0 <= i < |entities| && IsProperty(entities[i]) ==>
              PropKeyOf(entities[i]) in PlainScan(entities).propertyIndex
              && PlainScan(entities).propertyIndex[PropKeyOf(entities[i])] == i + 1
    ensures forall k :: k in PlainScan(entities).propertyIndex ==>
              var id := PlainScan(entities).propertyIndex[k];
              1 <= id <= |entities| && IsProperty(entities[id - 1]) && PropKeyOf(entities[id - 1]) == k
    decreases |entities|
  {
    if entities != [] {
      PropertyIndexMeaning(entities[..|entities| - 1]);
    }
  }

  predicate IsPropertyNamed(e: BatchEntity, key: string) {
    !IsNode(e) && IsProperty(e) && RefOf(e) == key
  }

  function RefsIn(x: Indexes, key: string): seq<nat> {
    if key in x.propertyRefs then x.propertyRefs[key] else []
  }

  /** `propertyRefs` lists, for each colon-joined key, the properties with that key: every one of
      them, no other, each once and in order; a key without properties has no list. */
  lemma {:induction false} PropertyRefsMeaning(entities: seq<BatchEntity>, key: string)
    ensures var refs := RefsIn(PlainScan(entities), key);
            && (forall id: nat :: id in refs <==> 1 <= id <= |entities| && IsPropertyNamed(entities[id - 1], key))
            && forall i, j :: 0 <= i < j < |refs| ==> refs[i] < refs[j]
    ensures key in PlainScan(entities).propertyRefs <==>
              exists i :: 0 <= i < |entities| && IsPropertyNamed(entities[i], key)
    ensures key in PlainScan(entities).propertyRefs ==>
              PlainScan(entities).propertyRefs[key] != [] &&
              forall id <- PlainScan(entities).propertyRefs[key] ::
                1 <= id <= |entities| && IsProperty(entities[id - 1]) && RefOf(entities[id - 1]) == key
    decreases |entities|
  {
    if entities != [] {
      var n := |entities| - 1;
      PropertyRefsMeaning(entities[..n], key);
      assert forall i :: 0 <= i < n ==> entities[..n][i] == entities[i];
      var old_, refs := RefsIn(PlainScan(entities[..n]), key), RefsIn(PlainScan(entities), key);
      assert refs == if IsPropertyNamed(entities[n], key) then old_ + [n + 1] else old_;
      assert forall i :: 0 <= i < |old_| ==> old_[i] in old_;
    }
  }

  lemma {:induction false} ReplaceScan(es: seq<BatchEntity>, i: nat, e: BatchEntity)
    requires i < |es| && SameIdentity(es[i], e)
    ensures PlainScan(es[i := e]) == PlainScan(es) && Unique(es[i := e]) == Unique(es)
    decreases |es|
  {
    var n := |es| - 1;
    if i < n {
      assert es[i := e][..n] == es[..n][i := e];
      ReplaceScan(es[..n], i, e);
    } else {
      assert es[i := e][..n] == es[..n];
    }
  }

  lemma ReplaceEntity(b: Batch, b': Batch, id: nat, e: BatchEntity)
    requires EntitiesOK(b.entities) && b.Has(id) && SameIdentity(b.Item(id), e)
    requires b'.rootID == b.rootID && b'.entities == b.entities[id - 1 := e]
    requires b.nodeIndex.Keys <= b'.nodeIndex.Keys
    ensures EntitiesOK(b'.entities) && Extends(b, b')
  {
  }

  lemma AppendEntity(b: Batch, b': Batch, e: BatchEntity)
    requires EntitiesOK(b.entities) && b'.rootID == b.rootID && b'.entities == b.entities + [e]
    requires e.parentID <= |b.entities| && (IsNode(e) || (IsProperty(e) && e.fields.category != "node"))
    requires b.nodeIndex.Keys <= b'.nodeIndex.Keys
    ensures EntitiesOK(b'.entities) && Extends(b, b')
    ensures b'.entities[..|b'.entities| - 1] == b.entities
  {
  }

  lemma AppendNodeScan(b: Batch, key: NodeKey, category: string)
    requires Unique(b.entities) && IndexesOf(b) == PlainScan(b.entities)
    requires category != "property" && key !in b.nodeIndex
    ensures var b' := AppendNode(b, key, category);
            Unique(b'.entities) && IndexesOf(b') == PlainScan(b'.entities)
  {
    var b' := AppendNode(b, key, category);
    assert b'.entities[..|b.entities|] == b.entities;
  }

  lemma NodeLookup(b: Batch, key: NodeKey)
    requires IndexesAgree(b) && key in b.nodeIndex
    ensures b.Has(b.nodeIndex[key]) && IsNode(b.Item(b.nodeIndex[key])) && KeyOf(b.Item(b.nodeIndex[key])) == key
  {
    NodeIndexMeaning(b.entities);
  }

  lemma PropertyLookup(b: Batch, key: PropertyKey)
    requires IndexesAgree(b) && key in b.propertyIndex
    ensures var id := b.propertyIndex[key];
            b.Has(id) && IsProperty(b.Item(id)) && PropKeyOf(b.Item(id)) == key
  {
    PropertyIndexMeaning(b.entities);
  }

  lemma AddNodeKeeps(b: Batch, key: NodeKey, category: string, localID: int)
    requires IndexesAgree(b) && category != "property"
    ensures key in b.nodeIndex ==> b.Has(b.nodeIndex[key])
    ensures var b' := AddNode(b, key, category, localID);
            && IndexesAgree(b') && Extends(b, b') && b'.nodeIndex.Keys == b.nodeIndex.Keys + {key}
            && NodeID(b, key) == b'.nodeIndex[key]
  {
    hide EntitiesOK, Extends, Unique, PlainScan;
    var id := NodeID(b, key);
    if key in b.nodeIndex {
      NodeLookup(b, key);
      var e := Recategorized(b.Item(id), category);
      ReplaceScan(b.entities, id - 1, e);
      ReplaceEntity(b, AddNode(b, key, category, localID), id, e);
    } else {
      AppendNodeScan(b, key, category);
      var b' := AddNode(b, key, category, localID);
      AppendEntity(b, b', b'.entities[id - 1]);
    }
  }

  lemma AddPropertyKeeps(b: Batch, parentID: nat, r: Result)
    requires IndexesAgree(b) && b.Has(parentID) && NormalizeCategory(r.category) != "node"
    ensures PropertyKeyOf(parentID, r) in b.propertyIndex ==> b.Has(b.propertyIndex[PropertyKeyOf(parentID, r)])
    ensures var b' := AddProperty(b, parentID, r);
            && IndexesAgree(b') && Extends(b, b') && b'.nodeIndex.Keys == b.nodeIndex.Keys
            && PropertyKeyOf(parentID, r) in b'.propertyIndex
            && PropertyID(b, parentID, r) == b'.propertyIndex[PropertyKeyOf(parentID, r)]
  {
    hide EntitiesOK, Extends;
    var id := PropertyID(b, parentID, r);
    if PropertyKeyOf(parentID, r) in b.propertyIndex {
      PropertyLookup(b, PropertyKeyOf(parentID, r));
      var e := Merged(b.Item(id), r);
      ReplaceScan(b.entities, id - 1, e);
      ReplaceEntity(b, AddProperty(b, parentID, r), id, e);
    } else {
      var b' := AddProperty(b, parentID, r);
      AppendEntity(b, b', b'.entities[id - 1]);
    }
  }

  // ------------------------------------------------------------ placing one result

  predicate IsNodeResult(r: Result) {
    NormalizeCategory(r.category) == "node"
  }

  ghost function AddTarget(b: Batch, sourceID: nat, r: Result): (b': Batch)
    requires IndexesAgree(b) && b.Has(sourceID)
    ensures IndexesAgree(b') && Extends(b, b')
  {
    if IsNodeResult(r) then
      AddNodeKeeps(b, NodeKey(r.etype, r.value), "node", r.localID);
      AddNode(b, NodeKey(r.etype, r.value), "node", r.localID)
    else
      AddPropertyKeeps(b, sourceID, r);
      AddProperty(b, sourceID, r)
  }

  function TargetID(b: Batch, sourceID: nat, r: Result): nat {
    if IsNodeResult(r) then NodeID(b, NodeKey(r.etype, r.value)) else PropertyID(b, sourceID, r)
  }

  ghost function AddAnchor(b: Batch, anchor: string): (b': Batch)
    requires IndexesAgree(b)
    ensures IndexesAgree(b') && Extends(b, b')
  {
    if anchor == "" then b
    else
      AddNodeKeeps(b, NodeKey(ANCHOR_TYPE, anchor), "node", 0);
      AddNode(b, NodeKey(ANCHOR_TYPE, anchor), "node", 0)
  }

  /** One iteration of the innermost loop of the build. */
  ghost function Place(b: Batch, sourceID: nat, r: Result): (b': Batch)
    requires WellFormed(b) && b.Has(sourceID)
    ensures IndexesAgree(b') && Extends(b, b') && b'.Has(sourceID)
    ensures b'.results == b.results + [BatchResult(sourceID, TargetID(b, sourceID, r), r)]
  {
    var b' := AddAnchor(AddTarget(b, sourceID, r), r.anchor);
    b'.(results := b.results + [BatchResult(sourceID, TargetID(b, sourceID, r), r)])
  }

  lemma TargetFacts(b: Batch, sourceID: nat, r: Result)
    requires IndexesAgree(b) && b.Has(sourceID)
    ensures var b' := AddTarget(b, sourceID, r);
            var id := TargetID(b, sourceID, r);
            && b'.Has(id) && KeyOf(b'.Item(id)) == NodeKey(r.etype, r.value)
            && (if IsNodeResult(r) then IsNode(b'.Item(id))
                else IsProperty(b'.Item(id)) && b'.Item(id).parentID == sourceID)
            && |b'.entities| <= |b.entities| + 1 && (|b'.entities| != |b.entities| ==> id == |b'.entities|)
            && b'.localIDMap == WithLocalID(b.localIDMap, r.localID, id)
  {
    hide Extends, EntitiesOK;
    var b' := AddTarget(b, sourceID, r);
    if IsNodeResult(r) {
      var key := NodeKey(r.etype, r.value);
      AddNodeKeeps(b, key, "node", r.localID);
      NodeLookup(b', key);
    } else {
      AddPropertyKeeps(b, sourceID, r);
      PropertyLookup(b', PropertyKeyOf(sourceID, r));
    }
  }

  lemma AnchorFacts(b: Batch, anchor: string)
    requires IndexesAgree(b)
    ensures var b' := AddAnchor(b, anchor);
            && (anchor != "" ==> NodeKey(ANCHOR_TYPE, anchor) in b'.nodeIndex)
            && |b'.entities| <= |b.entities| + 1
            && (|b'.entities| != |b.entities| ==>
                 anchor != "" && IsNode(b'.Item(|b'.entities|))
                     && KeyOf(b'.Item(|b'.entities|)) == NodeKey(ANCHOR_TYPE, anchor))
            && b'.localIDMap == b.localIDMap && b'.results == b.results
  {
    hide Extends, EntitiesOK;
    if anchor != "" {
      AddNodeKeeps(b, NodeKey(ANCHOR_TYPE, anchor), "node", 0);
    }
  }

  lemma ResultExtends(b: Batch, b': Batch, r: BatchResult)
    requires ResultOK(b, r) && Extends(b, b')
    ensures ResultOK(b', r)
  {
  }

  lemma IntroducedExtends(b: Batch, b': Batch, id: nat, n: nat)
    requires b.Has(id) && Extends(b, b') && n <= |b.results| <= |b'.results|
    requires b'.results[..|b.results|] == b.results
    requires Introduced(b, id, n)
    ensures b'.Has(id) && Introduced(b', id, n)
  {
    assert SameIdentity(b.Item(id), b'.Item(id));
    if id != b.rootID {
      var j :| 0 <= j < n && (b.results[j].targetID == id || Anchors(b, b.results[j], id));
      assert b'.results[j] == b.results[j];
    }
  }

  lemma PlaceResultsOK(b: Batch, sourceID: nat, r: Result)
    requires WellFormed(b) && b.Has(sourceID)
    ensures ResultsOK(Place(b, sourceID, r))
  {
    hide EntitiesOK;
    var b1 := AddTarget(b, sourceID, r);
    var b' := Place(b, sourceID, r);
    TargetFacts(b, sourceID, r);
    AnchorFacts(b1, r.anchor);
    forall x | x in b'.results ensures ResultOK(b', x) {
      if x in b.results {
        ResultExtends(b, b', x);
      } else {
        assert SameIdentity(b1.Item(x.targetID), b'.Item(x.targetID));
      }
    }
  }

  lemma PlaceIntroduces(b: Batch, sourceID: nat, r: Result, id: nat)
    requires WellFormed(b) && b.Has(sourceID) && !b.Has(id) && Place(b, sourceID, r).Has(id)
    ensures Introduced(Place(b, sourceID, r), id, |b.results| + 1)
  {
    hide IndexesAgree, ResultsOK, Ordered, Extends, AddTarget, AddAnchor, TargetID, LocalTargets;
    var b1 := AddTarget(b, sourceID, r);
    var b' := Place(b, sourceID, r);
    TargetFacts(b, sourceID, r);
    AnchorFacts(b1, r.anchor);
    var x := b'.results[|b.results|];
    assert id == |b1.entities| || id == |b'.entities|;
    assert x.targetID == id || Anchors(b', x, id);
  }

  lemma PlaceOrdered(b: Batch, sourceID: nat, r: Result)
    requires WellFormed(b) && b.Has(sourceID) && ResultsOK(Place(b, sourceID, r))
    ensures Ordered(Place(b, sourceID, r))
  {
    hide EntitiesOK, Introduced, Extends;
    var b' := Place(b, sourceID, r);
    var n := |b.results|;
    assert b'.results[..n] == b.results;
    forall id: nat | b'.Has(id) ensures Introduced(b', id, n + 1) {
      if b.Has(id) {
        IntroducedExtends(b, b', id, n);
        IntroducedLater(b', id, n);
      } else {
        PlaceIntroduces(b, sourceID, r, id);
      }
    }
    forall i | 0 <= i <= n ensures b'.results[i] in b'.results && Introduced(b', b'.results[i].sourceID, i) {
      if i < n {
        assert b'.results[i] == b.results[i];
        IntroducedExtends(b, b', b.results[i].sourceID, i);
      } else {
        IntroducedExtends(b, b', sourceID, n);
      }
    }
  }

  lemma IntroducedLater(b: Batch, id: nat, n: nat)
    requires b.Has(id) && n < |b.results| && Introduced(b, id, n)
    ensures Introduced(b, id, n + 1)
  {
  }

  lemma PlaceLocalIDs(b: Batch, sourceID: nat, r: Result)
    requires WellFormed(b) && b.Has(sourceID)
    ensures Place(b, sourceID, r).localIDMap == LocalTargets(Place(b, sourceID, r).results)
    ensures Place(b, sourceID, r).localIDMap.Keys == b.localIDMap.Keys + (if r.localID == 0 then {} else {r.localID})
  {
    hide IndexesAgree, ResultsOK, Ordered, Extends, AddTarget, AddAnchor, TargetID;
    var b' := Place(b, sourceID, r);
    TargetFacts(b, sourceID, r);
    AnchorFacts(AddTarget(b, sourceID, r), r.anchor);
    assert b'.results[..|b.results|] == b.results;
  }

  lemma PlaceKeeps(b: Batch, sourceID: nat, r: Result)
    requires WellFormed(b) && b.Has(sourceID)
    ensures WellFormed(Place(b, sourceID, r))
  {
    PlaceResultsOK(b, sourceID, r);
    PlaceOrdered(b, sourceID, r);
    PlaceLocalIDs(b, sourceID, r);
  }

  // ------------------------------------------------------------ placing a group, a round, all rounds

  ghost function RootKey(b: Batch): string
    requires WellFormed(b)
  {
    RefOf(b.Item(b.rootID))
  }

  /** The root keeps its type, its value and its kind. */
  predicate SameRoot(b: Batch, b': Batch) {
    && b.Has(b.rootID) && b'.Has(b'.rootID) && b'.rootID == b.rootID
    && SameIdentity(b.Item(b.rootID), b'.Item(b'.rootID))
  }

  ghost function PlaceAll(b: Batch, sourceID: nat, rs: seq<Result>): (b': Batch)
    requires WellFormed(b) && b.Has(sourceID)
    ensures WellFormed(b') && b'.Has(sourceID) && RootKey(b') == RootKey(b) && SameRoot(b, b')
    decreases |rs|
  {
    if rs == [] then b
    else
      PlaceKeeps(b, sourceID, rs[0]);
      assert SameIdentity(b.Item(b.rootID), Place(b, sourceID, rs[0]).Item(b.rootID));
      PlaceAll(Place(b, sourceID, rs[0]), sourceID, rs[1..])
  }

  /** A resolved source is an entity that is in the batch, and it is the one that the
      reference names: by local id, or by its colon-joined type and value. */
  lemma ResolveMeaning(b: Batch, source: EntityRef)
    requires WellFormed(b)
    ensures var x := Resolve(b, RootKey(b), source);
            x.Resolved? ==>
              && b.Has(x.id)
              && (source.localID == 0 ==> RefOf(b.Item(x.id)) == EntityKey(source.etype, source.value))
              && (source.localID != 0 ==> exists r <- b.results ::
                   r.result.localID == source.localID && r.targetID == x.id)
  {
    if source.localID != 0 {
      if source.localID in b.localIDMap {
        LocalTargetsMeaning(b.results, source.localID);
        var r :| r in b.results && r.result.localID == source.localID && r.targetID == b.localIDMap[source.localID];
        assert ResultOK(b, r);
      }
    } else {
      var refs := Refs(b, EntityKey(source.etype, source.value));
      assert refs != [] ==> refs[0] in refs;
      if NodeKey(source.etype, source.value) in b.nodeIndex {
        NodeLookup(b, NodeKey(source.etype, source.value));
      }
      PropertyRefsMeaning(b.entities, EntityKey(source.etype, source.value));
    }
  }

  lemma {:induction false} LocalTargetsMeaning(results: seq<BatchResult>, localID: int)
    requires localID in LocalTargets(results)
    ensures localID != 0
    ensures exists r <- results :: r.result.localID == localID && r.targetID == LocalTargets(results)[localID]
    decreases |results|
  {
    var n := |results| - 1;
    if results[n].result.localID == localID && localID != 0 {
      assert results[n] in results;
    } else {
      LocalTargetsMeaning(results[..n], localID);
      var r :| r in results[..n] && r.result.localID == localID && r.targetID == LocalTargets(results[..n])[localID];
      assert r in results;
    }
  }

  datatype RoundOutcome = RoundAmbiguous | RoundDone(batch: Batch, next: seq<Group>)

  /** One pass over the pending groups: resolved groups are placed, the others are kept. */
  ghost function Round(b: Batch, pending: seq<Group>): (out: RoundOutcome)
    requires WellFormed(b)
    ensures out.RoundDone? ==> WellFormed(out.batch) && RootKey(out.batch) == RootKey(b) && SameRoot(b, out.batch)
                               && |out.next| <= |pending|
    decreases |pending|
  {
    if pending == [] then RoundDone(b, [])
    else
      ResolveMeaning(b, pending[0].source);
      match Resolve(b, RootKey(b), pending[0].source)
      case Ambiguous => RoundAmbiguous
      case Resolved(id) => Round(PlaceAll(b, id, pending[0].results), pending[1..])
      case Unresolved => Keep(pending[0], Round(b, pending[1..]))
  }

  function Keep(g: Group, out: RoundOutcome): RoundOutcome {
    if out.RoundDone? then out.(next := [g] + out.next) else out
  }

  /** Rounds until nothing is pending; a round that places nothing is an error. */
  ghost function Rounds(b: Batch, pending: seq<Group>): (out: BuildOutcome)
    requires WellFormed(b)
    ensures out.Built? ==> WellFormed(out.batch) && RootKey(out.batch) == RootKey(b) && SameRoot(b, out.batch)
    decreases |pending|
  {
    if pending == [] then Built(b)
    else
      match Round(b, pending)
      case RoundAmbiguous => SourceAmbiguous
      case RoundDone(b', next) =>
        if |next| == |pending| then SourceUnresolvable else Rounds(b', next)
  }

  function NewBatch(source: EntityFields): Batch {
    var empty := Batch(1, [], map[], [], map[], map[], [], [], map[]);
    if source.category == "property" then
      empty.(entities := [BatchEntity(0, source, "", false, [])])
    else AppendNode(empty, NodeKey(source.etype, source.value), source.category)
  }

  lemma NewBatchWellFormed(source: EntityFields)
    ensures WellFormed(NewBatch(source))
    ensures RootKey(NewBatch(source)) == EntityKey(source.etype, source.value)
  {
    hide IndexesAgree, EntitiesOK;
    NewBatchIndexes(source);
    var b := NewBatch(source);
    assert b.results == [] && b.localIDMap == map[] && |b.entities| == 1;
    assert LocalTargets([]) == map[];
    assert ResultsOK(b) && Ordered(b);
  }

  lemma NewBatchIndexes(source: EntityFields)
    ensures IndexesAgree(NewBatch(source))
  {
    hide PlainScan, Unique;
    var b := NewBatch(source);
    var e := BatchEntity(0, source, "", false, []);
    NewBatchScan(e);
    if source.category == "property" {
      assert b.entities == [e];
    } else {
      assert EntityFields(source.etype, source.value, source.category) == source;
      assert b.entities == [] + [e] == [e];
      assert b.nodeIndex == map[KeyOf(e) := 1] && b.nodeIDs == [1];
    }
    assert EntitiesOK([e]);
    hide EntitiesOK;
  }

  lemma NewBatchScan(e: BatchEntity)
    requires e.parentID == 0
    ensures Unique([e])
    ensures PlainScan([e]) ==
              if IsNode(e) then Indexes(map[KeyOf(e) := 1], [1], map[], map[], [])
                                else Indexes(map[], [], map[], map[], [])
  {
    assert [e][..0] == [];
    assert PlainScan([]) == Indexes(map[], [], map[], map[], []);
  }

  ghost function Build(source: EntityFields, groups: seq<Group>): (out: BuildOutcome)
    ensures out.Built? ==> WellFormed(out.batch) && RootKey(out.batch) == EntityKey(source.etype, source.value)
    ensures out.Built? ==> SameRoot(NewBatch(source), out.batch)
  {
    NewBatchWellFormed(source);
    Rounds(NewBatch(source), groups)
  }

  // ------------------------------------------------------------ conservation

  function Payload(rs: seq<BatchResult>): seq<Result> {
    if rs == [] then [] else Payload(rs[..|rs| - 1]) + [rs[|rs| - 1].result]
  }

  lemma PlacePayload(b: Batch, sourceID: nat, r: Result)
    requires WellFormed(b) && b.Has(sourceID)
    ensures Payload(Place(b, sourceID, r).results) == Payload(b.results) + [r]
  {
    hide EntitiesOK, Extends, AddTarget, AddAnchor, TargetID;
    var b' := Place(b, sourceID, r);
    assert b'.results[..|b.results|] == b.results;
  }

  lemma {:induction false} PlaceAllPayload(b: Batch, sourceID: nat, rs: seq<Result>)
    requires WellFormed(b) && b.Has(sourceID)
    ensures Payload(PlaceAll(b, sourceID, rs).results) == Payload(b.results) + rs
    decreases |rs|
  {
    if rs != [] {
      hide WellFormed, Extends, Place, Payload;
      PlaceKeeps(b, sourceID, rs[0]);
      PlacePayload(b, sourceID, rs[0]);
      PlaceAllPayload(Place(b, sourceID, rs[0]), sourceID, rs[1..]);
      AppendFirst(Payload(b.results), rs);
    }
  }

  lemma AppendFirst(a: seq<Result>, rs: seq<Result>)
    requires rs != []
    ensures a + [rs[0]] + rs[1..] == a + rs
  {
  }

  /** The results still to be placed together with those already placed. */
  function Total(b: Batch, pending: seq<Group>): multiset<Result> {
    multiset(Payload(b.results)) + multiset(Flatten(pending))
  }

  lemma PlacedGroupTotal(b: Batch, id: nat, pending: seq<Group>)
    requires WellFormed(b) && b.Has(id) && pending != []
    ensures Total(PlaceAll(b, id, pending[0].results), pending[1..]) == Total(b, pending)
  {
    hide WellFormed, PlaceAll, Payload;
    PlaceAllPayload(b, id, pending[0].results);
  }

  lemma KeptGroupTotal(b: Batch, g: Group, next: seq<Group>)
    ensures Total(b, [g] + next) == Total(b, next) + multiset(g.results)
  {
    assert ([g] + next)[1..] == next;
  }

  lemma {:induction false} RoundConserves(b: Batch, pending: seq<Group>)
    requires WellFormed(b)
    ensures Round(b, pending).RoundDone? ==>
              Total(Round(b, pending).batch, Round(b, pending).next) == Total(b, pending)
    decreases |pending|
  {
    hide WellFormed, Resolve, Total, PlaceAll;
    if pending != [] {
      ResolveMeaning(b, pending[0].source);
      match Resolve(b, RootKey(b), pending[0].source)
      case Ambiguous =>
      case Resolved(id) =>
        PlacedGroupTotal(b, id, pending);
        RoundConserves(PlaceAll(b, id, pending[0].results), pending[1..]);
      case Unresolved =>
        RoundConserves(b, pending[1..]);
        var out := Round(b, pending[1..]);
        if out.RoundDone? {
          KeptGroupTotal(out.batch, pending[0], out.next);
          KeptGroupTotal(b, pending[0], pending[1..]);
          assert [pending[0]] + pending[1..] == pending;
        }
    }
  }

  lemma {:induction false} RoundsConserve(b: Batch, pending: seq<Group>)
    requires WellFormed(b)
    ensures var out := Rounds(b, pending);
            out.Built? ==> multiset(Payload(out.batch.results)) == Total(b, pending)
    decreases |pending|
  {
    hide WellFormed, Round;
    if pending != [] {
      RoundConserves(b, pending);
      var out := Round(b, pending);
      if out.RoundDone? && |out.next| != |pending| {
        RoundsConserve(out.batch, out.next);
      }
    }
  }

  lemma {:induction false} PayloadSize(rs: seq<BatchResult>)
    ensures |Payload(rs)| == |rs|
    decreases |rs|
  {
    if rs != [] {
      PayloadSize(rs[..|rs| - 1]);
    }
  }

  /** A successful build places every result of every group exactly once. */
  lemma BuildConserves(source: EntityFields, groups: seq<Group>)
    ensures var out := Build(source, groups);
            out.Built? ==>
              && multiset(Payload(out.batch.results)) == multiset(Flatten(groups))
              && |out.batch.results| == TotalResults(groups)
  {
    NewBatchWellFormed(source);
    RoundsConserve(NewBatch(source), groups);
    var out := Build(source, groups);
    if out.Built? {
      assert NewBatch(source).results == [];
      PayloadSize(out.batch.results);
      assert |multiset(Payload(out.batch.results))| == |Flatten(groups)|;
    }
  }
}
