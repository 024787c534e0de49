/**
 The batch as the program builds it: an object whose fields every operation updates in
 place, and the worklist loop over the packet's groups.  Each method is tied to the
 function of `StoreBatch` that specifies it.
 */
module BatchBuilder {
  import opened Schema
  import opened StoreBatch

  function KeepAll(kept: seq<Group>, out: RoundOutcome): RoundOutcome {
    if out.RoundDone? then out.(next := kept + out.next) else out
  }

  lemma KeepOne(kept: seq<Group>, g: Group, out: RoundOutcome)
    ensures KeepAll(kept, Keep(g, out)) == KeepAll(kept + [g], out)
  {
    if out.RoundDone? {
      assert kept + ([g] + out.next) == kept + [g] + out.next;
    }
  }

  class Builder {
    var rootID: nat
    var entities: seq<BatchEntity>
    var nodeIndex: map<NodeKey, nat>
    var nodeIDs: seq<nat>
    var propertyIndex: map<PropertyKey, nat>
    var propertyRefs: map<string, seq<nat>>
    var propertyIDs: seq<nat>
    var results: seq<BatchResult>
    var localIDMap: map<int, nat>

    function Model(): Batch
      reads this
    {
      Batch(rootID, entities, nodeIndex, nodeIDs, propertyIndex, propertyRefs, propertyIDs, results, localIDMap)
    }

    constructor (source: EntityFields)
      ensures Model() == NewBatch(source)
    {
      rootID := 1;
      results, localIDMap := [], map[];
      propertyIndex, propertyRefs, propertyIDs := map[], map[], [];
      if source.category == "property" {
        entities := [BatchEntity(0, source, "", false, [])];
        nodeIndex, nodeIDs := map[], [];
      } else {
        entities := [BatchEntity(0, source, "", false, [])];
        nodeIndex, nodeIDs := map[NodeKey(source.etype, source.value) := 1], [1];
      }
    }

    method AppendEntity(entity: BatchEntity) returns (id: nat)
      modifies this`entities
      ensures entities == old(entities) + [entity] && id == |entities|
    {
      entities := entities + [entity];
      id := |entities|;
    }

    method AddNode(key: NodeKey, category: string, localID: int) returns (id: nat)
      requires key in nodeIndex ==> Model().Has(nodeIndex[key])
      modifies this
      ensures Model() == StoreBatch.AddNode(old(Model()), key, category, localID)
      ensures id == NodeID(old(Model()), key)
    {
      if key in nodeIndex {
        id := nodeIndex[key];
        if category != "" {
          var item := entities[id - 1];
          entities := entities[id - 1 := item.(fields := item.fields.(category := category))];
        }
        if localID != 0 {
          localIDMap := localIDMap[localID := id];
        }
        return;
      }
      id := AppendEntity(BatchEntity(0, EntityFields(key.etype, key.value, category), "", false, []));
      nodeIndex := nodeIndex[key := id];
      nodeIDs := nodeIDs + [id];
      if localID != 0 {
        localIDMap := localIDMap[localID := id];
      }
    }

    method AddProperty(parentID: nat, r: Result) returns (id: nat)
      requires PropertyKeyOf(parentID, r) in propertyIndex ==> Model().Has(propertyIndex[PropertyKeyOf(parentID, r)])
      modifies this
      ensures Model() == StoreBatch.AddProperty(old(Model()), parentID, r)
      ensures id == PropertyID(old(Model()), parentID, r)
    {
      var key := PropertyKey(parentID, r.etype, r.value);
      if key in propertyIndex {
        id := propertyIndex[key];
        var item := entities[id - 1];
        item := item.(outOfScope := item.outOfScope || r.outOfScope);
        item := item.(tags := AppendUniqueTags(item.tags, r.tags));
        if item.anchor == "" && r.anchor != "" {
          item := item.(anchor := r.anchor);
        }
        entities := entities[id - 1 := item];
        if r.localID != 0 {
          localIDMap := localIDMap[r.localID := id];
        }
        return;
      }
      id := AppendEntity(BatchEntity(parentID, EntityFields(r.etype, r.value, NormalizeCategory(r.category)),
        r.anchor, r.outOfScope, AppendUniqueTags([], r.tags)));
      propertyIndex := propertyIndex[key := id];
      var ref := EntityKey(r.etype, r.value);
      propertyRefs := propertyRefs[ref := (if ref in propertyRefs then propertyRefs[ref] else []) + [id]];
      propertyIDs := propertyIDs + [id];
      if r.localID != 0 {
        localIDMap := localIDMap[r.localID := id];
      }
    }

    method ResolveSource(rootKey: string, source: EntityRef) returns (r: Resolution)
      ensures r == Resolve(Model(), rootKey, source)
    {
      if source.localID != 0 {
        if source.localID in localIDMap {
          return Resolved(localIDMap[source.localID]);
        }
        return Unresolved;
      }
      var key := EntityKey(source.etype, source.value);
      if key == rootKey {
        return Resolved(rootID);
      }
      if NodeKey(source.etype, source.value) in nodeIndex {
        return Resolved(nodeIndex[NodeKey(source.etype, source.value)]);
      }
      var ids := if key in propertyRefs then propertyRefs[key] else [];
      if |ids| == 0 {
        return Unresolved;
      }
      if |ids| == 1 {
        return Resolved(ids[0]);
      }
      return Ambiguous;
    }

    method PlaceResult(sourceID: nat, r: Result)
      requires WellFormed(Model()) && Model().Has(sourceID)
      modifies this
      ensures Model() == Place(old(Model()), sourceID, r)
    {
      ghost var b := Model();
      var targetID: nat;
      if NormalizeCategory(r.category) == "node" {
        AddNodeKeeps(b, NodeKey(r.etype, r.value), "node", r.localID);
        targetID := AddNode(NodeKey(r.etype, r.value), "node", r.localID);
      } else {
        AddPropertyKeeps(b, sourceID, r);
        targetID := AddProperty(sourceID, r);
      }
      ghost var b1 := Model();
      assert b1 == AddTarget(b, sourceID, r);
      if r.anchor != "" {
        AddNodeKeeps(b1, NodeKey(ANCHOR_TYPE, r.anchor), "node", 0);
        var _ := AddNode(NodeKey(ANCHOR_TYPE, r.anchor), "node", 0);
      }
      assert Model() == AddAnchor(b1, r.anchor);
      results := results + [BatchResult(sourceID, targetID, r)];
    }

    method PlaceGroup(sourceID: nat, rs: seq<Result>)
      requires WellFormed(Model()) && Model().Has(sourceID)
      modifies this
      ensures Model() == PlaceAll(old(Model()), sourceID, rs)
    {
      hide WellFormed, Place;
      for j := 0 to |rs|
        invariant WellFormed(Model()) && Model().Has(sourceID)
        invariant PlaceAll(Model(), sourceID, rs[j..]) == PlaceAll(old(Model()), sourceID, rs)
      {
        PlaceKeeps(Model(), sourceID, rs[j]);
        PlaceResult(sourceID, rs[j]);
      }
    }

    /** One pass over the pending groups. */
    method PlaceResolvable(rootKey: string, pending: seq<Group>)
      returns (ambiguous: bool, nextPending: seq<Group>, progressed: bool)
      requires WellFormed(Model()) && RootKey(Model()) == rootKey
      modifies this
      ensures WellFormed(old(Model()))
      ensures ambiguous <==> Round(old(Model()), pending).RoundAmbiguous?
      ensures !ambiguous ==> Round(old(Model()), pending) == RoundDone(Model(), nextPending)
      ensures !ambiguous ==> (progressed <==> |nextPending| < |pending|)
    {
      hide WellFormed, Place, PlaceAll, Resolve;
      nextPending, progressed := [], false;
      for i := 0 to |pending|
        invariant WellFormed(Model()) && RootKey(Model()) == rootKey
        invariant |nextPending| <= i && (progressed <==> |nextPending| < i)
        invariant KeepAll(nextPending, Round(Model(), pending[i..])) == Round(old(Model()), pending)
      {
        ghost var b := Model();
        ghost var rest := pending[i + 1..];
        assert pending[i..][0] == pending[i] && pending[i..][1..] == rest;
        ResolveMeaning(b, pending[i].source);
        var x := ResolveSource(rootKey, pending[i].source);
        match x
        case Ambiguous =>
          return true, [], false;
        case Unresolved =>
          KeepOne(nextPending, pending[i], Round(b, rest));
          nextPending := nextPending + [pending[i]];
        case Resolved(id) =>
          PlaceGroup(id, pending[i].results);
          progressed := true;
      }
      return false, nextPending, progressed;
    }
  }

  datatype Status = Success | Failure(error: string)

  /** The worklist loop: a packet is built exactly when `Build` says so, into exactly that batch. */
  method BuildStoreBatch(source: EntityFields, groups: seq<Group>) returns (status: Status, batch: Builder)
    ensures fresh(batch)
    ensures status.Success? <==> Build(source, groups).Built?
    ensures status.Success? ==> batch.Model() == Build(source, groups).batch
  {
    batch := new Builder(source);
    var rootKey := EntityKey(source.etype, source.value);
    NewBatchWellFormed(source);
    var pending := groups;
    while |pending| > 0
      invariant fresh(batch) && WellFormed(batch.Model()) && RootKey(batch.Model()) == rootKey
      invariant Rounds(batch.Model(), pending) == Build(source, groups)
      decreases |pending|
    {
      hide WellFormed, Round;
      var ambiguous, nextPending, progressed := batch.PlaceResolvable(rootKey, pending);
      if ambiguous {
        return Failure("batch source is ambiguous"), batch;
      }
      if !progressed {
        return Failure("batch source could not be resolved"), batch;
      }
      pending := nextPending;
    }
    return Success, batch;
  }
}
