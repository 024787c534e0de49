/**
 Which entity a group's source reference means, read off the plain entity array and the placed
 results; and when a packet is rejected because a reference means several.
 */
module SourceLookup {
  import opened Schema
  import opened StoreBatch

  predicate NodeNamed(b: Batch, id: nat, etype: string, value: string) {
    b.Has(id) && IsNode(b.Item(id)) && b.Item(id).fields.etype == etype && b.Item(id).fields.value == value
  }

  /** A property whose joined type and value read like the reference's. */
  predicate PropertyReads(b: Batch, id: nat, source: EntityRef) {
    && b.Has(id) && b.Item(id).parentID != 0
    && b.Item(id).fields.etype + ":" + b.Item(id).fields.value == source.etype + ":" + source.value
  }

  predicate ReadsLikeRoot(b: Batch, source: EntityRef) {
    && b.Has(b.rootID)
    && b.Item(b.rootID).fields.etype + ":" + b.Item(b.rootID).fields.value == source.etype + ":" + source.value
  }

  ghost predicate AnyNodeNamed(b: Batch, source: EntityRef) {
    exists id :: NodeNamed(b, id, source.etype, source.value)
  }

  ghost predicate AnyPropertyReads(b: Batch, source: EntityRef) {
    exists id :: PropertyReads(b, id, source)
  }

  /** Two different properties answer, and neither the root nor a node does. */
  ghost predicate MeansSeveral(b: Batch, source: EntityRef) {
    && source.localID == 0 && !ReadsLikeRoot(b, source) && !AnyNodeNamed(b, source)
    && exists i, j :: i != j && PropertyReads(b, i, source) && PropertyReads(b, j, source)
  }

  /** An unknown local id, or none and nothing of that name. */
  ghost predicate MeansNone(b: Batch, source: EntityRef) {
    if source.localID != 0 then forall r <- b.results :: r.result.localID != source.localID
    else !ReadsLikeRoot(b, source) && !AnyNodeNamed(b, source) && !AnyPropertyReads(b, source)
  }

  /** The last placed result with the local id; without one the root before a node of that type and
      value, and a node before a property that reads the same. */
  ghost predicate Means(b: Batch, source: EntityRef, id: nat) {
    if source.localID != 0 then
      exists i: nat :: LastWithLocalID(b.results, source.localID, i) && b.results[i].targetID == id
    else if ReadsLikeRoot(b, source) then id == b.rootID
    else if AnyNodeNamed(b, source) then NodeNamed(b, id, source.etype, source.value)
    else PropertyReads(b, id, source)
  }

  predicate LastWithLocalID(rs: seq<BatchResult>, localID: int, i: nat) {
    i < |rs| && rs[i].result.localID == localID && forall j :: i < j < |rs| ==> rs[j].result.localID != localID
  }

  predicate HasLocalID(rs: seq<BatchResult>, localID: int) {
    exists r <- rs :: r.result.localID == localID
  }

  ghost predicate LastTarget(rs: seq<BatchResult>, localID: int, id: nat) {
    exists i: nat :: LastWithLocalID(rs, localID, i) && id == rs[i].targetID
  }

  lemma OneMore(rs: seq<BatchResult>, last: BatchResult, localID: int, id: nat)
    ensures HasLocalID(rs + [last], localID) <==> HasLocalID(rs, localID) || last.result.localID == localID
    ensures last.result.localID == localID ==> LastTarget(rs + [last], localID, last.targetID)
    ensures last.result.localID != localID && LastTarget(rs, localID, id) ==> LastTarget(rs + [last], localID, id)
  {
    var all := rs + [last];
    assert all[|rs|] == last && forall j :: 0 <= j < |rs| ==> all[j] == rs[j];
    if last.result.localID == localID {
      assert LastWithLocalID(all, localID, |rs|);
    } else if LastTarget(rs, localID, id) {
      var i: nat :| LastWithLocalID(rs, localID, i) && id == rs[i].targetID;
      assert LastWithLocalID(all, localID, i);
    }
  }

  lemma {:induction false} LocalTargetsLast(rs: seq<BatchResult>, localID: int)
    requires localID != 0
    ensures localID in LocalTargets(rs) <==> HasLocalID(rs, localID)
    ensures localID in LocalTargets(rs) ==> LastTarget(rs, localID, LocalTargets(rs)[localID])
    decreases |rs|
  {
    if rs != [] {
      var n := |rs| - 1;
      LocalTargetsLast(rs[..n], localID);
      assert rs == rs[..n] + [rs[n]];
      hide HasLocalID, LastTarget;
      OneMore(rs[..n], rs[n], localID, if localID in LocalTargets(rs[..n]) then LocalTargets(rs[..n])[localID] else 0);
    }
  }

  lemma LocalLookup(b: Batch, source: EntityRef)
    requires WellFormed(b) && source.localID != 0
    ensures var x := Resolve(b, RootKey(b), source);
            && !x.Ambiguous? && (x.Unresolved? <==> MeansNone(b, source))
            && (x.Resolved? ==> Means(b, source, x.id))
  {
    LocalTargetsLast(b.results, source.localID);
  }

  lemma IndexedNode(b: Batch, id: nat)
    requires IndexesNodes(b.entities, b.nodeIndex) && b.Has(id) && IsNode(b.Item(id))
    ensures KeyOf(b.Item(id)) in b.nodeIndex
  {
    assert b.Item(id) == b.entities[id - 1];
  }

  lemma FoundNode(b: Batch, key: NodeKey)
    requires IndexesNodes(b.entities, b.nodeIndex) && key in b.nodeIndex
    ensures var id := b.nodeIndex[key];
            b.Has(id) && IsNode(b.Item(id)) && KeyOf(b.Item(id)) == key
  {
  }

  lemma NodeAnswers(b: Batch, source: EntityRef)
    requires IndexesNodes(b.entities, b.nodeIndex)
    ensures var key := NodeKey(source.etype, source.value);
            && (key in b.nodeIndex <==> AnyNodeNamed(b, source))
            && (key in b.nodeIndex ==> NodeNamed(b, b.nodeIndex[key], source.etype, source.value))
  {
    hide IndexesNodes, IsNode;
    var key := NodeKey(source.etype, source.value);
    if key in b.nodeIndex {
      FoundNode(b, key);
      assert NodeNamed(b, b.nodeIndex[key], source.etype, source.value);
    }
    if AnyNodeNamed(b, source) {
      var id :| NodeNamed(b, id, source.etype, source.value);
      IndexedNode(b, id);
    }
  }

  /** The reference list of the joined name holds the properties that read like it. */
  lemma PropertiesAnswer(b: Batch, source: EntityRef)
    requires IndexesOf(b) == PlainScan(b.entities)
    ensures var refs := Refs(b, EntityKey(source.etype, source.value));
            && (forall id: nat :: id in refs <==> PropertyReads(b, id, source))
            && forall i, j :: 0 <= i < j < |refs| ==> refs[i] < refs[j]
  {
    var key := EntityKey(source.etype, source.value);
    var refs := Refs(b, key);
    PropertyRefsMeaning(b.entities, key);
    assert refs == RefsIn(PlainScan(b.entities), key);
    hide PlainScan, Refs, RefsIn;
    forall id: nat ensures id in refs <==> PropertyReads(b, id, source) {
      if b.Has(id) {
        assert b.Item(id) == b.entities[id - 1];
      }
    }
  }

  /** How many properties answer, by the length of the reference list. */
  lemma AnswersCount(b: Batch, source: EntityRef)
    requires WellFormed(b)
    ensures var refs := Refs(b, EntityKey(source.etype, source.value));
            && (|refs| == 0 <==> !AnyPropertyReads(b, source))
            && (|refs| >= 1 ==> PropertyReads(b, refs[0], source))
            && (|refs| >= 2 <==> exists i, j :: i != j && PropertyReads(b, i, source) && PropertyReads(b, j, source))
  {
    PropertiesAnswer(b, source);
    hide WellFormed, PropertyReads, Refs;
    var refs := Refs(b, EntityKey(source.etype, source.value));
    if |refs| >= 2 {
      assert refs[0] in refs && refs[1] in refs && refs[0] != refs[1];
    } else if |refs| == 1 {
      assert refs[0] in refs;
    }
  }

  lemma NodesAnswer(b: Batch, source: EntityRef)
    requires WellFormed(b)
    ensures var key := NodeKey(source.etype, source.value);
            && b.Has(b.rootID)
            && (key in b.nodeIndex <==> AnyNodeNamed(b, source))
            && (key in b.nodeIndex ==> NodeNamed(b, b.nodeIndex[key], source.etype, source.value))
  {
    NodeIndexMeaning(b.entities);
    assert b.Has(b.rootID) && b.nodeIndex == PlainScan(b.entities).nodeIndex;
    hide WellFormed, PlainScan, Unique, IndexesNodes;
    NodeAnswers(b, source);
  }

  lemma NamedLookup(b: Batch, source: EntityRef)
    requires WellFormed(b) && source.localID == 0
    ensures var x := Resolve(b, RootKey(b), source);
            && (x.Ambiguous? <==> MeansSeveral(b, source)) && (x.Unresolved? <==> MeansNone(b, source))
            && (x.Resolved? ==> Means(b, source, x.id))
  {
    NodesAnswer(b, source);
    AnswersCount(b, source);
    RootReads(b, source);
    hide WellFormed, NodeNamed, PropertyReads, ReadsLikeRoot, AnyNodeNamed, AnyPropertyReads, Refs, RootKey;
  }

  lemma RootReads(b: Batch, source: EntityRef)
    requires WellFormed(b)
    ensures EntityKey(source.etype, source.value) == RootKey(b) <==> ReadsLikeRoot(b, source)
  {
    assert b.Has(b.rootID);
    hide WellFormed;
  }

  /** The lookup is ambiguous, fails, or finds its entity exactly as the plain array says. */
  lemma LookupMeaning(b: Batch, source: EntityRef)
    requires WellFormed(b)
    ensures var x := Resolve(b, RootKey(b), source);
            && (x.Ambiguous? <==> MeansSeveral(b, source)) && (x.Unresolved? <==> MeansNone(b, source))
            && (x.Resolved? ==> Means(b, source, x.id))
  {
    hide Resolve, WellFormed, MeansNone, Means;
    if source.localID != 0 {
      LocalLookup(b, source);
    } else {
      NamedLookup(b, source);
    }
  }

  /** Not several and not none is one: the entity found is the only one meant. */
  lemma MeansOne(b: Batch, source: EntityRef, i: nat, j: nat)
    requires WellFormed(b) && !MeansSeveral(b, source) && Means(b, source, i) && Means(b, source, j)
    ensures i == j
  {
    NodeIndexMeaning(b.entities);
  }

  // ------------------------------------------------------------ rejected packets

  /** One pass over the pending groups comes to group `g` when the batch is `b'`. */
  ghost predicate Meets(b: Batch, pending: seq<Group>, b': Batch, g: Group)
    requires WellFormed(b)
    decreases |pending|
  {
    pending != [] &&
    ((b' == b && g == pending[0]) ||
     (ResolveMeaning(b, pending[0].source);
      match Resolve(b, RootKey(b), pending[0].source)
      case Ambiguous => false
      case Resolved(id) => Meets(PlaceAll(b, id, pending[0].results), pending[1..], b', g)
      case Unresolved => Meets(b, pending[1..], b', g)))
  }

  /** So does one of the passes. */
  ghost predicate ComesTo(b: Batch, pending: seq<Group>, b': Batch, g: Group)
    requires WellFormed(b)
    decreases |pending|
  {
    || Meets(b, pending, b', g)
    || (pending != [] && Round(b, pending).RoundDone? && |Round(b, pending).next| != |pending|
        && ComesTo(Round(b, pending).batch, Round(b, pending).next, b', g))
  }

  lemma {:induction false} MetIsWellFormed(b: Batch, pending: seq<Group>, b': Batch, g: Group)
    requires WellFormed(b) && Meets(b, pending, b', g)
    ensures WellFormed(b') && RootKey(b') == RootKey(b)
    decreases |pending|
  {
    hide WellFormed, PlaceAll, Resolve;
    if !(b' == b && g == pending[0]) {
      ResolveMeaning(b, pending[0].source);
      match Resolve(b, RootKey(b), pending[0].source)
      case Ambiguous =>
      case Resolved(id) => MetIsWellFormed(PlaceAll(b, id, pending[0].results), pending[1..], b', g);
      case Unresolved => MetIsWellFormed(b, pending[1..], b', g);
    }
  }

  lemma {:induction false} RoundAmbiguousIff(b: Batch, pending: seq<Group>)
    requires WellFormed(b)
    ensures Round(b, pending).RoundAmbiguous? <==>
              exists b', g :: Meets(b, pending, b', g) && MeansSeveral(b', g.source)
    decreases |pending|
  {
    hide WellFormed, PlaceAll, Resolve, MeansSeveral;
    if pending != [] {
      var g0 := pending[0];
      LookupMeaning(b, g0.source);
      ResolveMeaning(b, g0.source);
      match Resolve(b, RootKey(b), g0.source)
      case Ambiguous =>
        assert Meets(b, pending, b, g0);
      case Resolved(id) =>
        var b1 := PlaceAll(b, id, g0.results);
        RoundAmbiguousIff(b1, pending[1..]);
        assert forall b', g :: Meets(b, pending, b', g) <==> (b' == b && g == g0) || Meets(b1, pending[1..], b', g);
      case Unresolved =>
        RoundAmbiguousIff(b, pending[1..]);
        assert forall b', g :: Meets(b, pending, b', g) <==> (b' == b && g == g0) || Meets(b, pending[1..], b', g);
    }
  }

  /** The build is rejected as ambiguous exactly when it comes to a group whose source means several entities. */
  lemma {:induction false} AmbiguousIff(b: Batch, pending: seq<Group>)
    requires WellFormed(b)
    ensures Rounds(b, pending).SourceAmbiguous?
            <==> exists b', g :: ComesTo(b, pending, b', g) && MeansSeveral(b', g.source)
    decreases |pending|
  {
    hide WellFormed, Round, Meets, MeansSeveral;
    RoundAmbiguousIff(b, pending);
    if pending == [] {
      NothingMet(b);
    } else {
      var out := Round(b, pending);
      if out.RoundDone? && |out.next| != |pending| {
        AmbiguousIff(out.batch, out.next);
        assert forall b', g :: ComesTo(b, pending, b', g) <==>
                                 Meets(b, pending, b', g) || ComesTo(out.batch, out.next, b', g);
      } else {
        assert forall b', g :: ComesTo(b, pending, b', g) <==> Meets(b, pending, b', g);
      }
    }
  }

  lemma NothingMet(b: Batch)
    requires WellFormed(b)
    ensures forall b', g :: !Meets(b, [], b', g)
  {
  }

  lemma BuildAmbiguousIff(source: EntityFields, groups: seq<Group>)
    ensures WellFormed(NewBatch(source))
    ensures Build(source, groups).SourceAmbiguous?
            <==> exists b, g :: ComesTo(NewBatch(source), groups, b, g) && MeansSeveral(b, g.source)
  {
    NewBatchWellFormed(source);
    hide WellFormed, NewBatch, Rounds, MeansSeveral, ComesTo;
    AmbiguousIff(NewBatch(source), groups);
  }

  /** Every group that is placed hangs on the entity that its source means. */
  lemma PlacedWhereMeant(b: Batch, g: Group)
    requires WellFormed(b) && Resolve(b, RootKey(b), g.source).Resolved?
    ensures Means(b, g.source, Resolve(b, RootKey(b), g.source).id) && b.Has(Resolve(b, RootKey(b), g.source).id)
  {
    LookupMeaning(b, g.source);
    ResolveMeaning(b, g.source);
  }
}
