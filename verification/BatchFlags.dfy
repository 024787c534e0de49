/**
 Scope flags, tags and anchors of the batch's own properties: those of the results that lead to
 them, and of several anchors the first.
 */
module BatchFlags {
  import opened Schema
  import opened StoreBatch
  import opened StoreResult

  predicate Flagged(b: Batch, v: nat) {
    exists i :: 0 <= i < |b.results| && b.results[i].targetID == v && b.results[i].result.outOfScope
  }

  predicate Tagged(b: Batch, v: nat, tag: string) {
    exists i :: 0 <= i < |b.results| && b.results[i].targetID == v && tag in b.results[i].result.tags
  }

  predicate Anchored(b: Batch, v: nat, i: int) {
    0 <= i < |b.results| && b.results[i].targetID == v && b.results[i].result.anchor != ""
  }

  /** `anchor` is the first one that a result for `v` names, and empty when none names one. */
  ghost predicate FirstAnchor(b: Batch, v: nat, anchor: string) {
    if anchor == "" then forall i :: 0 <= i < |b.results| ==> !Anchored(b, v, i)
    else exists i :: Anchored(b, v, i) && b.results[i].result.anchor == anchor
                     && forall j :: 0 <= j < i ==> !Anchored(b, v, j)
  }

  /** A property is flagged exactly when some result for it is, carries the tags of all of them and
      the first anchor; nodes carry none of these. */
  ghost predicate FlagsOf(b: Batch, v: nat)
    requires b.Has(v)
  {
    && (b.Item(v).outOfScope <==> IsProperty(b.Item(v)) && Flagged(b, v))
    && (forall tag :: tag in b.Item(v).tags ==> IsProperty(b.Item(v)) && Tagged(b, v, tag))
    && (IsProperty(b.Item(v)) ==>
          forall i, tag ::
            0 <= i < |b.results| && b.results[i].targetID == v && tag in b.results[i].result.tags && tag != "" ==>
              tag in b.Item(v).tags)
    && (if IsProperty(b.Item(v)) then FirstAnchor(b, v, b.Item(v).anchor) else b.Item(v).anchor == "")
  }

  ghost predicate FlagsOK(b: Batch) {
    forall v: nat :: b.Has(v) ==> FlagsOf(b, v)
  }

  /** One entity is given `flag` and `tags`, and `anchor` unless it has one; the others stay as they
      are, new ones start without. */
  ghost predicate Flags(b: Batch, b': Batch, id: nat, flag: bool, tags: seq<string>, anchor: string) {
    |b.entities| <= |b'.entities| &&
    forall v: nat :: b'.Has(v) ==>
      var flag0, tags0 := b.Has(v) && b.Item(v).outOfScope, if b.Has(v) then b.Item(v).tags else [];
      var anchor0 := if b.Has(v) then b.Item(v).anchor else "";
      && b'.Item(v).anchor == (if v == id && anchor0 == "" then anchor else anchor0)
      && (b'.Item(v).outOfScope <==> flag0 || (v == id && flag))
      && forall tag :: tag in b'.Item(v).tags <==> tag in tags0 || (v == id && tag in tags && tag != "")
  }

  lemma AddNodeFlags(b: Batch, key: NodeKey, localID: int)
    requires IndexesAgree(b) && (key in b.nodeIndex ==> b.Has(b.nodeIndex[key]))
    ensures Flags(b, AddNode(b, key, "node", localID), 0, false, [], "")
  {
    hide IndexesAgree;
  }

  lemma AddPropertyFlags(b: Batch, parentID: nat, r: Result)
    requires PropertyKeyOf(parentID, r) in b.propertyIndex ==> b.Has(b.propertyIndex[PropertyKeyOf(parentID, r)])
    ensures Flags(b, AddProperty(b, parentID, r), PropertyID(b, parentID, r), r.outOfScope, r.tags, r.anchor)
  {
  }

  lemma AddTargetFlags(b: Batch, sourceID: nat, r: Result)
    requires IndexesAgree(b) && b.Has(sourceID)
    ensures Flags(b, AddTarget(b, sourceID, r), TargetID(b, sourceID, r),
                  !IsNodeResult(r) && r.outOfScope, if IsNodeResult(r) then [] else r.tags,
                  if IsNodeResult(r) then "" else r.anchor)
  {
    hide EntitiesOK, Extends, Unique, PlainScan, Flags;
    if IsNodeResult(r) {
      AddNodeKeeps(b, NodeKey(r.etype, r.value), "node", r.localID);
      AddNodeFlags(b, NodeKey(r.etype, r.value), r.localID);
      NoFlags(b, AddTarget(b, sourceID, r), TargetID(b, sourceID, r));
    } else {
      AddPropertyKeeps(b, sourceID, r);
      AddPropertyFlags(b, sourceID, r);
    }
  }

  lemma NoFlags(b: Batch, b': Batch, id: nat)
    requires Flags(b, b', 0, false, [], "")
    ensures Flags(b, b', id, false, [], "")
  {
  }

  lemma AddAnchorFlags(b: Batch, anchor: string)
    requires IndexesAgree(b)
    ensures Flags(b, AddAnchor(b, anchor), 0, false, [], "")
  {
    hide EntitiesOK, Extends, Unique, PlainScan;
    if anchor != "" {
      AddNodeKeeps(b, NodeKey(ANCHOR_TYPE, anchor), "node", 0);
      AddNodeFlags(b, NodeKey(ANCHOR_TYPE, anchor), 0);
    }
  }

  lemma PlaceFlagged(b: Batch, sourceID: nat, r: Result)
    requires WellFormed(b) && b.Has(sourceID)
    ensures Flags(b, Place(b, sourceID, r), TargetID(b, sourceID, r),
                  !IsNodeResult(r) && r.outOfScope, if IsNodeResult(r) then [] else r.tags,
                  if IsNodeResult(r) then "" else r.anchor)
  {
    hide IndexesAgree, ResultsOK, Ordered, Extends, AddTarget, AddAnchor, TargetID, Flags;
    var b1 := AddTarget(b, sourceID, r);
    TargetFacts(b, sourceID, r);
    AddTargetFlags(b, sourceID, r);
    AddAnchorFlags(b1, r.anchor);
    FlagsTrans(b, b1, AddAnchor(b1, r.anchor), Place(b, sourceID, r), TargetID(b, sourceID, r),
               !IsNodeResult(r) && r.outOfScope, if IsNodeResult(r) then [] else r.tags,
                  if IsNodeResult(r) then "" else r.anchor);
  }

  lemma FlagsTrans(b: Batch, b1: Batch, b2: Batch, b': Batch, id: nat, flag: bool, tags: seq<string>,
                   anchor: string)
    requires Flags(b, b1, id, flag, tags, anchor) && b1.Has(id)
    requires Flags(b1, b2, 0, false, [], "") && b'.entities == b2.entities
    ensures Flags(b, b', id, flag, tags, anchor)
  {
  }

  /** Earlier results lead to earlier entities, and kinds do not change. */
  lemma PlaceKinds(b: Batch, sourceID: nat, r: Result, v: nat)
    requires WellFormed(b) && b.Has(sourceID) && Place(b, sourceID, r).Has(v)
    ensures b.Has(v) ==> IsProperty(Place(b, sourceID, r).Item(v)) == IsProperty(b.Item(v))
    ensures v == TargetID(b, sourceID, r) ==> IsProperty(Place(b, sourceID, r).Item(v)) == !IsNodeResult(r)
    ensures forall i :: 0 <= i < |b.results| ==> b.Has(b.results[i].targetID)
  {
    var b' := Place(b, sourceID, r);
    forall i | 0 <= i < |b.results| ensures b.Has(b.results[i].targetID) {
      assert ResultOK(b, b.results[i]);
    }
    PlaceResultsOK(b, sourceID, r);
    assert ResultOK(b', b'.results[|b.results|]);
    hide IndexesAgree, ResultsOK, Ordered, AddTarget, AddAnchor, TargetID;
    if b.Has(v) {
      assert SameIdentity(b.Item(v), b'.Item(v));
    }
  }

  lemma AnchorStep(b: Batch, b': Batch, id: nat, r: Result, sourceID: nat, v: nat, anchor: string)
    requires b'.results == b.results + [BatchResult(sourceID, id, r)] && FirstAnchor(b, v, anchor)
    ensures FirstAnchor(b', v, if v == id && anchor == "" then r.anchor else anchor)
  {
    var n := |b.results|;
    assert forall i :: 0 <= i < n ==> b'.results[i] == b.results[i];
    assert forall i :: 0 <= i < n ==> Anchored(b', v, i) == Anchored(b, v, i);
    assert Anchored(b', v, n) <==> v == id && r.anchor != "";
    if anchor != "" {
      var i :| Anchored(b, v, i) && b.results[i].result.anchor == anchor
          && forall j :: 0 <= j < i ==> !Anchored(b, v, j);
      assert Anchored(b', v, i) && b'.results[i].result.anchor == anchor;
    }
  }

  lemma FlagsStep(b: Batch, b': Batch, id: nat, r: Result, sourceID: nat, v: nat)
    requires b'.Has(v) && (b.Has(v) ==> FlagsOf(b, v)) && b'.results == b.results + [BatchResult(sourceID, id, r)]
    requires Flags(b, b', id, !IsNodeResult(r) && r.outOfScope, if IsNodeResult(r) then [] else r.tags,
                  if IsNodeResult(r) then "" else r.anchor)
    requires b.Has(v) ==> IsProperty(b'.Item(v)) == IsProperty(b.Item(v))
    requires v == id ==> IsProperty(b'.Item(v)) == !IsNodeResult(r)
    requires forall i :: 0 <= i < |b.results| ==> b.Has(b.results[i].targetID)
    ensures FlagsOf(b', v)
  {
    var n := |b.results|;
    assert b'.results[n].targetID == id && b'.results[n].result == r;
    assert forall i :: 0 <= i < n ==> b'.results[i] == b.results[i];
    assert Flagged(b', v) <==> Flagged(b, v) || (v == id && r.outOfScope);
    if IsProperty(b'.Item(v)) {
      AnchorStep(b, b', id, r, sourceID, v, if b.Has(v) then b.Item(v).anchor else "");
    }
    hide FirstAnchor;
    forall tag ensures Tagged(b', v, tag) <==> Tagged(b, v, tag) || (v == id && tag in r.tags) {
    }
  }

  lemma PlaceKeepsFlags(b: Batch, sourceID: nat, r: Result)
    requires WellFormed(b) && b.Has(sourceID) && FlagsOK(b)
    ensures FlagsOK(Place(b, sourceID, r))
  {
    hide WellFormed, Extends, Flags, FlagsOf, TargetID;
    PlaceFlagged(b, sourceID, r);
    var b' := Place(b, sourceID, r);
    forall v: nat | b'.Has(v) ensures FlagsOf(b', v) {
      PlaceKinds(b, sourceID, r, v);
      FlagsStep(b, b', TargetID(b, sourceID, r), r, sourceID, v);
    }
  }

  lemma {:induction false} PlaceAllKeepsFlags(b: Batch, sourceID: nat, rs: seq<Result>)
    requires WellFormed(b) && b.Has(sourceID) && FlagsOK(b)
    ensures FlagsOK(PlaceAll(b, sourceID, rs))
    decreases |rs|
  {
    if rs != [] {
      hide WellFormed, Place, FlagsOK, Extends;
      PlaceKeeps(b, sourceID, rs[0]);
      PlaceKeepsFlags(b, sourceID, rs[0]);
      PlaceAllKeepsFlags(Place(b, sourceID, rs[0]), sourceID, rs[1..]);
    }
  }

  lemma {:induction false} RoundKeepsFlags(b: Batch, pending: seq<Group>)
    requires WellFormed(b) && FlagsOK(b)
    ensures Round(b, pending).RoundDone? ==> FlagsOK(Round(b, pending).batch)
    decreases |pending|
  {
    hide WellFormed, FlagsOK, PlaceAll, Resolve;
    if pending != [] {
      ResolveMeaning(b, pending[0].source);
      match Resolve(b, RootKey(b), pending[0].source)
      case Ambiguous =>
      case Resolved(id) =>
        PlaceAllKeepsFlags(b, id, pending[0].results);
        RoundKeepsFlags(PlaceAll(b, id, pending[0].results), pending[1..]);
      case Unresolved =>
        RoundKeepsFlags(b, pending[1..]);
    }
  }

  lemma {:induction false} RoundsKeepFlags(b: Batch, pending: seq<Group>)
    requires WellFormed(b) && FlagsOK(b)
    ensures Rounds(b, pending).Built? ==> FlagsOK(Rounds(b, pending).batch)
    decreases |pending|
  {
    hide WellFormed, FlagsOK, Round;
    if pending != [] {
      RoundKeepsFlags(b, pending);
      var out := Round(b, pending);
      if out.RoundDone? && |out.next| != |pending| {
        RoundsKeepFlags(out.batch, out.next);
      }
    }
  }

  /** So it is in the batch that is stored. */
  lemma FinalBatchFlags(source: EntityFields, groups: seq<Group>)
    ensures FlagsOK(FinalBatch(source, groups))
  {
    NewBatchWellFormed(source);
    assert FlagsOK(NewBatch(source));
    RoundsKeepFlags(NewBatch(source), groups);
  }
}
