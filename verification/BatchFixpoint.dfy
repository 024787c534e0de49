/**
 Which packets the build accepts.  For packets whose sources are definite, success means
 that every group is derivable from the root, a notion that does not mention any order.
 */
module BatchFixpoint {
  import opened Schema
  import opened StoreBatch

  /** What a source reference can ask for, and what a placed result offers. */
  datatype Label = LocalLabel(id: int) | NodeLabel(key: NodeKey)

  function Needs(rootKey: string, source: EntityRef): set<Label> {
    if source.localID != 0 then {LocalLabel(source.localID)}
    else if EntityKey(source.etype, source.value) == rootKey then {}
    else {NodeLabel(NodeKey(source.etype, source.value))}
  }

  function Offers(r: Result): set<Label> {
    (if r.localID != 0 then {LocalLabel(r.localID)} else {})
    + (if IsNodeResult(r) then {NodeLabel(NodeKey(r.etype, r.value))} else {})
    + (if r.anchor != "" then {NodeLabel(NodeKey(ANCHOR_TYPE, r.anchor))} else {})
  }

  function OffersAll(rs: seq<Result>): set<Label> {
    if rs == [] then {} else Offers(rs[0]) + OffersAll(rs[1..])
  }

  /** `known` contains `start` and everything offered by groups whose source it knows. */
  ghost predicate Closed(known: set<Label>, start: set<Label>, rootKey: string, groups: seq<Group>) {
    && start <= known
    && forall g <- groups :: Needs(rootKey, g.source) <= known ==> OffersAll(g.results) <= known
  }

  /** Every group's source belongs to every closed set, hence to the least one. */
  ghost predicate Derivable(start: set<Label>, rootKey: string, groups: seq<Group>) {
    forall known: set<Label> {:trigger Closed(known, start, rootKey, groups)} ::
      Closed(known, start, rootKey, groups) ==> forall g <- groups :: Needs(rootKey, g.source) <= known
  }

  ghost predicate NamesProperty(key: string, groups: seq<Group>) {
    exists g <- groups, r <- g.results :: !IsNodeResult(r) && EntityKey(r.etype, r.value) == key
  }

  /** Sources carry a local id, or name the root, or share their key with no property result. */
  ghost predicate Definite(rootKey: string, groups: seq<Group>, all: seq<Group>) {
    forall g <- groups :: g.source.localID != 0
      || EntityKey(g.source.etype, g.source.value) == rootKey
      || !NamesProperty(EntityKey(g.source.etype, g.source.value), all)
  }

  ghost function Known(b: Batch): set<Label> {
    (set l | l in b.localIDMap :: LocalLabel(l)) + (set k | k in b.nodeIndex :: NodeLabel(k))
  }

  /** Every key in `propertyRefs` is the key of a property result of the packet. */
  ghost predicate RefsFrom(b: Batch, all: seq<Group>) {
    forall key :: key in b.propertyRefs ==> NamesProperty(key, all)
  }

  lemma TargetKeys(b: Batch, sourceID: nat, r: Result)
    requires IndexesAgree(b) && b.Has(sourceID)
    ensures var b' := AddTarget(b, sourceID, r);
            && b'.nodeIndex.Keys == b.nodeIndex.Keys + (if IsNodeResult(r) then {NodeKey(r.etype, r.value)} else {})
            && b'.propertyRefs.Keys
               <= b.propertyRefs.Keys + (if IsNodeResult(r) then {} else {EntityKey(r.etype, r.value)})
  {
    hide EntitiesOK, Extends, Unique, PlainScan;
    if IsNodeResult(r) {
      AddNodeKeeps(b, NodeKey(r.etype, r.value), "node", r.localID);
    } else {
      AddPropertyKeeps(b, sourceID, r);
    }
  }

  lemma AnchorKeys(b: Batch, anchor: string)
    requires IndexesAgree(b)
    ensures var b' := AddAnchor(b, anchor);
            && b'.nodeIndex.Keys == b.nodeIndex.Keys + (if anchor != "" then {NodeKey(ANCHOR_TYPE, anchor)} else {})
            && b'.propertyRefs == b.propertyRefs
  {
    hide EntitiesOK, Extends, Unique, PlainScan;
    if anchor != "" {
      AddNodeKeeps(b, NodeKey(ANCHOR_TYPE, anchor), "node", 0);
    }
  }

  lemma KnownKeys(b: Batch, l: Label)
    ensures l in Known(b) <==> (if l.LocalLabel? then l.id in b.localIDMap.Keys else l.key in b.nodeIndex.Keys)
  {
  }

  lemma PlaceKnown(b: Batch, sourceID: nat, r: Result)
    requires WellFormed(b) && b.Has(sourceID)
    ensures Known(Place(b, sourceID, r)) == Known(b) + Offers(r)
    ensures Place(b, sourceID, r).propertyRefs.Keys
            <= b.propertyRefs.Keys + (if IsNodeResult(r) then {} else {EntityKey(r.etype, r.value)})
  {
    hide EntitiesOK, Extends, ResultsOK, Ordered, Known, AddTarget, AddAnchor, Unique, PlainScan;
    PlaceLocalIDs(b, sourceID, r);
    TargetKeys(b, sourceID, r);
    AnchorKeys(AddTarget(b, sourceID, r), r.anchor);
    forall l ensures l in Known(Place(b, sourceID, r)) <==> l in Known(b) + Offers(r) {
      KnownKeys(b, l);
      KnownKeys(Place(b, sourceID, r), l);
    }
  }

  lemma {:induction false} PlaceAllKnown(b: Batch, sourceID: nat, rs: seq<Result>, all: seq<Group>)
    requires WellFormed(b) && b.Has(sourceID) && RefsFrom(b, all)
    requires forall r <- rs :: !IsNodeResult(r) ==> NamesProperty(EntityKey(r.etype, r.value), all)
    ensures Known(PlaceAll(b, sourceID, rs)) == Known(b) + OffersAll(rs)
    ensures RefsFrom(PlaceAll(b, sourceID, rs), all)
    decreases |rs|
  {
    hide WellFormed, Extends, Place, Known, Offers;
    if rs != [] {
      PlaceKeeps(b, sourceID, rs[0]);
      PlaceKnown(b, sourceID, rs[0]);
      PlaceAllKnown(Place(b, sourceID, rs[0]), sourceID, rs[1..], all);
    }
  }

  /** With a definite source, resolving is a question about labels only. */
  lemma ResolveDefinite(b: Batch, g: Group, all: seq<Group>)
    requires WellFormed(b) && RefsFrom(b, all) && Definite(RootKey(b), [g], all)
    ensures !Resolve(b, RootKey(b), g.source).Ambiguous?
    ensures Resolve(b, RootKey(b), g.source).Resolved? <==> Needs(RootKey(b), g.source) <= Known(b)
  {
    assert g in [g];
  }

  // ------------------------------------------------------------ moving one group from pending to placed

  lemma DerivablePlaced(start: set<Label>, rootKey: string, g: Group, rest: seq<Group>, before: seq<Group>)
    requires Needs(rootKey, g.source) <= start
    requires forall x :: x in before <==> x == g || x in rest
    ensures Derivable(start, rootKey, before) <==> Derivable(start + OffersAll(g.results), rootKey, rest)
  {
    var start' := start + OffersAll(g.results);
    forall known: set<Label>
      ensures Closed(known, start, rootKey, before) <==> Closed(known, start', rootKey, rest)
    {
      assert g in before;
    }
  }

  lemma {:induction false} RoundDerivable(b: Batch, skipped: seq<Group>, pending: seq<Group>, all: seq<Group>)
    requires WellFormed(b) && RefsFrom(b, all) && Definite(RootKey(b), pending, all)
    requires forall g <- pending :: g in all
    ensures var out := Round(b, pending);
            && out.RoundDone? && RefsFrom(out.batch, all) && (forall g <- out.next :: g in pending)
            && (Derivable(Known(b), RootKey(b), skipped + pending)
                <==> Derivable(Known(out.batch), RootKey(b), skipped + out.next))
    decreases |pending|
  {
    hide WellFormed, Extends, Known, Derivable, Resolve, PlaceAll;
    if pending != [] {
      var g, rest := pending[0], pending[1..];
      assert g in pending && forall x <- rest :: x in pending;
      assert Definite(RootKey(b), [g], all);
      ResolveDefinite(b, g, all);
      ResolveMeaning(b, g.source);
      match Resolve(b, RootKey(b), g.source)
      case Resolved(id) =>
        assert forall r <- g.results :: !IsNodeResult(r) ==> NamesProperty(EntityKey(r.etype, r.value), all);
        PlaceAllKnown(b, id, g.results, all);
        DerivablePlaced(Known(b), RootKey(b), g, skipped + rest, skipped + pending);
        RoundDerivable(PlaceAll(b, id, g.results), skipped, rest, all);
      case Unresolved =>
        RoundDerivable(b, skipped + [g], rest, all);
        var next := Round(b, rest).next;
        assert skipped + [g] + rest == skipped + pending;
        assert skipped + [g] + next == skipped + ([g] + next);
    }
  }

  /** A round that keeps every group has met only unknown sources. */
  lemma {:induction false} StuckRound(b: Batch, pending: seq<Group>, all: seq<Group>)
    requires WellFormed(b) && RefsFrom(b, all) && Definite(RootKey(b), pending, all)
    requires Round(b, pending).RoundDone? && |Round(b, pending).next| == |pending|
    ensures forall g <- pending :: !(Needs(RootKey(b), g.source) <= Known(b))
    decreases |pending|
  {
    if pending != [] {
      var g, rest := pending[0], pending[1..];
      assert g in pending && forall x <- rest :: x in pending;
      assert Definite(RootKey(b), [g], all);
      ResolveDefinite(b, g, all);
      ResolveMeaning(b, g.source);
      if Resolve(b, RootKey(b), g.source).Unresolved? {
        StuckRound(b, rest, all);
      }
    }
  }

  lemma {:induction false} RoundsLeastFixpoint(b: Batch, pending: seq<Group>, all: seq<Group>)
    requires WellFormed(b) && RefsFrom(b, all) && Definite(RootKey(b), pending, all)
    requires forall g <- pending :: g in all
    ensures Rounds(b, pending).Built? <==> Derivable(Known(b), RootKey(b), pending)
    decreases |pending|
  {
    hide WellFormed, Known;
    if pending == [] {
    } else {
      RoundDerivable(b, [], pending, all);
      var out := Round(b, pending);
      assert [] + pending == pending && [] + out.next == out.next;
      if |out.next| == |pending| {
        StuckRound(b, pending, all);
        assert Closed(Known(b), Known(b), RootKey(b), pending);
        assert pending[0] in pending;
      } else {
        RoundsLeastFixpoint(out.batch, out.next, all);
      }
    }
  }

  /** What the root offers before any group is placed. */
  function RootOffers(source: EntityFields): set<Label> {
    if source.category == "property" then {} else {NodeLabel(NodeKey(source.etype, source.value))}
  }

  /** For definite packets the build succeeds exactly when every group is derivable from the root. */
  lemma BuildLeastFixpoint(source: EntityFields, groups: seq<Group>)
    requires Definite(EntityKey(source.etype, source.value), groups, groups)
    ensures Build(source, groups).Built?
            <==> Derivable(RootOffers(source), EntityKey(source.etype, source.value), groups)
  {
    var b := NewBatch(source);
    NewBatchWellFormed(source);
    assert Known(b) == RootOffers(source);
    RoundsLeastFixpoint(b, groups, groups);
  }

  /** The order in which the packet lists its groups does not matter. */
  lemma BuildOrderIndependent(source: EntityFields, groups: seq<Group>, permuted: seq<Group>)
    requires Definite(EntityKey(source.etype, source.value), groups, groups)
    requires multiset(groups) == multiset(permuted)
    ensures Build(source, groups).Built? <==> Build(source, permuted).Built?
    ensures Build(source, groups).Built? ==>
              multiset(Payload(Build(source, groups).batch.results))
                  == multiset(Payload(Build(source, permuted).batch.results))
  {
    var rootKey := EntityKey(source.etype, source.value);
    assert forall g :: g in groups <==> g in multiset(groups);
    assert forall g :: g in permuted <==> g in multiset(permuted);
    forall key ensures NamesProperty(key, groups) <==> NamesProperty(key, permuted) {}
    BuildLeastFixpoint(source, groups);
    BuildLeastFixpoint(source, permuted);
    assert forall known: set<Label> ::
      Closed(known, RootOffers(source), rootKey, groups) <==> Closed(known, RootOffers(source), rootKey, permuted);
    BuildConserves(source, groups);
    BuildConserves(source, permuted);
    FlattenPermuted(groups, permuted);
  }

  lemma {:induction false} FlattenRemove(groups: seq<Group>, i: nat)
    requires i < |groups|
    ensures multiset(Flatten(groups)) == multiset(groups[i].results) + multiset(Flatten(groups[..i] + groups[i + 1..]))
    decreases i
  {
    var rest := groups[..i] + groups[i + 1..];
    if i == 0 {
      assert rest == groups[1..];
    } else {
      FlattenRemove(groups[1..], i - 1);
      assert groups[1..][..i - 1] + groups[1..][i..] == rest[1..];
    }
  }

  lemma {:induction false} FlattenPermuted(groups: seq<Group>, permuted: seq<Group>)
    requires multiset(groups) == multiset(permuted)
    ensures multiset(Flatten(groups)) == multiset(Flatten(permuted))
    decreases |groups|
  {
    if groups == [] {
      assert |multiset(permuted)| == 0;
    } else {
      var g := groups[0];
      assert groups == [g] + groups[1..];
      assert g in multiset(permuted);
      var i :| 0 <= i < |permuted| && permuted[i] == g;
      var rest := permuted[..i] + permuted[i + 1..];
      assert permuted == permuted[..i] + [g] + permuted[i + 1..];
      FlattenRemove(permuted, i);
      assert multiset(groups[1..]) == multiset(groups) - multiset{g};
      assert multiset(rest) == multiset(permuted) - multiset{g};
      FlattenPermuted(groups[1..], rest);
    }
  }
}
