/**
 Which packets make the depth loop exact.  `PacketDepthsIff` has the exact condition for every
 packet.  If no group hangs on a mere domain, one that the packet uses as an anchor without
 reporting it there, every source of the batch is the root or the target of an earlier result,
 and the skip of unresolved sources never fires.
 */
module BatchSources {
  import opened Schema
  import opened StoreBatch
  import opened StoreResult
  import opened ShortestPaths
  import opened DepthLoop
  import opened DepthCondition
  import opened Database
  import opened StoreDb
  import opened BatchFacts
  import opened EntityStates
  import opened StoreWrites
  import opened StoreStep
  import opened StoreKeeps

  // ------------------------------------------------------------ sources are found before they are used

  predicate FoundBy(b: Batch, id: nat, n: nat)
    requires n <= |b.results|
  {
    id == b.rootID || exists j :: 0 <= j < n && b.results[j].targetID == id
  }

  predicate SourcesFound(b: Batch) {
    forall i :: 0 <= i < |b.results| ==> FoundBy(b, b.results[i].sourceID, i)
  }

  // ------------------------------------------------------------ domains that are reported where they are an anchor

  /** Some result reports the domain itself, as a node. */
  predicate ReportsDomain(rs: seq<Result>, domain: string) {
    exists j :: 0 <= j < |rs| && IsNodeResult(rs[j]) && rs[j].etype == ANCHOR_TYPE && rs[j].value == domain
  }

  predicate NamedIfAnchor(rs: seq<Result>, domain: string) {
    (exists j :: 0 <= j < |rs| && rs[j].anchor == domain) ==> ReportsDomain(rs, domain)
  }

  /** Each group that anchors a result at the domain reports the domain too. */
  predicate ReportedWhereAnchor(groups: seq<Group>, domain: string) {
    forall i :: 0 <= i < |groups| ==> NamedIfAnchor(groups[i].results, domain)
  }

  /** The reference carries a local id, names the root, is of another type than the anchors' or without a value,
      or names a domain that the packet reports wherever it anchors a result at it. */
  predicate NoMereDomain(rootKey: string, groups: seq<Group>, source: EntityRef) {
    || source.localID != 0 || EntityKey(source.etype, source.value) == rootKey || source.etype != ANCHOR_TYPE
    || source.value == "" || ReportedWhereAnchor(groups, source.value)
  }

  predicate NoMereDomains(rootKey: string, groups: seq<Group>, pending: seq<Group>) {
    forall i :: 0 <= i < |pending| ==> pending[i] in groups && NoMereDomain(rootKey, groups, pending[i].source)
  }

  /** Every such domain that is an anchor of a placed result is reported by a placed result. */
  ghost predicate PlacedNamed(b: Batch, groups: seq<Group>) {
    forall domain :: ReportedWhereAnchor(groups, domain) ==> NamedIfAnchor(Payload(b.results), domain)
  }

  lemma NamedConcat(a: seq<Result>, c: seq<Result>, domain: string)
    requires NamedIfAnchor(a, domain) && NamedIfAnchor(c, domain)
    ensures NamedIfAnchor(a + c, domain)
  {
    var all := a + c;
    if exists j :: 0 <= j < |all| && all[j].anchor == domain {
      var j :| 0 <= j < |all| && all[j].anchor == domain;
      if j < |a| {
        assert a[j].anchor == domain;
        var k :| 0 <= k < |a| && IsNodeResult(a[k]) && a[k].etype == ANCHOR_TYPE && a[k].value == domain;
        assert all[k] == a[k];
      } else {
        assert c[j - |a|].anchor == domain;
        var k :| 0 <= k < |c| && IsNodeResult(c[k]) && c[k].etype == ANCHOR_TYPE && c[k].value == domain;
        assert all[|a| + k] == c[k];
      }
    }
  }

  lemma PlacedGroupNamed(b: Batch, id: nat, g: Group, groups: seq<Group>)
    requires WellFormed(b) && b.Has(id) && PlacedNamed(b, groups) && g in groups
    ensures PlacedNamed(PlaceAll(b, id, g.results), groups)
  {
    hide WellFormed, PlaceAll, NamedIfAnchor;
    PlaceAllPayload(b, id, g.results);
    forall domain | ReportedWhereAnchor(groups, domain)
      ensures NamedIfAnchor(Payload(PlaceAll(b, id, g.results).results), domain)
    {
      var i :| 0 <= i < |groups| && groups[i] == g;
      NamedConcat(Payload(b.results), g.results, domain);
    }
  }

  lemma {:induction false} PayloadAt(rs: seq<BatchResult>, i: nat)
    requires i < |rs|
    ensures |Payload(rs)| == |rs| && Payload(rs)[i] == rs[i].result
    decreases |rs|
  {
    var n := |rs| - 1;
    if i < n {
      PayloadAt(rs[..n], i);
    } else {
      PayloadSize(rs);
      PayloadSize(rs[..n]);
    }
  }

  /** A reported domain in the node index is the target of a placed result. */
  lemma NamedIsTarget(b: Batch, domain: string) returns (i: nat)
    requires WellFormed(b) && NodeKey(ANCHOR_TYPE, domain) in b.nodeIndex && ReportsDomain(Payload(b.results), domain)
    ensures i < |b.results| && b.results[i].targetID == b.nodeIndex[NodeKey(ANCHOR_TYPE, domain)]
  {
    PayloadSize(b.results);
    var rs := Payload(b.results);
    i :| 0 <= i < |rs| && IsNodeResult(rs[i]) && rs[i].etype == ANCHOR_TYPE && rs[i].value == domain;
    PayloadAt(b.results, i);
    assert ResultOK(b, b.results[i]);
    NodeIndexMeaning(b.entities);
  }

  lemma AnchorIsTarget(b: Batch, groups: seq<Group>, domain: string, j: nat)
    requires WellFormed(b) && NodeKey(ANCHOR_TYPE, domain) in b.nodeIndex && ReportedWhereAnchor(groups, domain)
             && PlacedNamed(b, groups)
    requires j < |b.results| && b.results[j].result.anchor == domain
    ensures exists i :: 0 <= i < |b.results| && b.results[i].targetID == b.nodeIndex[NodeKey(ANCHOR_TYPE, domain)]
  {
    hide WellFormed;
    PayloadAt(b.results, j);
    assert NamedIfAnchor(Payload(b.results), domain);
    var i := NamedIsTarget(b, domain);
  }

  lemma ResolvedIsFound(b: Batch, groups: seq<Group>, source: EntityRef)
    requires WellFormed(b) && PlacedNamed(b, groups)
    requires NoMereDomain(RootKey(b), groups, source) && Resolve(b, RootKey(b), source).Resolved?
    ensures b.Has(Resolve(b, RootKey(b), source).id) && FoundBy(b, Resolve(b, RootKey(b), source).id, |b.results|)
  {
    hide PlacedNamed, ReportedWhereAnchor;
    ResolveMeaning(b, source);
    var id := Resolve(b, RootKey(b), source).id;
    if source.localID != 0 {
      var r :| r in b.results && r.result.localID == source.localID && r.targetID == id;
    } else if id != b.rootID {
      assert Introduced(b, id, |b.results|);
      var key := NodeKey(source.etype, source.value);
      if key in b.nodeIndex {
        NodeLookup(b, key);
      } else {
        var refs := Refs(b, EntityKey(source.etype, source.value));
        assert id in refs;
        PropertyRefsMeaning(b.entities, EntityKey(source.etype, source.value));
      }
      var j :| 0 <= j < |b.results| && (b.results[j].targetID == id || Anchors(b, b.results[j], id));
      if b.results[j].targetID != id {
        AnchorIsTarget(b, groups, source.value, j);
      }
    }
  }

  lemma AppendKeepsFound(b: Batch, b': Batch, r: BatchResult)
    requires SourcesFound(b) && FoundBy(b, r.sourceID, |b.results|)
    requires b'.rootID == b.rootID && b'.results == b.results + [r]
    ensures SourcesFound(b') && FoundBy(b', r.sourceID, |b'.results|)
  {
    assert forall j :: 0 <= j < |b.results| ==> b'.results[j] == b.results[j];
    forall i | 0 <= i < |b'.results| ensures FoundBy(b', b'.results[i].sourceID, i) {
      assert i < |b.results| ==> FoundBy(b, b.results[i].sourceID, i);
    }
  }

  lemma PlaceKeepsFound(b: Batch, sourceID: nat, r: Result)
    requires WellFormed(b) && b.Has(sourceID) && SourcesFound(b) && FoundBy(b, sourceID, |b.results|)
    ensures SourcesFound(Place(b, sourceID, r))
            && FoundBy(Place(b, sourceID, r), sourceID, |Place(b, sourceID, r).results|)
  {
    hide WellFormed, IndexesAgree, SourcesFound, FoundBy;
    AppendKeepsFound(b, Place(b, sourceID, r), BatchResult(sourceID, TargetID(b, sourceID, r), r));
  }

  lemma {:induction false} PlaceAllKeepsFound(b: Batch, sourceID: nat, rs: seq<Result>)
    requires WellFormed(b) && b.Has(sourceID) && SourcesFound(b) && FoundBy(b, sourceID, |b.results|)
    ensures SourcesFound(PlaceAll(b, sourceID, rs))
    decreases |rs|
  {
    if rs != [] {
      hide WellFormed, Place, SourcesFound, FoundBy, Extends;
      PlaceKeeps(b, sourceID, rs[0]);
      PlaceKeepsFound(b, sourceID, rs[0]);
      PlaceAllKeepsFound(Place(b, sourceID, rs[0]), sourceID, rs[1..]);
    }
  }

  lemma {:induction false} RoundKeepsFound(b: Batch, groups: seq<Group>, pending: seq<Group>)
    requires WellFormed(b) && SourcesFound(b) && PlacedNamed(b, groups) && NoMereDomains(RootKey(b), groups, pending)
    ensures var out := Round(b, pending);
            out.RoundDone? ==>
              SourcesFound(out.batch) && PlacedNamed(out.batch, groups)
                  && NoMereDomains(RootKey(out.batch), groups, out.next)
    decreases |pending|
  {
    hide WellFormed, SourcesFound, FoundBy, PlaceAll, Resolve, NoMereDomain, PlacedNamed;
    if pending != [] {
      ResolveMeaning(b, pending[0].source);
      match Resolve(b, RootKey(b), pending[0].source)
      case Ambiguous =>
      case Resolved(id) =>
        ResolvedIsFound(b, groups, pending[0].source);
        PlaceAllKeepsFound(b, id, pending[0].results);
        PlacedGroupNamed(b, id, pending[0], groups);
        RoundKeepsFound(PlaceAll(b, id, pending[0].results), groups, pending[1..]);
      case Unresolved =>
        RoundKeepsFound(b, groups, pending[1..]);
    }
  }

  lemma {:induction false} RoundsKeepFound(b: Batch, groups: seq<Group>, pending: seq<Group>)
    requires WellFormed(b) && SourcesFound(b) && PlacedNamed(b, groups) && NoMereDomains(RootKey(b), groups, pending)
    ensures Rounds(b, pending).Built? ==> SourcesFound(Rounds(b, pending).batch)
    decreases |pending|
  {
    hide WellFormed, SourcesFound, Round, NoMereDomains, PlacedNamed;
    if pending != [] {
      RoundKeepsFound(b, groups, pending);
      var out := Round(b, pending);
      if out.RoundDone? && |out.next| != |pending| {
        RoundsKeepFound(out.batch, groups, out.next);
      }
    }
  }

  /** If no group hangs on a mere domain, every source of the batch is the root or the target of an
      earlier result, in whatever order the groups come. */
  lemma FinalBatchFound(source: EntityFields, groups: seq<Group>)
    requires NoMereDomains(EntityKey(source.etype, source.value), groups, groups)
    ensures SourcesFound(FinalBatch(source, groups))
  {
    NewBatchWellFormed(source);
    assert SourcesFound(NewBatch(source));
    assert Payload(NewBatch(source).results) == [];
    RoundsKeepFound(NewBatch(source), groups, groups);
  }

  // ------------------------------------------------------------ exact depths for such packets

  lemma FoundItems(b: Batch)
    requires WellFormed(b) && SourcesFound(b)
    ensures forall r <- b.results :: b.Has(r.targetID)
    ensures SourcesTargeted(Items(b, b.results), b.rootID)
  {
    ItemsOK(b);
    hide WellFormed;
    var items := Items(b, b.results);
    forall i | 0 <= i < |items|
      ensures items[i].src == b.rootID || exists j :: 0 <= j < i && items[j].dst == items[i].src {
      assert FoundBy(b, b.results[i].sourceID, i);
      if items[i].src != b.rootID {
        var j :| 0 <= j < i && b.results[j].targetID == b.results[i].sourceID;
        assert items[j].dst == items[i].src;
      }
    }
  }

  /** The root enters the loop with its row's strict depth. */
  lemma RootDepth(db: Db, b: Batch, sourceID: nat)
    requires TableOK(db) && RootOf(db, b, sourceID) && WellFormed(b)
    ensures MarkedStates(db, b, sourceID)[b.rootID].strict == db.rows[sourceID].strict
  {
    MarksOnly(db, b, sourceID);
    FindNode(db, b, b.rootID);
    assert RowOK(db, sourceID, db.rows[sourceID]);
    assert b.Has(b.rootID);
    hide WellFormed, TableOK, MarkedStates;
    assert InitialStates(db, b, sourceID)[b.rootID] == InitialState(db, b, sourceID, b.rootID);
  }

  /** What the loop starts from, for any packet. */
  lemma PacketLoop(db: Db, p: Packet, anchorOf: AnchorFn)
    requires DbInv(db, anchorOf) && AnchorFnOK(anchorOf) && PacketFits(db, p, anchorOf)
    ensures var b := PacketBatch(db, p);
            var st := MarkedStates(db, b, p.sourceID);
            && b.Has(b.rootID) && |b.results| <= TotalResults(p.groups)
            && (forall r <- b.results :: b.Has(r.targetID))
            && ItemsInRange(Items(b, b.results), |st|) && Bounded(st) && |st| == |b.entities| + 1
            && st[b.rootID].strict == db.rows[p.sourceID].strict
  {
    var b := PacketBatch(db, p);
    var source := FieldsOf(db.rows[p.sourceID]);
    assert TableOK(db);
    FinalBatchSize(source, p.groups);
    hide DbInv, AnchorFnOK, WellFormed, RootOf, Plain, TableOK, Build, GroupsFit, FinalBatch,
         StatesOK, AnchoredUnmarked, MarkKeeps, MarkedStates;
    BatchRoot(db, p, anchorOf);
    ItemsOK(b);
    ItemsOfFit(b, anchorOf);
    MarkedStatesOK(db, b, p.sourceID, anchorOf);
    MarkedBounded(db, b, anchorOf, p.sourceID);
    RootDepth(db, b, p.sourceID);
    RootFirst(b);
  }

  /** For every packet: strict depths are exact, and relaxed depths are exactly when no result that
      never fires spoils a cheapest chain and every chain of live results is met in time. */
  lemma PacketDepthsIff(db: Db, p: Packet, anchorOf: AnchorFn)
    requires DbInv(db, anchorOf) && AnchorFnOK(anchorOf) && PacketFits(db, p, anchorOf)
    ensures var b := PacketBatch(db, p);
            var st, final := MarkedStates(db, b, p.sourceID), FinalStates(db, b, p.sourceID);
            && (forall r <- b.results :: b.Has(r.targetID))
            && Exact(StrictOf(st), StrictEdges(Items(b, b.results)), StrictOf(final))
            && (Exact(RelaxedOf(st), RelaxedEdges(Items(b, b.results)), RelaxedOf(final))
                <==> DeadHarmless(st, Items(b, b.results)) && InTime(st, Items(b, b.results), |b.entities|))
  {
    hide DbInv, AnchorFnOK, GroupsFit, WellFormed, MarkedStates, Exact, PacketBatch, DeadHarmless, InTime;
    var b := PacketBatch(db, p);
    PacketLoop(db, p, anchorOf);
    StrictDepthsExact(MarkedStates(db, b, p.sourceID), Items(b, b.results), |b.entities|);
    RelaxedExactIff(MarkedStates(db, b, p.sourceID), Items(b, b.results), |b.entities|);
  }

  /** Relaxed depths are exact too when every source of the batch is the root or the target of an
      earlier result, and the packet is stored on a source of known depth. */
  lemma FoundDepthsExact(db: Db, p: Packet, anchorOf: AnchorFn)
    requires DbInv(db, anchorOf) && AnchorFnOK(anchorOf) && PacketFits(db, p, anchorOf)
    requires SourcesFound(PacketBatch(db, p))
    requires db.rows[p.sourceID].strict + TotalResults(p.groups) < UNRESOLVED
    ensures var b := PacketBatch(db, p);
            var st, final := MarkedStates(db, b, p.sourceID), FinalStates(db, b, p.sourceID);
            && (forall r <- b.results :: b.Has(r.targetID))
            && Exact(StrictOf(st), StrictEdges(Items(b, b.results)), StrictOf(final))
            && Exact(RelaxedOf(st), RelaxedEdges(Items(b, b.results)), RelaxedOf(final))
  {
    hide DbInv, AnchorFnOK, GroupsFit, WellFormed, MarkedStates, Exact, PacketBatch, SourcesFound, SourcesTargeted;
    var b := PacketBatch(db, p);
    PacketLoop(db, p, anchorOf);
    FoundItems(b);
    var st := MarkedStates(db, b, p.sourceID);
    StrictDepthsExact(st, Items(b, b.results), |b.entities|);
    RelaxedExactWhenTargeted(st, Items(b, b.results), b.rootID, |b.entities|);
  }

  /** Hence for every packet in which no group hangs on a mere domain, whatever the order of its groups. */
  lemma PacketDepthsExact(db: Db, p: Packet, anchorOf: AnchorFn)
    requires DbInv(db, anchorOf) && AnchorFnOK(anchorOf) && PacketFits(db, p, anchorOf)
    requires NoMereDomains(EntityKey(db.rows[p.sourceID].etype, db.rows[p.sourceID].value), p.groups, p.groups)
    requires db.rows[p.sourceID].strict + TotalResults(p.groups) < UNRESOLVED
    ensures var b := PacketBatch(db, p);
            var st, final := MarkedStates(db, b, p.sourceID), FinalStates(db, b, p.sourceID);
            && (forall r <- b.results :: b.Has(r.targetID))
            && Exact(StrictOf(st), StrictEdges(Items(b, b.results)), StrictOf(final))
            && Exact(RelaxedOf(st), RelaxedEdges(Items(b, b.results)), RelaxedOf(final))
  {
    FinalBatchFound(FieldsOf(db.rows[p.sourceID]), p.groups);
    hide DbInv, AnchorFnOK, GroupsFit, WellFormed, MarkedStates, FinalStates, Exact, SourcesFound;
    FoundDepthsExact(db, p, anchorOf);
  }

  lemma RootFirst(b: Batch)
    requires WellFormed(b)
    ensures b.Has(b.rootID)
  {
  }
}
