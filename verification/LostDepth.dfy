/**
 A run whose packet loses a relaxed depth.  On an address a function reports a subdomain, its
 registrable domain as a property, and an address on that domain.  The property makes the domain
 reachable for the processor; in the batch the domain's node is an anchor only, yet it is the
 node that the last result hangs on.
 */
module LostDepth {
  import opened Schema
  import opened StoreBatch
  import opened StoreResult
  import opened NodeBatches
  import opened ShortestPaths
  import opened DepthLoop
  import opened DepthCondition
  import opened Database
  import opened StoreDb
  import opened BatchFacts
  import opened EntityStates
  import opened StoreStep
  import P = Processor
  import Q = Processing
  import S = SentPackets
  import R = Reachability

  const ROOT := "192.0.2.1"
  const NEXT := "192.0.2.2"
  const SITE := "www.example.com"
  const ORG := "example.com"

  function ResultOf(etype: string, category: string, value: string, anchor: string): Result {
    Result("f", etype, category, value, false, false, [], anchor, 0)
  }

  function AsSubdomain(): Result { ResultOf("subdomain", "node", SITE, ORG) }

  function AsProperty(): Result { ResultOf(ANCHOR_TYPE, "property", ORG, "") }

  function OnDomain(): Result { ResultOf("ipv4", "node", NEXT, "") }

  function Groups(): seq<Group> {
    [Group(EntityRef("ipv4", ROOT, "", 0), [AsSubdomain(), AsProperty()]),
     Group(EntityRef(ANCHOR_TYPE, ORG, "", 0), [OnDomain()])]
  }

  function LosingPacket(): Packet {
    Packet("m", 1, Groups(), [], map["f" := ""], [])
  }

  /** The module run on the address: one requested function, whose results say just that. */
  function LosingRun(): P.Run {
    S.SendingRun("ipv4", ROOT, "f", [], LosingPacket())
  }

  /** What the syntax check makes of the four names; none of them is blocked. */
  predicate ChecksAsUsual(rules: P.Rules) {
    && rules.validate("ipv4", ROOT) == P.Accepted("ipv4", ROOT, "")
    && rules.validate("ipv4", NEXT) == P.Accepted("ipv4", NEXT, "")
    && rules.validate("subdomain", SITE) == P.Accepted("subdomain", SITE, ORG)
    && rules.validate(ANCHOR_TYPE, ORG) == P.Accepted(ANCHOR_TYPE, ORG, ORG)
    && !rules.blocked("ipv4", ROOT) && !rules.blocked("ipv4", NEXT)
    && !rules.blocked("subdomain", SITE) && !rules.blocked(ANCHOR_TYPE, ORG)
  }

  // ------------------------------------------------------------ its packet

  lemma StringsDiffer()
    ensures "subdomain" != "ipv4" && "subdomain" != ANCHOR_TYPE && "ipv4" != ANCHOR_TYPE && NEXT != ROOT
    ensures EntityKey(ANCHOR_TYPE, ORG) != EntityKey("ipv4", ROOT)
  {
    assert "subdomain"[0] == 's' && "ipv4"[0] == 'i' && ANCHOR_TYPE[0] == 'd';
    assert NEXT[8] == '2' && ROOT[8] == '1';
    assert EntityKey(ANCHOR_TYPE, ORG)[0] == 'd' && EntityKey("ipv4", ROOT)[0] == 'i';
  }

  lemma LosingSendable(rules: P.Rules)
    requires ChecksAsUsual(rules)
    ensures S.GroupsSendable(rules, "f", [], Groups())
  {
    StringsDiffer();
    var gs := Groups();
    forall i | 0 <= i < |gs| ensures S.GroupSendable(rules, "f", [], gs[i]) {
      forall j | 0 <= j < |gs[i].results| ensures S.ResultSendable(rules, "f", [], gs[i].source, gs[i].results[j]) {
      }
    }
  }

  lemma LosingReached()
    ensures S.SourcesReached(LosingRun(), Groups())
  {
    var d, gs := LosingRun(), Groups();
    hide Q.Found, Q.Links, S.SendingRun;
    assert d.etype == "ipv4" && d.value == ROOT by { RunSource(); }
    Q.FoundMeaning(d, R.Key("ipv4", ROOT));
    S.FoundFirst(d);
    S.ResultLinks("ipv4", ROOT, "f", [], LosingPacket(), 0, 1);
    S.FoundNext(d, R.Key("ipv4", ROOT), R.Key(ANCHOR_TYPE, ORG));
  }

  lemma RunSource()
    ensures LosingRun().etype == "ipv4" && LosingRun().value == ROOT
  {
  }

  lemma LosingIsSent(rules: P.Rules)
    requires ChecksAsUsual(rules)
    ensures Q.IsPacket(rules, LosingRun(), LosingPacket())
  {
    LosingSendable(rules);
    LosingReached();
    hide ChecksAsUsual, S.GroupsSendable, S.SourcesReached, Q.IsPacket, S.SendingRun;
    S.PacketIsSent(rules, "ipv4", ROOT, "f", [], LosingPacket());
  }

  // ------------------------------------------------------------ its batch

  function Source(): EntityFields {
    EntityFields("ipv4", ROOT, "node")
  }

  function Node(etype: string, value: string): BatchEntity {
    FreshNode(NodeKey(etype, value))
  }

  function PropertyNode(): BatchEntity {
    BatchEntity(1, EntityFields(ANCHOR_TYPE, ORG, "property"), "", false, [])
  }

  lemma PlaceNewNode(b: Batch, sourceID: nat, r: Result)
    requires WellFormed(b) && b.Has(sourceID) && IsNodeResult(r) && r.localID == 0 && r.anchor == ""
    requires NodeKey(r.etype, r.value) !in b.nodeIndex
    ensures var b' := Place(b, sourceID, r);
            && b'.entities == b.entities + [Node(r.etype, r.value)] && b'.rootID == b.rootID
            && b'.nodeIndex == b.nodeIndex[NodeKey(r.etype, r.value) := |b.entities| + 1]
            && b'.results == b.results + [BatchResult(sourceID, |b.entities| + 1, r)]
            && b'.localIDMap == b.localIDMap && b'.propertyRefs == b.propertyRefs
  {
    hide WellFormed, IndexesAgree;
  }

  lemma PlaceNewAnchored(b: Batch, sourceID: nat, r: Result)
    requires WellFormed(b) && b.Has(sourceID) && IsNodeResult(r) && r.localID == 0 && r.anchor != ""
    requires NodeKey(r.etype, r.value) !in b.nodeIndex && NodeKey(ANCHOR_TYPE, r.anchor) !in b.nodeIndex
    requires NodeKey(r.etype, r.value) != NodeKey(ANCHOR_TYPE, r.anchor)
    ensures var b' := Place(b, sourceID, r);
            && b'.entities == b.entities + [Node(r.etype, r.value), Node(ANCHOR_TYPE, r.anchor)]
               && b'.rootID == b.rootID
            && b'.nodeIndex
               == b.nodeIndex[NodeKey(r.etype, r.value) := |b.entities| + 1]
                             [NodeKey(ANCHOR_TYPE, r.anchor) := |b.entities| + 2]
            && b'.results == b.results + [BatchResult(sourceID, |b.entities| + 1, r)]
            && b'.localIDMap == b.localIDMap && b'.propertyRefs == b.propertyRefs
  {
    hide IndexesAgree, ResultsOK, Ordered;
    var b1 := AddTarget(b, sourceID, r);
    assert b1.entities == b.entities + [Node(r.etype, r.value)];
    assert b1.nodeIndex == b.nodeIndex[NodeKey(r.etype, r.value) := |b.entities| + 1];
  }

  lemma PlaceNewProperty(b: Batch, sourceID: nat, r: Result)
    requires WellFormed(b) && b.Has(sourceID) && r.category == "property" && r.localID == 0 && r.anchor == ""
             && r.tags == []
    requires PropertyKeyOf(sourceID, r) !in b.propertyIndex && !r.outOfScope
    ensures var b' := Place(b, sourceID, r);
            && b'.entities
               == b.entities + [BatchEntity(sourceID, EntityFields(r.etype, r.value, "property"), "", false, [])]
            && b'.rootID == b.rootID && b'.nodeIndex == b.nodeIndex && b'.localIDMap == b.localIDMap
            && b'.results == b.results + [BatchResult(sourceID, |b.entities| + 1, r)]
  {
    hide WellFormed, IndexesAgree;
    assert "property" != "node" by { assert "property"[0] == 'p'; }
  }

  /** What the packet's batch looks like. */
  predicate LosingBatch(b: Batch) {
    && b.rootID == 1
    && b.entities == [Node("ipv4", ROOT), Node("subdomain", SITE), Node(ANCHOR_TYPE, ORG), PropertyNode(),
       Node("ipv4", NEXT)]
    && NodeKey(ANCHOR_TYPE, ORG) in b.nodeIndex && b.nodeIndex[NodeKey(ANCHOR_TYPE, ORG)] == 3
    && b.results == [BatchResult(1, 2, AsSubdomain()), BatchResult(1, 4, AsProperty()), BatchResult(3, 5, OnDomain())]
  }

  function LosingKeys(): map<NodeKey, nat> {
    map[NodeKey("ipv4", ROOT) := 1, NodeKey("subdomain", SITE) := 2, NodeKey(ANCHOR_TYPE, ORG) := 3]
  }

  lemma NewSource()
    ensures var b := NewBatch(Source());
            && b.entities == [Node("ipv4", ROOT)] && b.nodeIndex == map[NodeKey("ipv4", ROOT) := 1]
               && b.localIDMap == map[]
            && b.propertyIndex == map[] && b.rootID == 1 && b.results == []
  {
    assert "node" != "property" by { assert "node"[0] == 'n'; }
  }

  lemma FirstResult() returns (b: Batch)
    ensures WellFormed(NewBatch(Source())) && NewBatch(Source()).Has(1)
    ensures WellFormed(b) && b == Place(NewBatch(Source()), 1, AsSubdomain())
    ensures b.rootID == 1 && b.entities == [Node("ipv4", ROOT), Node("subdomain", SITE), Node(ANCHOR_TYPE, ORG)]
    ensures b.nodeIndex == LosingKeys() && b.propertyIndex == map[] && b.results == [BatchResult(1, 2, AsSubdomain())]
            && b.localIDMap == map[]
  {
    hide WellFormed, IndexesAgree, Extends;
    StringsDiffer();
    NewBatchWellFormed(Source());
    NewSource();
    var b0 := NewBatch(Source());
    PlaceNewAnchored(b0, 1, AsSubdomain());
    PlaceKeeps(b0, 1, AsSubdomain());
    hide Place, NewBatch;
    b := Place(b0, 1, AsSubdomain());
  }

  lemma FirstGroup() returns (b: Batch)
    ensures WellFormed(NewBatch(Source())) && NewBatch(Source()).Has(1)
    ensures WellFormed(b) && b == PlaceAll(NewBatch(Source()), 1, Groups()[0].results)
    ensures b.rootID == 1
    ensures b.entities == [Node("ipv4", ROOT), Node("subdomain", SITE), Node(ANCHOR_TYPE, ORG), PropertyNode()]
    ensures b.nodeIndex == LosingKeys() && b.localIDMap == map[]
    ensures b.results == [BatchResult(1, 2, AsSubdomain()), BatchResult(1, 4, AsProperty())]
  {
    hide WellFormed, IndexesAgree, Extends, Place, NewBatch;
    var b1 := FirstResult();
    PlaceNewProperty(b1, 1, AsProperty());
    PlaceKeeps(b1, 1, AsProperty());
    b := Place(b1, 1, AsProperty());
    TwoResults(NewBatch(Source()), 1, AsSubdomain(), AsProperty());
  }

  lemma SecondGroup(b: Batch) returns (b': Batch)
    requires WellFormed(b) && b.rootID == 1
    requires b.entities == [Node("ipv4", ROOT), Node("subdomain", SITE), Node(ANCHOR_TYPE, ORG), PropertyNode()]
    requires b.nodeIndex == LosingKeys() && b.localIDMap == map[]
    requires b.results == [BatchResult(1, 2, AsSubdomain()), BatchResult(1, 4, AsProperty())]
    ensures b.Has(3) && WellFormed(b') && b' == PlaceAll(b, 3, [OnDomain()]) && LosingBatch(b')
    ensures Resolve(b, RootKey(b), Groups()[1].source) == Resolved(3)
  {
    hide WellFormed, IndexesAgree, Extends;
    StringsDiffer();
    assert b.Item(1) == Node("ipv4", ROOT) && RootKey(b) == EntityKey("ipv4", ROOT);
    PlaceNewNode(b, 3, OnDomain());
    OneResult(b, 3, OnDomain());
    hide Place, PlaceAll;
    b' := Place(b, 3, OnDomain());
  }

  /** Two groups that resolve one after the other are placed in one round. */
  lemma TwoGroups(b0: Batch, i: nat, b1: Batch, k: nat, b: Batch, gs: seq<Group>)
    requires |gs| == 2 && WellFormed(b0) && WellFormed(b1) && WellFormed(b)
    requires Resolve(b0, RootKey(b0), gs[0].source) == Resolved(i) && b0.Has(i) && b1 == PlaceAll(b0, i, gs[0].results)
    requires Resolve(b1, RootKey(b1), gs[1].source) == Resolved(k) && b1.Has(k) && b == PlaceAll(b1, k, gs[1].results)
    ensures Rounds(b0, gs) == Built(b)
  {
    hide WellFormed, PlaceAll, Resolve;
    assert gs[1..] == [gs[1]] && gs[1..][1..] == [];
    assert Round(b, []) == RoundDone(b, []);
    assert Round(b1, gs[1..]) == Round(b, []);
    assert Round(b0, gs) == Round(b1, gs[1..]);
    assert Rounds(b, []) == Built(b);
  }

  /** The build of the packet's groups succeeds with that batch. */
  lemma LosingBuild() returns (b: Batch)
    ensures Build(Source(), Groups()) == Built(b) && LosingBatch(b) && WellFormed(b)
  {
    NewBatchWellFormed(Source());
    var b0 := NewBatch(Source());
    var b1 := FirstGroup();
    b := SecondGroup(b1);
    hide WellFormed, PlaceAll, LosingBatch;
    TwoGroups(b0, 1, b1, 3, b, Groups());
  }

  // ------------------------------------------------------------ its depths

  lemma LosingItems(b: Batch)
    requires LosingBatch(b)
    ensures |b.entities| == 5 && forall r <- b.results :: b.Has(r.targetID) && b.Has(r.sourceID)
    ensures var items := Items(b, b.results);
            && |items| == 3 && items[0] == Item(1, 2, false, items[0].anchorName, AnchorAt(3))
            && items[1] == Item(1, 4, true, "", NoAnchor) && items[2] == Item(3, 5, false, "", NoAnchor)
  {
    assert "property" != "node" by { assert "property"[0] == 'p'; }
    assert b.results[0] == BatchResult(1, 2, AsSubdomain()) && b.results[1] == BatchResult(1, 4, AsProperty());
    assert b.results[2] == BatchResult(3, 5, OnDomain());
    assert b.Item(2) == Node("subdomain", SITE) && b.Item(4) == PropertyNode() && b.Item(5) == Node("ipv4", NEXT);
    forall r | r in b.results ensures b.Has(r.targetID) && b.Has(r.sourceID) {
    }
  }

  /** The loop comes to rest in time, but the last entity ends without a relaxed depth, although a
      chain of cost 2 leads to it: through a result that never fires. */
  ghost predicate IsSpoilt(st: States, items: seq<Item>)
    requires ItemsInRange(items, |st|)
  {
    var final := ManyPasses(st, items, 5);
    && |st| == 6 && final[5].relaxed == UNRESOLVED && Attained(RelaxedOf(st), RelaxedEdges(items), 5, 2)
    && !Exact(RelaxedOf(st), RelaxedEdges(items), RelaxedOf(final))
    && InTime(st, items, 5) && !DeadHarmless(st, items)
  }

  /** That entity is the second address. */
  ghost predicate LosesDepth(db: Db, b: Batch)
    requires WellFormed(b) && 1 in db.rows
  {
    && |b.entities| == 5 && KeyOf(b.Item(5)) == NodeKey("ipv4", NEXT)
    && (forall r <- b.results :: b.Has(r.targetID)) && ItemsInRange(Items(b, b.results), 6)
    && IsSpoilt(MarkedStates(db, b, 1), Items(b, b.results))
  }

  lemma AnchorOnlyCause(st: States, items: seq<Item>)
    requires AnchorOnlySource(st, items) && st[0].strict <= UNRESOLVED
    ensures |st| == 6 && ItemsInRange(items, 6) && IsSpoilt(st, items)
  {
    SkipLosesRelaxedDepth(st, items);
    AnchorOnlyBounded(st, items);
    hide InTime, DeadHarmless, Exact, Attained, AnchorOnlySource, ManyPasses, RelaxedEdges;
    RestIff(st, items, 5);
    RelaxedExactIff(st, items, 5);
  }

  lemma AnchorOnlyBounded(st: States, items: seq<Item>)
    requires AnchorOnlySource(st, items) && st[0].strict <= UNRESOLVED
    ensures Bounded(st) && |st| == 6
  {
  }

  lemma LosingDepths(db: Db, b: Batch)
    requires WellFormed(b) && LosingBatch(b) && db == InitialDb("ipv4", ROOT, "") && 1 in db.rows
    ensures LosesDepth(db, b)
  {
    LosingItems(b);
    assert b.Item(5) == Node("ipv4", NEXT);
    LosingStates(db, b);
    hide WellFormed, LosingBatch, MarkedStates, AnchorOnlySource, IsSpoilt, InitialDb;
    AnchorOnlyCause(MarkedStates(db, b, 1), Items(b, b.results));
  }

  /** The processor sends the packet for a run on the project's target, and stored on the new project
      it loses that depth. */
  lemma PacketLosesRelaxedDepth(rules: P.Rules, anchorOf: AnchorFn)
    requires ChecksAsUsual(rules) && Q.AnchorsAgree(rules, anchorOf)
    ensures var db, p := InitialDb("ipv4", ROOT, anchorOf("ipv4", ROOT)), LosingPacket();
            && Q.IsPacket(rules, LosingRun(), p)
            && DbInv(db, anchorOf) && PacketFits(db, p, anchorOf) && LosesDepth(db, PacketBatch(db, p))
  {
    LosingIsSent(rules);
    UsualAnchors(rules, anchorOf);
    hide ChecksAsUsual, Q.AnchorsAgree, Q.IsPacket;
    InitialInv("ipv4", ROOT, anchorOf);
    hide DbInv;
    var db, p := InitialDb("ipv4", ROOT, ""), LosingPacket();
    var b := LosingBuild();
    assert 1 in db.rows && FieldsOf(db.rows[1]) == Source();
    LosingFits(anchorOf);
    LosingDepths(db, b);
    hide WellFormed, LosingBatch, Build, GroupsFit, LosesDepth, Source;
  }

  lemma UsualAnchors(rules: P.Rules, anchorOf: AnchorFn)
    requires ChecksAsUsual(rules) && Q.AnchorsAgree(rules, anchorOf)
    ensures AnchorFnOK(anchorOf)
    ensures anchorOf("ipv4", ROOT) == "" && anchorOf("ipv4", NEXT) == "" && anchorOf("subdomain", SITE) == ORG
  {
    StringsDiffer();
    assert rules.validate("ipv4", ROOT).Accepted? && rules.validate("ipv4", NEXT).Accepted?
           && rules.validate("subdomain", SITE).Accepted?;
  }

  lemma LosingFits(anchorOf: AnchorFn)
    requires anchorOf("ipv4", NEXT) == "" && anchorOf("subdomain", SITE) == ORG
    ensures GroupsFit(Groups(), anchorOf)
  {
    assert "property" != "node" by { assert "property"[0] == 'p'; }
  }

  lemma LosingStates(db: Db, b: Batch)
    requires WellFormed(b) && LosingBatch(b) && db == InitialDb("ipv4", ROOT, "") && 1 in db.rows
    ensures AnchorOnlySource(MarkedStates(db, b, 1), Items(b, b.results))
    ensures MarkedStates(db, b, 1)[0].strict == 0
  {
    LosingItems(b);
    MarksOnly(db, b, 1);
    LosingStart(db, b);
    hide WellFormed, InitialDb, InitialStates, MarkedStates, LosingBatch;
    var st, st' := InitialStates(db, b, 1), MarkedStates(db, b, 1);
    forall v | 0 <= v < 6 ensures st'[v].strict == st[v].strict && st'[v].relaxed == st[v].relaxed {
      assert EntityStates.SameDepths(st[v], st'[v]);
    }
  }

  lemma LosingStart(db: Db, b: Batch)
    requires LosingBatch(b) && db == InitialDb("ipv4", ROOT, "") && 1 in db.rows
    ensures var st := InitialStates(db, b, 1);
            && |st| == 6 && st[0].strict == 0 && st[1].strict == 0 && st[1].relaxed == 0
            && forall v :: 2 <= v <= 5 ==> st[v].strict == UNRESOLVED && st[v].relaxed == UNRESOLVED
  {
    StringsDiffer();
    var st := InitialStates(db, b, 1);
    var row := Row("ipv4", ROOT, "node", None, false, 0, 0, None, None);
    assert db == Db(1, map[1 := row], 2, {}, {}, map[]);
    assert TableOK(db);
    hide TableOK, InitialDb;
    FindNode(db, b, 1);
    assert b.Item(1) == Node("ipv4", ROOT) && st[1] == InitialState(db, b, 1, 1);
    OtherStart(db, b, 2);
    OtherStart(db, b, 3);
    OtherStart(db, b, 4);
    OtherStart(db, b, 5);
  }

  lemma OtherStart(db: Db, b: Batch, v: nat)
    requires LosingBatch(b) && 2 <= v <= 5 && TableOK(db) && 1 in db.rows
    requires db == Db(1, map[1 := Row("ipv4", ROOT, "node", None, false, 0, 0, None, None)], 2, {}, {}, map[])
    ensures InitialStates(db, b, 1)[v].strict == UNRESOLVED && InitialStates(db, b, 1)[v].relaxed == UNRESOLVED
  {
    StringsDiffer();
    FindNode(db, b, v);
    assert b.Item(2) == Node("subdomain", SITE) && b.Item(3) == Node(ANCHOR_TYPE, ORG);
    assert b.Item(4) == PropertyNode() && b.Item(5) == Node("ipv4", NEXT);
    assert InitialStates(db, b, 1)[v] == InitialState(db, b, 1, v);
  }
}
