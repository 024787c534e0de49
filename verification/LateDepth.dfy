/**
 A run whose packet brings no dead result, and for which |entities| passes are still too few.
 The results give the domains their strict depths against the order of the list, one a pass;
 only then does the last of them pass on the small relaxed depth it was stored with, again
 against the order of the list.
 */
module LateDepth {
  import opened Schema
  import opened StoreBatch
  import opened StoreResult
  import opened NodeBatches
  import opened ShortestPaths
  import opened DepthLoop
  import opened DepthCondition
  import opened Database
  import opened StoreDb
  import opened BatchFacts
  import opened EntityStates
  import opened StoreStep
  import P = Processor
  import Q = Processing
  import S = SentPackets
  import R = Reachability

  const ROOT := "192.0.2.3"
  const SITE := "www.example.net"
  const NET := "example.net"
  const ORG := "example.org"
  const COM := "example.com"
  const EDU := "example.edu"

  /** The entities of the batch, in the order in which they turn up. */
  function BatchNames(): (keys: seq<NodeKey>)
    ensures |keys| == 6
  {
    [NodeKey("ipv4", ROOT), NodeKey("subdomain", SITE), NodeKey(ANCHOR_TYPE, NET),
     NodeKey(ANCHOR_TYPE, ORG), NodeKey(ANCHOR_TYPE, COM), NodeKey(ANCHOR_TYPE, EDU)]
  }

  function Report(i: nat): Result
    requires i < 6
  {
    Result("f", BatchNames()[i].etype, "node", BatchNames()[i].value, false, false, [], if i == 1 then NET else "", 0)
  }

  function On(i: nat): EntityRef
    requires i < 6
  {
    EntityRef(BatchNames()[i].etype, BatchNames()[i].value, if i == 1 then NET else "", 0)
  }

  function Groups(): seq<Group> {
    [Group(On(0), [Report(1)]), Group(On(2), [Report(3), Report(4)]), Group(On(3), [Report(5), Report(2)]),
     Group(On(5), [Report(3)]), Group(On(1), [Report(5)]), Group(On(4), [Report(5)])]
  }

  function LatePacket(sourceID: nat): Packet {
    Packet("m", sourceID, Groups(), [], map["f" := ""], [])
  }

  function LateRun(sourceID: nat): P.Run {
    S.SendingRun("ipv4", ROOT, "f", [], LatePacket(sourceID))
  }

  /** The syntax check leaves the names alone, gives the subdomain its domain, and nothing is blocked. */
  predicate ChecksAsUsual(rules: P.Rules) {
    forall i :: 0 <= i < 6 ==>
      var k := BatchNames()[i];
      && rules.validate(k.etype, k.value)
         == P.Accepted(k.etype, k.value, if i == 0 then "" else if i == 1 then NET else k.value)
      && !rules.blocked(k.etype, k.value)
  }

  // ------------------------------------------------------------ its packet

  lemma StringsDiffer()
    ensures "ipv4" != ANCHOR_TYPE && "subdomain" != ANCHOR_TYPE && "ipv4" != "subdomain"
    ensures NET != ORG && NET != COM && NET != EDU && ORG != COM && ORG != EDU && COM != EDU
  {
    assert "subdomain"[0] == 's' && "ipv4"[0] == 'i' && ANCHOR_TYPE[0] == 'd';
    assert NET[8] == 'n' && ORG[8] == 'o' && COM[8] == 'c' && EDU[8] == 'e';
  }

  lemma NamesDistinct()
    ensures DistinctKeys(BatchNames())
    ensures forall i :: 1 <= i < 6 ==>
              EntityKey(BatchNames()[i].etype, BatchNames()[i].value)
              != EntityKey(BatchNames()[0].etype, BatchNames()[0].value)
  {
    StringsDiffer();
    assert forall i :: 1 <= i < 6 ==> EntityKey(BatchNames()[i].etype, BatchNames()[i].value)[0] != 'i';
    assert EntityKey(BatchNames()[0].etype, BatchNames()[0].value)[0] == 'i';
  }

  lemma ReportSendable(rules: P.Rules, i: nat, j: nat)
    requires ChecksAsUsual(rules) && i < 6 && 1 <= j < 6 && i != j
    ensures S.ResultSendable(rules, "f", [], On(i), Report(j))
    ensures S.Normalised(rules, On(i).etype, On(i).value, On(i).anchor)
  {
    StringsDiffer();
    NamesDistinct();
    assert BatchNames()[j].etype != "" && BatchNames()[j].value != "";
    assert BatchNames()[i] != BatchNames()[j];
  }

  lemma LateSendable(rules: P.Rules)
    requires ChecksAsUsual(rules)
    ensures S.GroupsSendable(rules, "f", [], Groups())
  {
    ReportSendable(rules, 0, 1);
    ReportSendable(rules, 2, 3);
    ReportSendable(rules, 2, 4);
    ReportSendable(rules, 3, 5);
    ReportSendable(rules, 3, 2);
    ReportSendable(rules, 5, 3);
    ReportSendable(rules, 1, 5);
    ReportSendable(rules, 4, 5);
    NamesDistinct();
    hide ChecksAsUsual, S.ResultSendable, S.Normalised, BatchNames, P.KeyOfResult, On, Report;
    NamesDiffer();
  }

  lemma NamesDiffer()
    ensures forall i, j :: 0 <= i < j < 6 ==> On(i) != On(j) && P.KeyOfResult(Report(i)) != P.KeyOfResult(Report(j))
  {
    NamesDistinct();
    hide BatchNames;
    forall i, j | 0 <= i < j < 6 ensures On(i) != On(j) && P.KeyOfResult(Report(i)) != P.KeyOfResult(Report(j)) {
      assert BatchNames()[i] != BatchNames()[j];
    }
  }

  lemma LinkOf(sourceID: nat, i: nat, j: nat)
    requires i < 6 && j < |Groups()[i].results|
    ensures var s, r := Groups()[i].source, Groups()[i].results[j];
            Q.Found(LateRun(sourceID), R.Key(s.etype, s.value)) ==> Q.Found(LateRun(sourceID), R.Key(r.etype, r.value))
  {
    hide Q.Found, Q.Links, S.SendingRun, BatchNames;
    var s, r := Groups()[i].source, Groups()[i].results[j];
    S.ResultLinks("ipv4", ROOT, "f", [], LatePacket(sourceID), i, j);
    if Q.Found(LateRun(sourceID), R.Key(s.etype, s.value)) {
      S.FoundNext(LateRun(sourceID), R.Key(s.etype, s.value), R.Key(r.etype, r.value));
    }
  }

  lemma LateReached(sourceID: nat)
    ensures S.SourcesReached(LateRun(sourceID), Groups())
  {
    S.FoundFirst(LateRun(sourceID));
    RunSource(sourceID);
    hide Q.Found, Q.Links, LateRun;
    LinkOf(sourceID, 0, 0);
    LinkOf(sourceID, 4, 0);
    LinkOf(sourceID, 3, 0);
    LinkOf(sourceID, 2, 1);
    LinkOf(sourceID, 1, 1);
  }

  lemma RunSource(sourceID: nat)
    ensures LateRun(sourceID).etype == "ipv4" && LateRun(sourceID).value == ROOT
  {
  }

  lemma LateIsSent(rules: P.Rules, sourceID: nat)
    requires ChecksAsUsual(rules)
    ensures Q.IsPacket(rules, LateRun(sourceID), LatePacket(sourceID))
  {
    LateSendable(rules);
    LateReached(sourceID);
    hide ChecksAsUsual, S.GroupsSendable, S.SourcesReached, Q.IsPacket, S.SendingRun;
    S.PacketIsSent(rules, "ipv4", ROOT, "f", [], LatePacket(sourceID));
  }

  // ------------------------------------------------------------ its batch

  /** The `t`th result, found on the entity `src` and naming the entity `dst`. */
  function ResultAt(src: nat, dst: nat): BatchResult
    requires 1 <= dst <= 6
  {
    BatchResult(src, dst, Report(dst - 1))
  }

  function LateResults(): seq<BatchResult> {
    [ResultAt(1, 2), ResultAt(3, 4), ResultAt(3, 5), ResultAt(4, 6),
     ResultAt(4, 3), ResultAt(6, 4), ResultAt(2, 6), ResultAt(5, 6)]
  }

  function Stage(n: nat, m: nat): Batch
    requires n <= 6 && m <= 8
  {
    NodeBatch(BatchNames(), n, LateResults()[..m])
  }

  function Source(): EntityFields {
    EntityFields("ipv4", ROOT, "node")
  }

  /** One result that names an entity already in the batch, or the next one. */
  lemma PlaceNext(n: nat, m: nat, src: nat, dst: nat)
    requires 1 <= src <= n <= 6 && m < 8 && 1 <= dst <= n + 1 && dst <= 6 && dst != 2
    requires LateResults()[m] == ResultAt(src, dst) && WellFormed(Stage(n, m))
    ensures Stage(n, m).Has(src)
    ensures Place(Stage(n, m), src, Report(dst - 1)) == Stage(if dst <= n then n else n + 1, m + 1)
  {
    NamesDistinct();
    hide WellFormed, Place, NodeBatch;
    assert LateResults()[..m + 1] == LateResults()[..m] + [ResultAt(src, dst)];
    assert NamesNode(Report(dst - 1), BatchNames()[dst - 1]);
    hide BatchNames, LateResults;
    PlaceName(BatchNames(), n, LateResults()[..m], src, Report(dst - 1), dst - 1);
    BatchHas(BatchNames(), n, LateResults()[..m], src);
  }

  lemma ResolveNext(n: nat, m: nat, id: nat)
    requires 1 <= id <= n <= 6 && m <= 8 && WellFormed(Stage(n, m))
    ensures Resolve(Stage(n, m), RootKey(Stage(n, m)), On(id - 1)) == Resolved(id)
  {
    NamesDistinct();
    hide WellFormed, Resolve, NodeBatch;
    assert NodeKey(On(id - 1).etype, On(id - 1).value) == BatchNames()[id - 1];
    hide BatchNames, LateResults;
    ResolveName(BatchNames(), n, LateResults()[..m], On(id - 1), id - 1);
  }

  /** A group of one result. */
  lemma {:induction false} PlaceOne(n: nat, m: nat, gs: seq<Group>, src: nat, dst: nat)
    requires 1 <= src <= n <= 6 && m < 8 && 1 <= dst <= n + 1 && dst <= 6 && dst != 2
    requires LateResults()[m] == ResultAt(src, dst) && WellFormed(Stage(n, m))
    requires gs != [] && gs[0] == Group(On(src - 1), [Report(dst - 1)])
    ensures var n' := if dst <= n then n else n + 1;
            WellFormed(Stage(n', m + 1)) && Round(Stage(n, m), gs) == Round(Stage(n', m + 1), gs[1..])
  {
    hide WellFormed, Resolve, Round, Place, PlaceAll, Stage, LateResults;
    ResolveNext(n, m, src);
    RoundPlaces(Stage(n, m), gs, src);
    PlaceNext(n, m, src, dst);
    OneResult(Stage(n, m), src, Report(dst - 1));
  }

  /** A group of two results. */
  lemma {:induction false} PlaceTwo(n: nat, m: nat, gs: seq<Group>, src: nat, dst: nat, dst': nat)
    requires 1 <= src <= n < 6 && m < 7 && dst == n + 1 && 1 <= dst' <= n + 2 && dst' <= 6 && dst != 2 && dst' != 2
    requires LateResults()[m] == ResultAt(src, dst) && LateResults()[m + 1] == ResultAt(src, dst')
             && WellFormed(Stage(n, m))
    requires gs != [] && gs[0] == Group(On(src - 1), [Report(dst - 1), Report(dst' - 1)])
    ensures var n' := if dst' <= n + 1 then n + 1 else n + 2;
            WellFormed(Stage(n', m + 2)) && Round(Stage(n, m), gs) == Round(Stage(n', m + 2), gs[1..])
  {
    hide WellFormed, Resolve, Round, Place, PlaceAll, Stage, LateResults;
    ResolveNext(n, m, src);
    RoundPlaces(Stage(n, m), gs, src);
    PlaceNext(n, m, src, dst);
    TwoResults(Stage(n, m), src, Report(dst - 1), Report(dst' - 1));
    PlaceNext(n + 1, m + 1, src, dst');
  }

  lemma {:induction false} FirstGroup(gs: seq<Group>)
    requires gs != [] && gs[0] == Groups()[0]
    ensures NewBatch(Source()) == Stage(1, 0) && WellFormed(Stage(1, 0))
    ensures WellFormed(Stage(3, 1)) && Round(Stage(1, 0), gs) == Round(Stage(3, 1), gs[1..])
  {
    NamesDistinct();
    NewBatchWellFormed(Source());
    SourceBatch(BatchNames());
    assert LateResults()[..0] == [] && LateResults()[..1] == [ResultAt(1, 2)];
    assert BatchNames()[0] == NodeKey("ipv4", ROOT) && BatchNames()[2] == NodeKey(ANCHOR_TYPE, NET)
           && NamesNode(Report(1), BatchNames()[1]);
    hide WellFormed, Resolve, Round, Place, PlaceAll, NodeBatch;
    BatchHas(BatchNames(), 1, [], 1);
    PlaceAnchored(BatchNames(), 1, [], 1, Report(1));
    assert [] + [ResultAt(1, 2)] == [ResultAt(1, 2)];
    assert Place(Stage(1, 0), 1, Report(1)) == Stage(3, 1);
    ResolveNext(1, 0, 1);
    RoundPlaces(Stage(1, 0), gs, 1);
    OneResult(Stage(1, 0), 1, Report(1));
  }

  lemma GroupsAt()
    ensures var gs := Groups();
            && gs[1..][1..] == gs[2..] && gs[2..][1..] == gs[3..] && gs[3..][1..] == gs[4..]
               && gs[4..][1..] == gs[5..] && gs[5..][1..] == []
            && gs[1..][0] == gs[1] && gs[2..][0] == gs[2] && gs[3..][0] == gs[3] && gs[4..][0] == gs[4]
               && gs[5..][0] == gs[5]
  {
  }

  /** The build places the groups one after the other. */
  lemma LateBuild()
    ensures WellFormed(Stage(6, 8)) && Build(Source(), Groups()) == Built(Stage(6, 8))
  {
    GroupsAt();
    hide WellFormed, Round, Rounds, Stage, ResultAt, On, Report, NewBatch;
    var gs := Groups();
    FirstGroup(gs);
    PlaceTwo(3, 1, gs[1..], 3, 4, 5);
    PlaceTwo(5, 3, gs[2..], 4, 6, 3);
    PlaceOne(6, 5, gs[3..], 6, 4);
    PlaceOne(6, 6, gs[4..], 2, 6);
    PlaceOne(6, 7, gs[5..], 5, 6);
    NoneLeft(Stage(6, 8));
    OneRound(Stage(1, 0), gs, Stage(6, 8));
  }

  // ------------------------------------------------------------ its passes

  function PlainItem(src: nat, dst: nat): Item {
    Item(src, dst, false, "", NoAnchor)
  }

  /** What the loop reads of the packet's results. */
  function LateItems(): seq<Item> {
    [Item(1, 2, false, NET, AnchorAt(3)), PlainItem(3, 4), PlainItem(3, 5), PlainItem(4, 6),
     PlainItem(4, 3), PlainItem(6, 4), PlainItem(2, 6), PlainItem(5, 6)]
  }

  datatype Depths = Depths(strict: seq<nat>, relaxed: seq<nat>)

  predicate Shows(st: States, d: Depths) {
    StrictOf(st) == d.strict && RelaxedOf(st) == d.relaxed
  }

  function LowerAt(d: seq<nat>, i: nat, n: nat): seq<nat>
    requires i < |d|
  {
    d[i := Min(n, d[i])]
  }

  predicate InRangeOf(it: Item, d: Depths) {
    |d.strict| == |d.relaxed| && ItemInRange(it, |d.strict|) && !it.isProperty && !it.anchor.UnknownAnchor?
  }

  /** A step on the depths alone, for results of nodes. */
  function DepthStep(d: Depths, it: Item): (d': Depths)
    requires InRangeOf(it, d)
    ensures |d'.strict| == |d.strict| && |d'.relaxed| == |d.relaxed|
  {
    if d.strict[it.src] == UNRESOLVED then d
    else
      var s := LowerAt(d.strict, it.dst, d.strict[it.src] + 1);
      match it.anchor
      case NoAnchor => Depths(s, LowerAt(d.relaxed, it.dst, d.relaxed[it.src] + 1))
      case AnchorAt(a) =>
        var r := LowerAt(d.relaxed, a, d.relaxed[it.src] + 1);
        Depths(s, LowerAt(r, it.dst, r[a]))
      case UnknownAnchor => d
  }

  lemma DepthStepIs(st: States, d: Depths, it: Item)
    requires Shows(st, d) && InRangeOf(it, d)
    ensures |st| == |d.strict| && Shows(Step(st, it), DepthStep(d, it))
  {
    assert |StrictOf(st)| == |st|;
    var st' := Step(st, it);
    var d' := DepthStep(d, it);
    forall i | 0 <= i < |st| ensures st'[i].strict == d'.strict[i] && st'[i].relaxed == d'.relaxed[i] {
      assert StrictOf(st)[i] == d.strict[i] && RelaxedOf(st)[i] == d.relaxed[i];
      assert StrictOf(st)[it.src] == d.strict[it.src] && RelaxedOf(st)[it.src] == d.relaxed[it.src];
      assert StrictOf(st)[it.dst] == d.strict[it.dst] && RelaxedOf(st)[it.dst] == d.relaxed[it.dst];
      if it.anchor.AnchorAt? {
        assert RelaxedOf(st)[it.anchor.id] == d.relaxed[it.anchor.id];
      }
    }
  }

  /** A pass, given the depths after each of its results. */
  lemma {:induction false} PassShows(st: States, items: seq<Item>, ds: seq<Depths>)
    requires |ds| == |items| + 1 && Shows(st, ds[0])
    requires forall i :: 0 <= i < |items| ==> InRangeOf(items[i], ds[i]) && ds[i + 1] == DepthStep(ds[i], items[i])
    ensures ItemsInRange(items, |st|) && Shows(OnePass(st, items), ds[|items|])
    decreases |items|
  {
    assert |StrictOf(st)| == |st|;
    if items != [] {
      assert InRangeOf(items[0], ds[0]);
      DepthStepIs(st, ds[0], items[0]);
      assert forall i :: 0 <= i < |items| - 1 ==> items[1..][i] == items[i + 1] && ds[1..][i] == ds[i + 1];
      PassShows(Step(st, items[0]), items[1..], ds[1..]);
    }
  }

  /** The strict depths of 2, 3, 4, 5, 6 and the relaxed ones; entity 1 stays at 3. */
  function Given(s2: nat, s3: nat, s4: nat, s5: nat, s6: nat, r2: nat, r3: nat, r4: nat, r6: nat): Depths {
    Depths([0, 3, s2, s3, s4, s5, s6], [0, 3, r2, r3, r4, 0, r6])
  }

  /** The depths when the loop starts, and after each of the six passes. */
  function After(k: nat): Depths {
    var U := UNRESOLVED;
    match k
    case 0 => Given(U, U, U, U, U, U, U, U, U)
    case 1 => Given(4, U, U, U, 5, 4, 4, U, 5)
    case 2 => Given(4, U, 6, U, 5, 4, 4, 6, 5)
    case 3 => Given(4, 7, 6, U, 5, 4, 4, 6, 5)
    case 4 => Given(4, 7, 6, 8, 5, 4, 4, 5, 1)
    case 5 => Given(4, 7, 6, 8, 5, 4, 4, 2, 1)
    case _ => Given(4, 7, 6, 8, 5, 4, 3, 2, 1)
  }

  lemma {:induction false} Pass1(st: States)
    requires Shows(st, After(0))
    ensures ItemsInRange(LateItems(), |st|) && Shows(OnePass(st, LateItems()), After(1))
  {
    var U := UNRESOLVED;
    PassShows(st, LateItems(), [
      Given(U, U, U, U, U, U, U, U, U), Given(4, U, U, U, U, 4, 4, U, U), Given(4, U, U, U, U, 4, 4, U, U),
      Given(4, U, U, U, U, 4, 4, U, U), Given(4, U, U, U, U, 4, 4, U, U), Given(4, U, U, U, U, 4, 4, U, U),
      Given(4, U, U, U, U, 4, 4, U, U), Given(4, U, U, U, 5, 4, 4, U, 5), Given(4, U, U, U, 5, 4, 4, U, 5)]);
  }

  lemma {:induction false} Pass2(st: States)
    requires Shows(st, After(1))
    ensures ItemsInRange(LateItems(), |st|) && Shows(OnePass(st, LateItems()), After(2))
  {
    var U := UNRESOLVED;
    PassShows(st, LateItems(), [
      Given(4, U, U, U, 5, 4, 4, U, 5), Given(4, U, U, U, 5, 4, 4, U, 5), Given(4, U, U, U, 5, 4, 4, U, 5),
      Given(4, U, U, U, 5, 4, 4, U, 5), Given(4, U, U, U, 5, 4, 4, U, 5), Given(4, U, U, U, 5, 4, 4, U, 5),
      Given(4, U, 6, U, 5, 4, 4, 6, 5), Given(4, U, 6, U, 5, 4, 4, 6, 5), Given(4, U, 6, U, 5, 4, 4, 6, 5)]);
  }

  lemma {:induction false} Pass3(st: States)
    requires Shows(st, After(2))
    ensures ItemsInRange(LateItems(), |st|) && Shows(OnePass(st, LateItems()), After(3))
  {
    var U := UNRESOLVED;
    PassShows(st, LateItems(), [
      Given(4, U, 6, U, 5, 4, 4, 6, 5), Given(4, U, 6, U, 5, 4, 4, 6, 5), Given(4, U, 6, U, 5, 4, 4, 6, 5),
      Given(4, U, 6, U, 5, 4, 4, 6, 5), Given(4, U, 6, U, 5, 4, 4, 6, 5), Given(4, 7, 6, U, 5, 4, 4, 6, 5),
      Given(4, 7, 6, U, 5, 4, 4, 6, 5), Given(4, 7, 6, U, 5, 4, 4, 6, 5), Given(4, 7, 6, U, 5, 4, 4, 6, 5)]);
  }

  lemma {:induction false} Pass4(st: States)
    requires Shows(st, After(3))
    ensures ItemsInRange(LateItems(), |st|) && Shows(OnePass(st, LateItems()), After(4))
  {
    var U := UNRESOLVED;
    PassShows(st, LateItems(), [
      Given(4, 7, 6, U, 5, 4, 4, 6, 5), Given(4, 7, 6, U, 5, 4, 4, 6, 5), Given(4, 7, 6, U, 5, 4, 4, 5, 5),
      Given(4, 7, 6, 8, 5, 4, 4, 5, 5), Given(4, 7, 6, 8, 5, 4, 4, 5, 5), Given(4, 7, 6, 8, 5, 4, 4, 5, 5),
      Given(4, 7, 6, 8, 5, 4, 4, 5, 5), Given(4, 7, 6, 8, 5, 4, 4, 5, 5), Given(4, 7, 6, 8, 5, 4, 4, 5, 1)]);
  }

  lemma {:induction false} Pass5(st: States)
    requires Shows(st, After(4))
    ensures ItemsInRange(LateItems(), |st|) && Shows(OnePass(st, LateItems()), After(5))
  {
    var U := UNRESOLVED;
    PassShows(st, LateItems(), [
      Given(4, 7, 6, 8, 5, 4, 4, 5, 1), Given(4, 7, 6, 8, 5, 4, 4, 5, 1), Given(4, 7, 6, 8, 5, 4, 4, 5, 1),
      Given(4, 7, 6, 8, 5, 4, 4, 5, 1), Given(4, 7, 6, 8, 5, 4, 4, 5, 1), Given(4, 7, 6, 8, 5, 4, 4, 5, 1),
      Given(4, 7, 6, 8, 5, 4, 4, 2, 1), Given(4, 7, 6, 8, 5, 4, 4, 2, 1), Given(4, 7, 6, 8, 5, 4, 4, 2, 1)]);
  }

  lemma {:induction false} Pass6(st: States)
    requires Shows(st, After(5))
    ensures ItemsInRange(LateItems(), |st|) && Shows(OnePass(st, LateItems()), After(6))
  {
    var U := UNRESOLVED;
    PassShows(st, LateItems(), [
      Given(4, 7, 6, 8, 5, 4, 4, 2, 1), Given(4, 7, 6, 8, 5, 4, 4, 2, 1), Given(4, 7, 6, 8, 5, 4, 4, 2, 1),
      Given(4, 7, 6, 8, 5, 4, 4, 2, 1), Given(4, 7, 6, 8, 5, 4, 4, 2, 1), Given(4, 7, 6, 8, 5, 4, 3, 2, 1),
      Given(4, 7, 6, 8, 5, 4, 3, 2, 1), Given(4, 7, 6, 8, 5, 4, 3, 2, 1), Given(4, 7, 6, 8, 5, 4, 3, 2, 1)]);
  }

  lemma {:induction false} SixPasses(st: States)
    requires Shows(st, After(0))
    ensures |st| == 7 && ItemsInRange(LateItems(), 7) && Shows(ManyPasses(st, LateItems(), 6), After(6))
  {
    hide Step, OnePass, LateItems, After;
    assert |StrictOf(st)| == 7 by { AfterSize(0); }
    var items := LateItems();
    Pass1(st);
    var st1 := OnePass(st, items);
    Pass2(st1);
    var st2 := OnePass(st1, items);
    Pass3(st2);
    var st3 := OnePass(st2, items);
    Pass4(st3);
    var st4 := OnePass(st3, items);
    Pass5(st4);
    var st5 := OnePass(st4, items);
    Pass6(st5);
    assert ManyPasses(OnePass(st5, items), items, 0) == OnePass(st5, items);
    assert ManyPasses(st5, items, 1) == OnePass(st5, items);
    assert ManyPasses(st4, items, 2) == ManyPasses(st5, items, 1);
    assert ManyPasses(st3, items, 3) == ManyPasses(st4, items, 2);
    assert ManyPasses(st2, items, 4) == ManyPasses(st3, items, 3);
    assert ManyPasses(st1, items, 5) == ManyPasses(st2, items, 4);
  }

  lemma AfterSize(k: nat)
    ensures |After(k).strict| == 7 && |After(k).relaxed| == 7
  {
  }

  // ------------------------------------------------------------ what goes wrong, and what does not

  predicate AllLive(final: States, items: seq<Item>)
    requires ItemsInRange(items, |final|)
  {
    forall it <- items :: ItemInRange(it, |final|) && !Dead(final, it)
  }

  lemma {:induction false} AllLiveAt(final: States, items: seq<Item>)
    requires ItemsInRange(items, |final|) && AllLive(final, items)
    ensures LiveAt(final, items) == items
    decreases |items|
  {
    if items != [] {
      LiveFirst(final, items);
      assert items[0] in items && forall it <- items[1..] :: it in items;
      AllLiveAt(final, items[1..]);
    }
  }

  /** Without dead results there is nothing they could spoil. */
  lemma NoDeadHarm(st: States, items: seq<Item>, entityCount: nat)
    requires ItemsInRange(items, |st|) && Bounded(st) && |st| == entityCount + 1
    requires AllLive(ManyPasses(st, items, entityCount), items)
    ensures Live(st, items) == items && DeadHarmless(st, items)
  {
    LiveIsLiveAt(st, items, entityCount, items);
    AllLiveAt(ManyPasses(st, items, entityCount), items);
    hide Attained, IsLive;
    assert LiveEdges(st, items) == RelaxedEdges(items);
  }

  /** Every entity has its strict depth in the end, but the subdomain ends at relaxed depth 4, while a
      chain of results leads to it at cost 3 from the domain that was stored with depth 0. */
  ghost predicate IsLate(st: States, items: seq<Item>)
    requires ItemsInRange(items, |st|)
  {
    var final := ManyPasses(st, items, 6);
    && |st| == 7 && (forall v :: 1 <= v <= 6 ==> final[v].strict != UNRESOLVED)
    && final[2].relaxed == 4 && Attained(RelaxedOf(st), RelaxedEdges(items), 2, 3)
    && !Exact(RelaxedOf(st), RelaxedEdges(items), RelaxedOf(final))
    && Live(st, items) == items && DeadHarmless(st, items) && !InTime(st, items, 6) && !AtRest(final, items)
  }

  lemma LateEdges()
    ensures var es := RelaxedEdges(LateItems());
            Edge(5, 6, 1) in es && Edge(6, 4, 1) in es && Edge(4, 3, 1) in es && Edge(3, 2, 0) in es
  {
    var items := LateItems();
    assert items[7] == PlainItem(5, 6) && items[5] == PlainItem(6, 4) && items[4] == PlainItem(4, 3);
    assert Edge(5, 6, 1) in RelaxedEdge(items[7]) && Edge(6, 4, 1) in RelaxedEdge(items[5])
           && Edge(4, 3, 1) in RelaxedEdge(items[4]);
    assert RelaxedEdge(items[0])[1] == Edge(3, 2, 0);
    hide LateItems, RelaxedEdges, RelaxedEdge;
    EdgesOfItem(items, items[7]);
    EdgesOfItem(items, items[5]);
    EdgesOfItem(items, items[4]);
    EdgesOfItem(items, items[0]);
  }

  lemma {:induction false} LateChain(d: seq<nat>)
    requires |d| == 7 && d[5] == 0
    ensures Attained(d, RelaxedEdges(LateItems()), 2, 3)
  {
    LateEdges();
    hide RelaxedEdges, LateItems, Attained, IsWalk;
    var es := RelaxedEdges(LateItems());
    StartsAttained(d, es);
    WalkExtends(d, es, Edge(5, 6, 1), 0);
    WalkExtends(d, es, Edge(6, 4, 1), 1);
    WalkExtends(d, es, Edge(4, 3, 1), 2);
    WalkExtends(d, es, Edge(3, 2, 0), 3);
  }

  lemma CheaperChain(d0: seq<nat>, es: seq<Edge>, d: seq<nat>, v: nat, c: nat)
    requires Attained(d0, es, v, c) && v < |d| && c < d[v]
    ensures !Exact(d0, es, d)
  {
    var s: nat, p: seq<Edge> :| s < |d0| && IsWalk(es, s, p, v) && c == d0[s] + Cost(p);
    assert !LowerBound(d0, es, v, d[v]);
    assert !IsShortest(d0, es, v, d[v]);
  }

  lemma {:induction false} LateVerdict(st: States, items: seq<Item>)
    requires |st| == 7 && ItemsInRange(items, 7) && Bounded(st)
    requires forall v :: 1 <= v <= 6 ==> ManyPasses(st, items, 6)[v].strict != UNRESOLVED
    requires AllLive(ManyPasses(st, items, 6), items)
    requires ManyPasses(st, items, 6)[2].relaxed == 4 && Attained(RelaxedOf(st), RelaxedEdges(items), 2, 3)
    ensures IsLate(st, items)
  {
    var final := ManyPasses(st, items, 6);
    assert RelaxedOf(final)[2] == 4;
    hide ManyPasses, RelaxedEdges, AllLive, Attained, Exact, DeadHarmless, InTime, AtRest, Bounded, Live;
    CheaperChain(RelaxedOf(st), RelaxedEdges(items), RelaxedOf(final), 2, 3);
    NoDeadHarm(st, items, 6);
    RelaxedExactIff(st, items, 6);
    RestIff(st, items, 6);
  }

  lemma {:induction false} ItemsLive(final: States)
    requires |final| == 7 && forall v :: 1 <= v <= 6 ==> final[v].strict != UNRESOLVED
    ensures ItemsInRange(LateItems(), 7) && AllLive(final, LateItems())
  {
  }

  lemma {:induction false} StartIsLate(st: States)
    requires Shows(st, After(0)) && Bounded(st)
    ensures |st| == 7 && ItemsInRange(LateItems(), 7) && IsLate(st, LateItems())
  {
    var items := LateItems();
    SixPasses(st);
    assert RelaxedOf(st)[5] == After(0).relaxed[5];
    hide LateItems, ManyPasses, RelaxedEdges, AllLive, Attained, IsLate, Bounded;
    FinalDepths(ManyPasses(st, items, 6));
    LateChain(RelaxedOf(st));
    ItemsLive(ManyPasses(st, items, 6));
    LateVerdict(st, items);
  }

  lemma {:induction false} FinalDepths(final: States)
    requires Shows(final, After(6))
    ensures |final| == 7 && final[2].relaxed == 4 && forall v :: 1 <= v <= 6 ==> final[v].strict != UNRESOLVED
  {
    assert |StrictOf(final)| == 7;
    assert RelaxedOf(final)[2] == 4;
    forall v | 1 <= v <= 6 ensures final[v].strict != UNRESOLVED {
      assert StrictOf(final)[v] == After(6).strict[v];
    }
  }

  // ------------------------------------------------------------ on a database

  /** The address was found three hops out; the target's registrable domain, stored when the project
      was made, has relaxed depth 0 and no strict one; of the other names the database knows none. */
  predicate Awaits(db: Db, sourceID: nat) {
    && sourceID in db.rows && SameNode(db.rows[sourceID], "ipv4", ROOT)
    && db.rows[sourceID].strict == 3 && db.rows[sourceID].relaxed == 3 && db.rows[sourceID].anchor == None
    && (exists id :: id in db.rows && StoredDomain(db.rows[id]))
    && forall id, i :: id in db.rows && i in {1, 2, 3, 5} ==>
         !SameNode(db.rows[id], BatchNames()[i].etype, BatchNames()[i].value)
  }

  predicate StoredDomain(r: Row) {
    SameNode(r, ANCHOR_TYPE, COM) && r.strict == UNRESOLVED && r.relaxed == 0 && r.anchor == None
  }

  lemma StageItem(v: nat)
    requires 1 <= v <= 6
    ensures var b := Stage(6, 8);
            && b.rootID == 1 && b.Has(v) && |b.entities| == 6 && b.results == LateResults()
            && b.Item(v) == FreshNode(BatchNames()[v - 1]) && IsNode(b.Item(v))
            && BatchNames()[v - 1] in b.nodeIndex && b.nodeIndex[BatchNames()[v - 1]] == v
  {
    NamesDistinct();
    assert "node" != "property" by { assert "node"[0] == 'n'; }
    assert BatchNames()[..6] == BatchNames() && LateResults()[..8] == LateResults();
    IndexOfMeaning(BatchNames(), 6, v - 1);
  }

  lemma StageItemOf(src: nat, dst: nat)
    requires 1 <= src <= 6 && 2 <= dst <= 6
    ensures Stage(6, 8).Has(src) && Stage(6, 8).Has(dst)
    ensures ItemOf(Stage(6, 8), ResultAt(src, dst))
            == if dst == 2 then Item(src, 2, false, NET, AnchorAt(3)) else PlainItem(src, dst)
  {
    StageItem(src);
    StageItem(dst);
    StageItem(3);
    assert BatchNames()[2] == NodeKey(ANCHOR_TYPE, NET) && NET != "";
    assert "node" != "property" by { assert "node"[0] == 'n'; }
    hide Stage, BatchNames;
  }

  lemma StageItemAt(i: nat)
    requires i < 8
    ensures var b, r := Stage(6, 8), LateResults()[i];
            b.Has(r.sourceID) && b.Has(r.targetID) && ItemOf(b, r) == LateItems()[i]
  {
    hide Stage, Report, ItemOf;
    match i
    case 0 => StageItemOf(1, 2);
    case 1 => StageItemOf(3, 4);
    case 2 => StageItemOf(3, 5);
    case 3 => StageItemOf(4, 6);
    case 4 => StageItemOf(4, 3);
    case 5 => StageItemOf(6, 4);
    case 6 => StageItemOf(2, 6);
    case _ => StageItemOf(5, 6);
  }

  lemma ItemsAre(b: Batch, items: seq<Item>)
    requires |b.results| == |items|
    requires forall i :: 0 <= i < |items| ==>
               b.Has(b.results[i].sourceID) && b.Has(b.results[i].targetID) && ItemOf(b, b.results[i]) == items[i]
    ensures (forall r <- b.results :: b.Has(r.sourceID) && b.Has(r.targetID)) && Items(b, b.results) == items
  {
    hide ItemOf;
    forall r | r in b.results ensures b.Has(r.sourceID) && b.Has(r.targetID) {
      var i :| 0 <= i < |b.results| && b.results[i] == r;
    }
  }

  lemma StageItems()
    ensures var b := Stage(6, 8);
            && (forall r <- b.results :: b.Has(r.sourceID) && b.Has(r.targetID))
            && Items(b, b.results) == LateItems()
  {
    StageItem(1);
    forall i: nat | i < 8
      ensures var b, r := Stage(6, 8), LateResults()[i];
              b.Has(r.sourceID) && b.Has(r.targetID) && ItemOf(b, r) == LateItems()[i]
    {
      StageItemAt(i);
    }
    assert |LateResults()| == 8 && |LateItems()| == 8;
    hide Stage, LateResults, LateItems, ItemOf;
    ItemsAre(Stage(6, 8), LateItems());
  }

  /** Which rows the batch's names are found under. */
  predicate FoundAs(db: Db, sourceID: nat, v: nat, found: Option<nat>) {
    if v == 1 then found == Some(sourceID)
    else if v == 5 then found.Some? && found.value in db.rows && StoredDomain(db.rows[found.value])
    else found.None?
  }

  lemma NamesFound(db: Db, sourceID: nat, v: nat)
    requires TableOK(db) && Awaits(db, sourceID) && 1 <= v <= 6
    ensures Stage(6, 8).Has(v) && FoundAs(db, sourceID, v, Find(db, NodeProbe(Stage(6, 8), v)))
  {
    StageItem(v);
    var b := Stage(6, 8);
    FindNode(db, b, v);
    var id :| id in db.rows && StoredDomain(db.rows[id]);
    assert BatchNames()[0] == NodeKey("ipv4", ROOT) && BatchNames()[4] == NodeKey(ANCHOR_TYPE, COM);
    assert v != 1 && v != 5 ==> v - 1 in {1, 2, 3, 5};
    hide BatchNames, Stage, TableOK, Find;
  }

  lemma LoadedDepths(db: Db, sourceID: nat, v: nat)
    requires TableOK(db) && Awaits(db, sourceID) && 1 <= v <= 6
    ensures var s := InitialState(db, Stage(6, 8), sourceID, v);
            s.strict == After(0).strict[v] && s.relaxed == After(0).relaxed[v]
  {
    NamesFound(db, sourceID, v);
    StageItem(v);
    hide BatchNames, Stage, TableOK, Find;
  }

  lemma {:induction false} SameDepthsShow(st: States, st': States, d: Depths)
    requires Shows(st, d) && |st| == |st'| && forall v :: 0 <= v < |st| ==> EntityStates.SameDepths(st[v], st'[v])
    ensures Shows(st', d)
  {
  }

  lemma LoadedShow(db: Db, sourceID: nat)
    requires TableOK(db) && Awaits(db, sourceID)
    ensures Shows(InitialStates(db, Stage(6, 8), sourceID), After(0))
  {
    StageItem(1);
    hide TableOK, Stage, Find;
    var b := Stage(6, 8);
    var st := InitialStates(db, b, sourceID);
    assert InitialState(db, b, sourceID, 0) == EntityState(0, false, 0, 0, "", false);
    forall v | 1 <= v <= 6 ensures st[v].strict == After(0).strict[v] && st[v].relaxed == After(0).relaxed[v] {
      LoadedDepths(db, sourceID, v);
    }
    hide InitialState;
  }

  lemma StartDepths(db: Db, sourceID: nat)
    requires TableOK(db) && Awaits(db, sourceID) && WellFormed(Stage(6, 8))
    ensures Shows(MarkedStates(db, Stage(6, 8), sourceID), After(0)) && Bounded(MarkedStates(db, Stage(6, 8), sourceID))
  {
    hide WellFormed, Stage, InitialStates, MarkedStates, TableOK, Shows, BatchNames;
    var b := Stage(6, 8);
    LoadedShow(db, sourceID);
    MarksOnly(db, b, sourceID);
    SameDepthsShow(InitialStates(db, b, sourceID), MarkedStates(db, b, sourceID), After(0));
    ShownBounded(MarkedStates(db, b, sourceID));
  }

  lemma {:induction false} ShownBounded(st: States)
    requires Shows(st, After(0))
    ensures Bounded(st)
  {
    assert |StrictOf(st)| == 7;
    forall s | s in st ensures s.strict <= UNRESOLVED {
      var i :| 0 <= i < |st| && st[i] == s;
      assert StrictOf(st)[i] == After(0).strict[i];
    }
  }

  lemma LateBatch(db: Db, sourceID: nat) returns (b: Batch)
    requires Awaits(db, sourceID)
    ensures b == Stage(6, 8) && WellFormed(b) && PacketBatch(db, LatePacket(sourceID)) == b
  {
    assert FieldsOf(db.rows[sourceID]) == Source();
    hide Build, WellFormed, Stage, Awaits;
    LateBuild();
    b := Stage(6, 8);
  }

  ghost predicate IsLateOn(db: Db, sourceID: nat, b: Batch)
    requires WellFormed(b) && sourceID in db.rows
  {
    && (forall r <- b.results :: b.Has(r.targetID))
    && b.Has(2) && KeyOf(b.Item(2)) == NodeKey("subdomain", SITE)
    && ItemsInRange(Items(b, b.results), |b.entities| + 1) && |b.entities| == 6
    && IsLate(MarkedStates(db, b, sourceID), Items(b, b.results))
  }

  lemma StageShape()
    ensures var b := Stage(6, 8);
            && |b.entities| == 6 && b.Has(2) && KeyOf(b.Item(2)) == NodeKey("subdomain", SITE)
            && (forall r <- b.results :: b.Has(r.targetID))
            && Items(b, b.results) == LateItems()
  {
    StageItem(2);
    assert BatchNames()[1] == NodeKey("subdomain", SITE);
    hide Stage, BatchNames, LateItems, LateResults, ItemOf, ResultAt;
    StageItems();
  }

  lemma LateInRange()
    ensures ItemsInRange(LateItems(), 7)
  {
  }

  lemma StageIsLate(db: Db, sourceID: nat)
    requires TableOK(db) && Awaits(db, sourceID) && WellFormed(Stage(6, 8))
    ensures IsLateOn(db, sourceID, Stage(6, 8))
  {
    hide TableOK, WellFormed, Stage, MarkedStates, IsLate, LateItems, Shows, BatchNames, StoredDomain, Awaits;
    AwaitsRow(db, sourceID);
    StageShape();
    LateInRange();
    StartDepths(db, sourceID);
    StartIsLate(MarkedStates(db, Stage(6, 8), sourceID));
  }

  lemma AwaitsRow(db: Db, sourceID: nat)
    requires Awaits(db, sourceID)
    ensures sourceID in db.rows
  {
  }

  /** Stored on any such database, the packet's relaxed depths come out late. */
  lemma PacketIsLate(db: Db, sourceID: nat, anchorOf: AnchorFn)
    requires DbInv(db, anchorOf) && Awaits(db, sourceID)
    ensures IsLateOn(db, sourceID, PacketBatch(db, LatePacket(sourceID)))
  {
    assert TableOK(db);
    hide DbInv, TableOK, PacketBatch, WellFormed, Stage, IsLateOn, BatchNames, StoredDomain;
    var b := LateBatch(db, sourceID);
    StageIsLate(db, sourceID);
  }
}
