/**
 A history that leads to the late packet: a new project on a subdomain, whose registrable domain
 is stored with relaxed depth 0, three runs that each find an address one hop further out, and
 then a run on the last of them.
 */
module LateHistory {
  import opened Schema
  import opened StoreBatch
  import opened NodeBatches
  import opened Database
  import opened StoreDb
  import opened BatchFacts
  import opened StoreStep
  import opened History
  import opened HopSteps
  import DepthLoop
  import L = LateDepth
  import P = Processor
  import Q = Processing

  const HOME := "www.example.com"
  const FIRST := "192.0.2.1"
  const SECOND := "192.0.2.2"

  function AddressKey(value: string): NodeKey {
    NodeKey("ipv4", value)
  }

  function FirstHop(): Hop { Hop(NodeKey("subdomain", HOME), L.COM, AddressKey(FIRST)) }

  function SecondHop(): Hop { Hop(AddressKey(FIRST), "", AddressKey(SECOND)) }

  function ThirdHop(): Hop { Hop(AddressKey(SECOND), "", AddressKey(L.ROOT)) }

  /** The syntax check leaves the names alone, gives the subdomain its domain, and nothing is blocked. */
  predicate AllCheckAsUsual(rules: P.Rules) {
    && L.ChecksAsUsual(rules)
    && rules.validate("subdomain", HOME) == P.Accepted("subdomain", HOME, L.COM)
    && rules.validate("ipv4", FIRST) == P.Accepted("ipv4", FIRST, "") && !rules.blocked("ipv4", FIRST)
    && rules.validate("ipv4", SECOND) == P.Accepted("ipv4", SECOND, "") && !rules.blocked("ipv4", SECOND)
  }

  lemma StringsDiffer()
    ensures "ipv4" != ANCHOR_TYPE && "subdomain" != ANCHOR_TYPE && "ipv4" != "subdomain"
    ensures FIRST != SECOND && FIRST != L.ROOT && SECOND != L.ROOT && HOME != L.SITE
  {
    assert "subdomain"[0] == 's' && "ipv4"[0] == 'i' && ANCHOR_TYPE[0] == 'd';
    assert FIRST[8] == '1' && SECOND[8] == '2' && L.ROOT[8] == '3';
    assert HOME[12] == 'c' && L.SITE[12] == 'n';
  }

  lemma HopsCheck(rules: P.Rules)
    requires AllCheckAsUsual(rules)
    ensures ChecksAsUsual(rules, FirstHop()) && ChecksAsUsual(rules, SecondHop()) && ChecksAsUsual(rules, ThirdHop())
  {
    StringsDiffer();
    assert L.BatchNames()[0] == AddressKey(L.ROOT);
    assert rules.validate("ipv4", L.ROOT) == P.Accepted("ipv4", L.ROOT, "") && !rules.blocked("ipv4", L.ROOT);
  }

  lemma HomeAnchors(rules: P.Rules, anchorOf: AnchorFn)
    requires AllCheckAsUsual(rules) && Q.AnchorsAgree(rules, anchorOf)
    ensures AnchorFnOK(anchorOf) && anchorOf("subdomain", HOME) == L.COM && anchorOf("subdomain", L.SITE) == L.NET
    ensures anchorOf("ipv4", FIRST) == "" && anchorOf("ipv4", SECOND) == "" && anchorOf("ipv4", L.ROOT) == ""
  {
    StringsDiffer();
    assert L.BatchNames()[0] == AddressKey(L.ROOT) && L.BatchNames()[1] == NodeKey("subdomain", L.SITE);
    assert rules.validate("ipv4", L.ROOT) == P.Accepted("ipv4", L.ROOT, "");
    assert rules.validate("subdomain", L.SITE) == P.Accepted("subdomain", L.SITE, L.NET);
    assert rules.validate("subdomain", HOME).Accepted? && rules.validate("ipv4", FIRST).Accepted?
           && rules.validate("ipv4", SECOND).Accepted?;
  }

  // ------------------------------------------------------------ the rows after each run

  function DomainRow(): Row {
    Row(ANCHOR_TYPE, L.COM, "node", None, true, DepthLoop.UNRESOLVED, 0, None, None)
  }

  function TargetRow(): Row {
    Row("subdomain", HOME, "node", None, false, 0, 0, None, Some(1))
  }

  function AddressRow(value: string, depth: nat): Row {
    Row("ipv4", value, "node", Some(false), false, depth, depth, None, None)
  }

  function Rows(k: nat): map<nat, Row> {
    match k
    case 0 => map[1 := DomainRow(), 2 := TargetRow()]
    case 1 => map[1 := DomainRow(), 2 := TargetRow(), 3 := AddressRow(FIRST, 1)]
    case 2 => map[1 := DomainRow(), 2 := TargetRow(), 3 := AddressRow(FIRST, 1), 4 := AddressRow(SECOND, 2)]
    case _ => map[1 := DomainRow(), 2 := TargetRow(), 3 := AddressRow(FIRST, 1), 4 := AddressRow(SECOND, 2),
              5 := AddressRow(L.ROOT, 3)]
  }

  predicate HasRows(db: Db, k: nat) {
    db.rows == Rows(k) && db.nextID == 3 + k
  }

  lemma NewProject()
    ensures HasRows(InitialDb("subdomain", HOME, L.COM), 0)
  {
    assert L.COM != "";
  }

  lemma FirstStart(db: Db)
    requires HasRows(db, 0)
    ensures StoredAt(db, 2, FirstHop(), 0, 0) && Unknown(db, AddressKey(FIRST))
  {
    StringsDiffer();
  }

  lemma FirstStep(db: Db, anchorOf: AnchorFn) returns (db': Db)
    requires TableOK(db) && HasRows(db, 0) && anchorOf("ipv4", FIRST) == ""
    ensures StoresTo(db, db', anchorOf, HopPacket(FirstHop(), 2), "f", []) && HasRows(db', 1)
  {
    FirstStart(db);
    assert Rows(1) == Rows(0)[3 := AddressRow(FIRST, 1)];
    hide Rows, TableOK, StoredAt, Unknown, StoresTo, Stored, LayerOrder, PacketBatch;
    HopStored(db, 2, FirstHop(), 0, 0, anchorOf);
    db' := Stored(db, HopPacket(FirstHop(), 2), "f", []);
  }

  lemma SecondStart(db: Db)
    requires HasRows(db, 1)
    ensures StoredAt(db, 3, SecondHop(), 1, 1) && Unknown(db, AddressKey(SECOND))
  {
    StringsDiffer();
  }

  lemma SecondStep(db: Db, anchorOf: AnchorFn) returns (db': Db)
    requires TableOK(db) && HasRows(db, 1) && anchorOf("ipv4", SECOND) == ""
    ensures StoresTo(db, db', anchorOf, HopPacket(SecondHop(), 3), "f", []) && HasRows(db', 2)
  {
    SecondStart(db);
    assert Rows(2) == Rows(1)[4 := AddressRow(SECOND, 2)];
    hide Rows, TableOK, StoredAt, Unknown, StoresTo, Stored, LayerOrder, PacketBatch;
    HopStored(db, 3, SecondHop(), 1, 1, anchorOf);
    db' := Stored(db, HopPacket(SecondHop(), 3), "f", []);
  }

  lemma ThirdStart(db: Db)
    requires HasRows(db, 2)
    ensures StoredAt(db, 4, ThirdHop(), 2, 2) && Unknown(db, AddressKey(L.ROOT))
  {
    StringsDiffer();
  }

  lemma ThirdStep(db: Db, anchorOf: AnchorFn) returns (db': Db)
    requires TableOK(db) && HasRows(db, 2) && anchorOf("ipv4", L.ROOT) == ""
    ensures StoresTo(db, db', anchorOf, HopPacket(ThirdHop(), 4), "f", []) && HasRows(db', 3)
  {
    ThirdStart(db);
    assert Rows(3) == Rows(2)[5 := AddressRow(L.ROOT, 3)];
    hide Rows, TableOK, StoredAt, Unknown, StoresTo, Stored, LayerOrder, PacketBatch;
    HopStored(db, 4, ThirdHop(), 2, 2, anchorOf);
    db' := Stored(db, HopPacket(ThirdHop(), 4), "f", []);
  }

  /** After the third run the database awaits the late packet. */
  lemma ThenAwaits(db: Db)
    requires HasRows(db, 3)
    ensures L.Awaits(db, 5)
  {
    StringsDiffer();
    L.StringsDiffer();
    assert L.BatchNames()[1] == NodeKey("subdomain", L.SITE) && L.BatchNames()[2].etype == ANCHOR_TYPE
           && L.BatchNames()[2].value == L.NET;
    assert L.BatchNames()[3] == NodeKey(ANCHOR_TYPE, L.ORG) && L.BatchNames()[5] == NodeKey(ANCHOR_TYPE, L.EDU);
    assert 1 in db.rows && L.StoredDomain(db.rows[1]);
    hide L.BatchNames;
  }

  // ------------------------------------------------------------ the history

  ghost predicate ThreeStored(h: seq<Db>, rules: P.Rules, anchorOf: AnchorFn) {
    && |h| == 4 && IsHistory(h, "subdomain", HOME, anchorOf)
    && (forall k :: 0 <= k < 3 ==> SentAndStored(h[k], h[k + 1], rules, anchorOf, HopAt(k), k + 2))
  }

  function HopAt(k: nat): Hop {
    if k == 0 then FirstHop() else if k == 1 then SecondHop() else ThirdHop()
  }

  /** The packet is what the processor makes of the run, and what is stored. */
  ghost predicate SentAndStored(db: Db, db': Db, rules: P.Rules, anchorOf: AnchorFn, hop: Hop, id: nat) {
    Q.IsPacket(rules, HopRun(hop, id), HopPacket(hop, id)) && StoresTo(db, db', anchorOf, HopPacket(hop, id), "f", [])
  }

  lemma StoredNext(h: seq<Db>, db': Db, anchorOf: AnchorFn, p: Packet)
    requires IsHistory(h, "subdomain", HOME, anchorOf) && StoresTo(h[|h| - 1], db', anchorOf, p, "f", [])
    ensures IsHistory(h + [db'], "subdomain", HOME, anchorOf)
  {
    hide StoresTo, ScopeStepTo, InitialDb;
    assert StoreStepTo(h[|h| - 1], db', anchorOf);
    hide StoreStepTo;
    var h' := h + [db'];
    forall i | 0 <= i < |h'| - 1 ensures StoreStepTo(h'[i], h'[i + 1], anchorOf) || ScopeStepTo(h'[i], h'[i + 1]) {
      if i < |h| - 1 {
        assert h'[i] == h[i] && h'[i + 1] == h[i + 1];
      }
    }
  }

  lemma TablesOK(h: seq<Db>, anchorOf: AnchorFn)
    requires IsHistory(h, "subdomain", HOME, anchorOf) && AnchorFnOK(anchorOf)
    ensures TableOK(h[|h| - 1])
  {
    HistoryInv(h, "subdomain", HOME, anchorOf, |h| - 1);
  }

  lemma HopChecks(rules: P.Rules, k: nat)
    requires AllCheckAsUsual(rules) && k < 3
    ensures ChecksAsUsual(rules, HopAt(k))
  {
    HopsCheck(rules);
    hide AllCheckAsUsual, ChecksAsUsual, FirstHop, SecondHop, ThirdHop;
  }

  lemma HopsSent(rules: P.Rules)
    requires AllCheckAsUsual(rules)
    ensures forall k :: 0 <= k < 3 ==> Q.IsPacket(rules, HopRun(HopAt(k), k + 2), HopPacket(HopAt(k), k + 2))
  {
    hide *;
    forall k: nat | k < 3 ensures Q.IsPacket(rules, HopRun(HopAt(k), k + 2), HopPacket(HopAt(k), k + 2)) {
      HopChecks(rules, k);
      HopIsSent(rules, HopAt(k), k + 2);
    }
  }

  lemma Stores(anchorOf: AnchorFn) returns (h: seq<Db>)
    requires AnchorFnOK(anchorOf) && anchorOf("subdomain", HOME) == L.COM
    requires anchorOf("ipv4", FIRST) == "" && anchorOf("ipv4", SECOND) == "" && anchorOf("ipv4", L.ROOT) == ""
    ensures |h| == 4 && IsHistory(h, "subdomain", HOME, anchorOf) && HasRows(h[3], 3)
    ensures forall k :: 0 <= k < 3 ==> StoresTo(h[k], h[k + 1], anchorOf, HopPacket(HopAt(k), k + 2), "f", [])
  {
    NewProject();
    var h0 := [InitialDb("subdomain", HOME, L.COM)];
    hide StoresTo, TableOK, AnchorFnOK, HasRows, HopPacket, FirstHop, SecondHop, ThirdHop, InitialDb;
    assert IsHistory(h0, "subdomain", HOME, anchorOf);
    hide IsHistory;
    TablesOK(h0, anchorOf);
    var db1 := FirstStep(h0[0], anchorOf);
    StoredNext(h0, db1, anchorOf, HopPacket(FirstHop(), 2));
    var h1 := h0 + [db1];
    TablesOK(h1, anchorOf);
    var db2 := SecondStep(db1, anchorOf);
    StoredNext(h1, db2, anchorOf, HopPacket(SecondHop(), 3));
    var h2 := h1 + [db2];
    TablesOK(h2, anchorOf);
    var db3 := ThirdStep(db2, anchorOf);
    StoredNext(h2, db3, anchorOf, HopPacket(ThirdHop(), 4));
    h := h2 + [db3];
  }

  lemma ThreeRuns(rules: P.Rules, anchorOf: AnchorFn) returns (h: seq<Db>)
    requires AllCheckAsUsual(rules) && Q.AnchorsAgree(rules, anchorOf)
    ensures ThreeStored(h, rules, anchorOf) && L.Awaits(h[3], 5)
  {
    HomeAnchors(rules, anchorOf);
    HopsSent(rules);
    hide AllCheckAsUsual, Q.AnchorsAgree, Q.IsPacket, StoresTo, AnchorFnOK, IsHistory, HasRows, L.Awaits, HopPacket,
         HopRun, HopAt;
    h := Stores(anchorOf);
    ThenAwaits(h[3]);
  }

  lemma LateFits(anchorOf: AnchorFn)
    requires AnchorFnOK(anchorOf) && anchorOf("subdomain", L.SITE) == L.NET
    ensures GroupsFit(L.Groups(), anchorOf)
  {
    assert L.BatchNames()[1] == NodeKey("subdomain", L.SITE);
    assert "property" != "node" by { assert "property"[0] == 'p'; }
    forall i | 1 <= i < 6 ensures ResultFits(L.Report(i), anchorOf) {
      assert i > 1 ==> L.BatchNames()[i].etype == ANCHOR_TYPE;
    }
    hide ResultFits, L.Report, L.BatchNames;
  }

  /** There is a history of runs, every packet of it sent by the processor, whose last packet has no
      dead result and still gets an inexact relaxed depth: the |entities| passes end too early. */
  lemma RunIsLate(rules: P.Rules, anchorOf: AnchorFn) returns (h: seq<Db>)
    requires AllCheckAsUsual(rules) && Q.AnchorsAgree(rules, anchorOf)
    ensures ThreeStored(h, rules, anchorOf) && 5 in h[3].rows
    ensures var p := L.LatePacket(5);
            Q.IsPacket(rules, L.LateRun(5), p) && PacketFits(h[3], p, anchorOf)
                && L.IsLateOn(h[3], 5, PacketBatch(h[3], p))
  {
    HomeAnchors(rules, anchorOf);
    LateFits(anchorOf);
    h := ThreeRuns(rules, anchorOf);
    assert L.ChecksAsUsual(rules);
    hide AllCheckAsUsual, Q.AnchorsAgree, Q.IsPacket, AnchorFnOK, L.ChecksAsUsual, ThreeStored, GroupsFit, L.IsLateOn,
         PacketBatch;
    LastInv(h, rules, anchorOf);
    L.LateIsSent(rules, 5);
    L.PacketIsLate(h[3], 5, anchorOf);
  }

  lemma LastInv(h: seq<Db>, rules: P.Rules, anchorOf: AnchorFn)
    requires ThreeStored(h, rules, anchorOf) && AnchorFnOK(anchorOf)
    ensures |h| == 4 && DbInv(h[3], anchorOf)
  {
    HistoryInv(h, "subdomain", HOME, anchorOf, 3);
  }
}
