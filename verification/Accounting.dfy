/**
 From a module run to the execution log and back: what a packet of a dispatched run leaves in
 the database, and what no later item will run again.
 */
module Accounting {
  import opened Schema
  import opened StoreBatch
  import opened StoreResult
  import opened StoreLog
  import opened DepthLoop
  import opened Database
  import opened StoreDb
  import opened BatchFacts
  import opened EntityStates
  import opened StoreWrites
  import opened StoreStep
  import opened StoreKeeps
  import opened History
  import P = Processor
  import Q = Processing
  import D = Dispatcher

  // ------------------------------------------------------------ the processor's packets fit the repository

  /** The module's categories are plain and the syntax check's anchors are a function of type and value. */
  ghost predicate Trusted(rules: P.Rules, d: P.Run, anchorOf: AnchorFn) {
    Q.AnchorsAgree(rules, anchorOf) && Q.PlainRun(d)
  }

  lemma ProcessedGroupsFit(rules: P.Rules, d: P.Run, anchorOf: AnchorFn, p: Packet)
    requires Trusted(rules, d, anchorOf) && Q.IsPacket(rules, d, p)
    ensures GroupsFit(p.groups, anchorOf)
  {
    forall i | 0 <= i < |p.groups| ensures ResultsFit(p.groups[i].results, anchorOf) {
      forall j | 0 <= j < |p.groups[i].results| ensures ResultFits(p.groups[i].results[j], anchorOf) {
        Q.PacketEntries(rules, d, anchorOf, p, i, j);
      }
    }
  }

  // ------------------------------------------------------------ what one call adds to the log

  lemma {:induction false} FlattenHas(groups: seq<Group>, i: nat, j: nat)
    requires i < |groups| && j < |groups[i].results|
    ensures groups[i].results[j] in Flatten(groups)
    decreases |groups|
  {
    if i > 0 {
      FlattenHas(groups[1..], i - 1, j);
    }
  }

  lemma {:induction false} PayloadOrigin(rs: seq<BatchResult>, r: Result) returns (k: nat)
    requires r in Payload(rs)
    ensures k < |rs| && rs[k].result == r
    decreases |rs|
  {
    var n := |rs| - 1;
    if rs[n].result == r {
      k := n;
    } else {
      k := PayloadOrigin(rs[..n], r);
    }
  }

  /** A result of the packet is a result of the batch that is stored. */
  lemma BatchHasResult(source: EntityFields, groups: seq<Group>, i: nat, j: nat) returns (k: nat)
    requires Build(source, groups).Built? && i < |groups| && j < |groups[i].results|
    ensures k < |FinalBatch(source, groups).results|
            && FinalBatch(source, groups).results[k].result == groups[i].results[j]
  {
    BuildConserves(source, groups);
    FlattenHas(groups, i, j);
    var b := FinalBatch(source, groups);
    hide Build, FinalBatch, WellFormed;
    var r := groups[i].results[j];
    assert r in multiset(Flatten(groups));
    assert r in multiset(Payload(b.results));
    k := PayloadOrigin(b.results, r);
  }

  lemma LogsGrow(db: Db, p: Packet, blamed: string, order: seq<nat>, anchorOf: AnchorFn)
    requires DbInv(db, anchorOf) && AnchorFnOK(anchorOf) && PacketFits(db, p, anchorOf)
    requires LayerOrder(PacketBatch(db, p), order)
    ensures var w := PacketRows(db, p, order);
            var errors := StoredErrors(FieldsOf(db.rows[p.sourceID]), p, blamed);
            && w.db.logs == db.logs && w.db.tags == db.tags
            && Stored(db, p, blamed, order).logs
               == db.logs + LogRows(p, LogEntries(p, w.resolved, PacketBatch(db, p).results, errors))
  {
    PacketWritten(db, p, order, anchorOf);
    hide WellFormed, DbInv, LayerOrder, InRow, PacketBatch, PacketRows, FinalStates;
  }

  lemma ResultReports(db: Db, p: Packet, order: seq<nat>, anchorOf: AnchorFn, k: nat)
    requires DbInv(db, anchorOf) && AnchorFnOK(anchorOf) && PacketFits(db, p, anchorOf)
    requires LayerOrder(PacketBatch(db, p), order) && k < |PacketBatch(db, p).results|
    ensures var b := PacketBatch(db, p);
            Reports(p, PacketRows(db, p, order).resolved, b.results[k], p.sourceID, b.results[k].result.function_)
  {
    var b := PacketBatch(db, p);
    var w := PacketRows(db, p, order);
    ResultTargetHas(b, k);
    hide DbInv, AnchorFnOK, PacketFits, LayerOrder, PacketBatch, PacketRows, WellFormed, FinalStates, BatchIn;
    PacketWritten(db, p, order, anchorOf);
    RowHasID(b, anchorOf, FinalStates(db, b, p.sourceID), p.sourceID, db, w, b.results[k].targetID);
  }

  lemma LoggedRow(p: Packet, log: Log, e: nat, fn: string)
    requires (e, fn) in log
    ensures LogKey(e, p.moduleName, fn) in LogRows(p, log)
  {
  }

  lemma ResultIsFound(db: Db, p: Packet, order: seq<nat>, anchorOf: AnchorFn, fn: string)
    requires DbInv(db, anchorOf) && AnchorFnOK(anchorOf) && PacketFits(db, p, anchorOf)
    requires LayerOrder(PacketBatch(db, p), order)
    requires exists k :: 0 <= k < |PacketBatch(db, p).results| && PacketBatch(db, p).results[k].result.function_ == fn
    ensures IsReported(p, PacketRows(db, p, order).resolved, PacketBatch(db, p).results, p.sourceID, fn)
  {
    hide DbInv, AnchorFnOK, GroupsFit, LayerOrder, PacketBatch, PacketRows, WellFormed, Reports;
    var k :| 0 <= k < |PacketBatch(db, p).results| && PacketBatch(db, p).results[k].result.function_ == fn;
    ResultReports(db, p, order, anchorOf, k);
  }

  lemma SourceHasID(db: Db, id: nat, anchorOf: AnchorFn)
    requires DbInv(db, anchorOf) && id in db.rows
    ensures id != 0
  {
    assert RowOK(db, id, db.rows[id]);
  }

  /** A function that the packet reports in any way is logged for the packet's source. */
  lemma ReportedIsLogged(db: Db, p: Packet, blamed: string, order: seq<nat>, anchorOf: AnchorFn, fn: string)
    requires DbInv(db, anchorOf) && AnchorFnOK(anchorOf) && PacketFits(db, p, anchorOf)
    requires LayerOrder(PacketBatch(db, p), order) && fn != ""
    requires Failed(StoredErrors(FieldsOf(db.rows[p.sourceID]), p, blamed), fn) || fn in p.functionsWithoutResults
             || exists k :: 0 <= k < |PacketBatch(db, p).results|
                            && PacketBatch(db, p).results[k].result.function_ == fn
    ensures LogKey(p.sourceID, p.moduleName, fn) in Stored(db, p, blamed, order).logs
  {
    SourceHasID(db, p.sourceID, anchorOf);
    hide DbInv, AnchorFnOK, PacketFits, LayerOrder, PacketBatch, PacketRows, StoredErrors, Stored, WellFormed,
         LogEntries, Reports;
    LogsGrow(db, p, blamed, order, anchorOf);
    var b := PacketBatch(db, p);
    var w := PacketRows(db, p, order);
    var errors := StoredErrors(FieldsOf(db.rows[p.sourceID]), p, blamed);
    hide Failed, IsReported;
    if exists k :: 0 <= k < |b.results| && b.results[k].result.function_ == fn {
      ResultIsFound(db, p, order, anchorOf, fn);
    }
    LogMeaning(p, w.resolved, b.results, errors, p.sourceID, fn);
    var log := LogEntries(p, w.resolved, b.results, errors);
    assert (p.sourceID, fn) in log;
    LoggedRow(p, log, p.sourceID, fn);
    hide LogRows;
  }

  /** Whatever a run of one requested function did - results, nothing, an error, a broken contract,
      a missing function, a rejected batch - storing its packet leaves a log row for the function. */
  lemma RequestIsLogged(db: Db, db': Db, rules: P.Rules, d: P.Run, anchorOf: AnchorFn, fn: string, p: Packet,
      blamed: string, order: seq<nat>)
    requires DbInv(db, anchorOf) && Trusted(rules, d, anchorOf) && d.requested == [fn] && fn != ""
    requires Q.IsPacket(rules, d, p) && StoresTo(db, db', anchorOf, p, blamed, order)
    ensures LogKey(d.sourceID, d.moduleName, fn) in db'.logs
  {
    AnchorsAgreeFits(rules, anchorOf);
    var source := FieldsOf(db.rows[p.sourceID]);
    RequestIsStored(source, rules, d, anchorOf, fn, p, blamed);
    hide DbInv, Trusted, Build, LayerOrder, PacketFits, AnchorFnOK, StoredErrors, Stored, WellFormed;
    assert p.sourceID == d.sourceID && p.moduleName == d.moduleName;
    hide Q.IsPacket;
    ReportedIsLogged(db, p, blamed, order, anchorOf, fn);
  }

  lemma AnchorsAgreeFits(rules: P.Rules, anchorOf: AnchorFn)
    requires Q.AnchorsAgree(rules, anchorOf)
    ensures AnchorFnOK(anchorOf)
  {
  }

  /** The rejected batch blames the requested function, as its raw data names no other. */
  lemma RequestIsStored(source: EntityFields, rules: P.Rules, d: P.Run, anchorOf: AnchorFn, fn: string, p: Packet,
      blamed: string)
    requires Trusted(rules, d, anchorOf) && d.requested == [fn] && Q.IsPacket(rules, d, p) && Blames(p, blamed)
    ensures Failed(StoredErrors(source, p, blamed), fn) || fn in p.functionsWithoutResults
            || exists k :: 0 <= k < |FinalBatch(source, p.groups).results|
                           && FinalBatch(source, p.groups).results[k].result.function_ == fn
  {
    Q.RequestIsReported(rules, d, anchorOf, fn, p);
    var errors := StoredErrors(source, p, blamed);
    if fn in P.FunctionsOf(p.errors) {
      var i :| 0 <= i < |p.errors| && p.errors[i].function_ == fn;
      assert errors[i].function_ == fn;
    } else if !Build(source, p.groups).Built? {
      if p.groups == [] {
        FallbackIsEmpty(source);
        assert false;
      }
      Q.RawDataNamesRequest(rules, d, anchorOf, fn, p);
      assert errors[|p.errors|].function_ == fn;
    } else if fn !in p.functionsWithoutResults {
      var i: nat, j: nat :| i < |p.groups| && j < |p.groups[i].results| && p.groups[i].results[j].function_ == fn;
      var k := BatchHasResult(source, p.groups, i, j);
    }
  }

  // ------------------------------------------------------------ logged means not run again

  /** An item of the repository: the log rows and tags of its entity. */
  ghost predicate ItemFrom(db: Db, item: D.WorkItem) {
    && (forall mf :: mf in item.completed <==> LogKey(item.entityID, mf.moduleName, mf.function_) in db.logs)
    && forall t :: t in item.tags <==> (item.entityID, t) in db.tags
  }

  lemma {:induction false} LogsPersist(h: seq<Db>, etype: string, value: string, anchorOf: AnchorFn, i: nat, j: nat,
      key: LogKey)
    requires IsHistory(h, etype, value, anchorOf) && AnchorFnOK(anchorOf) && i <= j < |h| && key in h[i].logs
    ensures key in h[j].logs
    decreases j
  {
    hide DbInv, AnchorFnOK, Stored, PacketFits, PacketBatch, LayerOrder, InitialDb, WellFormed, StoredErrors;
    if i < j {
      LogsPersist(h, etype, value, anchorOf, i, j - 1, key);
      HistoryInv(h, etype, value, anchorOf, j - 1);
      if StoreStepTo(h[j - 1], h[j], anchorOf) {
        var p: Packet, blamed: string, order: seq<nat> :| StoresTo(h[j - 1], h[j], anchorOf, p, blamed, order);
        LogsGrow(h[j - 1], p, blamed, order, anchorOf);
      }
    }
  }

  /** Once a dispatched run's packet is stored, no item built later runs that function on that entity. */
  lemma NeverRunAgain(
    h: seq<Db>, etype: string, value: string, anchorOf: AnchorFn, i: nat, j: nat,
    rules: P.Rules, d: P.Run, fn: string, p: Packet, blamed: string, order: seq<nat>,
    item: D.WorkItem, index: D.Index, limits: D.Limits)
    requires IsHistory(h, etype, value, anchorOf) && i < j < |h|
    requires Trusted(rules, d, anchorOf) && d.requested == [fn] && fn != "" && Q.IsPacket(rules, d, p)
    requires StoresTo(h[i], h[i + 1], anchorOf, p, blamed, order)
    requires ItemFrom(h[j], item) && item.entityID == d.sourceID
    ensures !D.WouldRun(item, index, limits, D.ModuleFunction(d.moduleName, fn))
  {
    AnchorsAgreeFits(rules, anchorOf);
    hide IsHistory, Trusted, StoresTo, AnchorFnOK, DbInv, Q.IsPacket;
    HistoryInv(h, etype, value, anchorOf, i);
    RequestIsLogged(h[i], h[i + 1], rules, d, anchorOf, fn, p, blamed, order);
    LogsPersist(h, etype, value, anchorOf, i + 1, j, LogKey(d.sourceID, d.moduleName, fn));
  }
}
