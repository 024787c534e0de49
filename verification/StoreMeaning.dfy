/**
 What one committed `Store` call adds to the tables of relations, tags and logs, told from the
 packet's results and the rows they were returned under.
 */
module StoreMeaning {
  import opened Schema
  import opened StoreBatch
  import opened StoreResult
  import opened StoreLog
  import opened DepthLoop
  import opened Database
  import opened StoreDb
  import opened BatchFacts
  import opened EntityStates
  import opened StoreWrites
  import opened StoreStep
  import opened StoreKeeps
  import opened StoreCall

  /** The row under which the `i`th result's source entity was stored. */
  ghost function SourceRow(db: Db, p: Packet, order: seq<nat>, i: nat): nat
    requires p.sourceID in db.rows && LayerOrder(PacketBatch(db, p), order) && i < |PacketBatch(db, p).results|
  {
    var w, r := PacketRows(db, p, order), PacketBatch(db, p).results[i];
    if r.sourceID in w.resolved then w.resolved[r.sourceID] else 0
  }

  /** A source row bears the name of the entity that the result hangs on; the packet's own source
      keeps its row. */
  lemma SourceRowMeaning(db: Db, p: Packet, blamed: string, order: seq<nat>, anchorOf: AnchorFn, i: nat)
    requires DbInv(db, anchorOf) && AnchorFnOK(anchorOf) && PacketFits(db, p, anchorOf)
    requires LayerOrder(PacketBatch(db, p), order) && i < |PacketBatch(db, p).results|
    ensures var b := PacketBatch(db, p);
            var src, db' := SourceRow(db, p, order, i), Stored(db, p, blamed, order);
            && b.Has(b.results[i].sourceID) && src in db'.rows && src != 0
            && b.results[i].sourceID in PacketRows(db, p, order).resolved
            && db'.rows[src].etype == b.Item(b.results[i].sourceID).fields.etype
            && db'.rows[src].value == b.Item(b.results[i].sourceID).fields.value
            && (b.results[i].sourceID == b.rootID ==> src == p.sourceID)
  {
    var b, w := PacketBatch(db, p), PacketRows(db, p, order);
    assert ResultOK(b, b.results[i]) && Stored(db, p, blamed, order).rows == w.db.rows;
    hide DbInv, AnchorFnOK, PacketFits, LayerOrder, PacketBatch, PacketRows, WellFormed, FinalStates, BatchIn, Stored;
    PacketWritten(db, p, order, anchorOf);
    var st := FinalStates(db, b, p.sourceID);
    RowHasID(b, anchorOf, st, p.sourceID, db, w, b.results[i].sourceID);
    InRowMatches(b, anchorOf, st, p.sourceID, db, w, b.results[i].sourceID);
  }

  /** The rows that the call returns, one for each result. */
  ghost function Targets(db: Db, p: Packet, order: seq<nat>): seq<nat>
    requires p.sourceID in db.rows && LayerOrder(PacketBatch(db, p), order)
  {
    TargetRows(PacketBatch(db, p).results, PacketRows(db, p, order).resolved)
  }

  lemma RowsOfResults(db: Db, p: Packet, blamed: string, order: seq<nat>, anchorOf: AnchorFn)
    requires DbInv(db, anchorOf) && AnchorFnOK(anchorOf) && PacketFits(db, p, anchorOf)
    requires LayerOrder(PacketBatch(db, p), order)
    ensures var results, w := PacketBatch(db, p).results, PacketRows(db, p, order);
            && |Targets(db, p, order)| == |results|
            && forall i :: 0 <= i < |results| ==>
                 && results[i].sourceID in w.resolved
                    && w.resolved[results[i].sourceID] == SourceRow(db, p, order, i) != 0
                 && results[i].targetID in w.resolved
                    && w.resolved[results[i].targetID] == Targets(db, p, order)[i] != 0
  {
    var results, w := PacketBatch(db, p).results, PacketRows(db, p, order);
    forall i | 0 <= i < |results|
      ensures results[i].targetID in w.resolved && w.resolved[results[i].targetID] != 0
      ensures results[i].sourceID in w.resolved && w.resolved[results[i].sourceID] != 0
    {
      TargetHasRow(db, p, blamed, order, anchorOf, i);
      SourceRowMeaning(db, p, blamed, order, anchorOf, i);
    }
    hide DbInv, AnchorFnOK, PacketFits, LayerOrder, PacketBatch, PacketRows, Stored;
    AllTargets(results, w.resolved);
  }

  // ------------------------------------------------------------ tags

  /** The `i`th result puts the tag on the row that it was returned under. */
  predicate TagsRow(results: seq<BatchResult>, targets: seq<nat>, i: nat, id: nat, tag: string) {
    i < |results| && i < |targets| && id == targets[i] && tag in results[i].result.tags && tag != ""
  }

  lemma {:induction false} TagPairs(results: seq<BatchResult>, resolved: map<nat, nat>, targets: seq<nat>, id: nat,
      tag: string)
    requires |targets| == |results|
    requires forall i :: 0 <= i < |results| ==>
               results[i].targetID in resolved && resolved[results[i].targetID] == targets[i]
    ensures (id, tag) in TagsOf(results, resolved) <==> exists i: nat :: TagsRow(results, targets, i, id, tag)
  {
    if (id, tag) in TagsOf(results, resolved) {
      var r, t :| r in results && r.targetID in resolved && t in r.result.tags && t != ""
          && (resolved[r.targetID], t) == (id, tag);
      var i: nat :| i < |results| && results[i] == r;
      assert TagsRow(results, targets, i, id, tag);
    }
  }

  /** Tags are on the row of the entity that a result found, and nowhere else. */
  lemma StoredTagsMeaning(db: Db, p: Packet, blamed: string, order: seq<nat>, anchorOf: AnchorFn, id: nat, tag: string)
    requires DbInv(db, anchorOf) && AnchorFnOK(anchorOf) && PacketFits(db, p, anchorOf)
    requires LayerOrder(PacketBatch(db, p), order)
    ensures (id, tag) in Stored(db, p, blamed, order).tags
            <==> (id, tag) in db.tags
                 || exists i: nat :: TagsRow(PacketBatch(db, p).results, Targets(db, p, order), i, id, tag)
  {
    var results, w := PacketBatch(db, p).results, PacketRows(db, p, order);
    RowsOfResults(db, p, blamed, order, anchorOf);
    RowsAlone(db, p, blamed, order, anchorOf);
    TagPairs(results, w.resolved, Targets(db, p, order), id, tag);
    hide DbInv, AnchorFnOK, PacketFits, LayerOrder, PacketBatch, PacketRows, Targets, TagsRow, TagsOf, RelationsOf,
         LogRows, LogEntries, StoredErrors, WellFormed;
  }

  // ------------------------------------------------------------ relations

  ghost predicate Relates(db: Db, p: Packet, order: seq<nat>, i: nat, s: nat, t: nat)
    requires p.sourceID in db.rows && LayerOrder(PacketBatch(db, p), order)
  {
    && i < |PacketBatch(db, p).results| && i < |Targets(db, p, order)|
    && s == SourceRow(db, p, order, i) && t == Targets(db, p, order)[i] && s != t
  }

  lemma {:induction false} RelationPairs(results: seq<BatchResult>, resolved: map<nat, nat>, s: nat, t: nat)
    requires forall i :: 0 <= i < |results| ==> results[i].sourceID in resolved && results[i].targetID in resolved
    ensures (s, t) in RelationsOf(results, resolved)
            <==> exists i: nat :: i < |results| && RelatesAt(results, resolved, i, s, t)
  {
    if (s, t) in RelationsOf(results, resolved) {
      var r :| r in results && r.sourceID in resolved && r.targetID in resolved
          && resolved[r.sourceID] != resolved[r.targetID] && (resolved[r.sourceID], resolved[r.targetID]) == (s, t);
      var i: nat :| i < |results| && results[i] == r;
      assert RelatesAt(results, resolved, i, s, t);
    }
    forall i: nat | i < |results| && RelatesAt(results, resolved, i, s, t)
      ensures (s, t) in RelationsOf(results, resolved)
    {
      assert results[i] in results;
    }
  }

  ghost predicate RelatesAt(results: seq<BatchResult>, resolved: map<nat, nat>, i: nat, s: nat, t: nat)
    requires i < |results| && results[i].sourceID in resolved && results[i].targetID in resolved
  {
    s == resolved[results[i].sourceID] && t == resolved[results[i].targetID] && s != t
  }

  lemma RelatesSame(db: Db, p: Packet, blamed: string, order: seq<nat>, anchorOf: AnchorFn, i: nat, s: nat, t: nat)
    requires DbInv(db, anchorOf) && AnchorFnOK(anchorOf) && PacketFits(db, p, anchorOf)
    requires LayerOrder(PacketBatch(db, p), order) && i < |PacketBatch(db, p).results|
    ensures var results, resolved := PacketBatch(db, p).results, PacketRows(db, p, order).resolved;
            && results[i].sourceID in resolved && results[i].targetID in resolved
            && (Relates(db, p, order, i, s, t) <==> RelatesAt(results, resolved, i, s, t))
  {
    RowsOfResults(db, p, blamed, order, anchorOf);
    hide DbInv, AnchorFnOK, PacketFits, LayerOrder, PacketBatch, PacketRows, Targets, SourceRow, WellFormed, Stored;
  }

  lemma RelatesMeaning(db: Db, p: Packet, blamed: string, order: seq<nat>, anchorOf: AnchorFn, s: nat, t: nat)
    requires DbInv(db, anchorOf) && AnchorFnOK(anchorOf) && PacketFits(db, p, anchorOf)
    requires LayerOrder(PacketBatch(db, p), order)
    ensures (s, t) in RelationsOf(PacketBatch(db, p).results, PacketRows(db, p, order).resolved)
            <==> exists i: nat :: Relates(db, p, order, i, s, t)
  {
    var results, resolved := PacketBatch(db, p).results, PacketRows(db, p, order).resolved;
    forall i: nat | i < |results|
      ensures results[i].sourceID in resolved && results[i].targetID in resolved
      ensures Relates(db, p, order, i, s, t) <==> RelatesAt(results, resolved, i, s, t)
    {
      RelatesSame(db, p, blamed, order, anchorOf, i, s, t);
    }
    assert forall i: nat :: Relates(db, p, order, i, s, t) ==> i < |results|;
    hide DbInv, AnchorFnOK, PacketFits, LayerOrder, PacketBatch, PacketRows, Relates, WellFormed, RelationsOf;
    RelationPairs(results, resolved, s, t);
  }

  /** Relations lead from the row of the entity that a result hangs on to the row of the entity it
      found, unless they are one, and nowhere else. */
  lemma StoredRelationsMeaning(db: Db, p: Packet, blamed: string, order: seq<nat>, anchorOf: AnchorFn, s: nat, t: nat)
    requires DbInv(db, anchorOf) && AnchorFnOK(anchorOf) && PacketFits(db, p, anchorOf)
    requires LayerOrder(PacketBatch(db, p), order)
    ensures (s, t) in Stored(db, p, blamed, order).relations
            <==> (s, t) in db.relations || exists i: nat :: Relates(db, p, order, i, s, t)
  {
    RowsAlone(db, p, blamed, order, anchorOf);
    RelatesMeaning(db, p, blamed, order, anchorOf, s, t);
    hide DbInv, AnchorFnOK, PacketFits, LayerOrder, PacketBatch, PacketRows, TagsOf, RelationsOf, Relates,
         LogRows, LogEntries, StoredErrors, WellFormed;
  }

  // ------------------------------------------------------------ the execution log

  /** The `i`th result is one of the function, and `e` is the packet's source, the result's source,
      or the target of a result that counts as applied. */
  ghost predicate ResultLogs(db: Db, p: Packet, order: seq<nat>, i: nat, e: nat, fn: string)
    requires p.sourceID in db.rows && LayerOrder(PacketBatch(db, p), order)
  {
    && i < |PacketBatch(db, p).results| && i < |Targets(db, p, order)|
    && var r := PacketBatch(db, p).results[i].result;
       && r.function_ == fn
       && (e == p.sourceID || e == SourceRow(db, p, order, i) || (r.applied && e == Targets(db, p, order)[i]))
  }

  ghost predicate HasResult(db: Db, p: Packet, order: seq<nat>, e: nat, fn: string)
    requires p.sourceID in db.rows && LayerOrder(PacketBatch(db, p), order)
  {
    exists i: nat :: ResultLogs(db, p, order, i, e, fn)
  }

  /** The packet reports an error of the function, or is rejected and blames it. */
  ghost predicate HasError(db: Db, p: Packet, blamed: string, fn: string)
    requires p.sourceID in db.rows
  {
    || (exists i :: 0 <= i < |p.errors| && p.errors[i].function_ == fn)
    || (!Build(FieldsOf(db.rows[p.sourceID]), p.groups).Built? && fn == blamed)
  }

  lemma ErrorMeaning(db: Db, p: Packet, blamed: string, fn: string)
    requires p.sourceID in db.rows
    ensures Failed(StoredErrors(FieldsOf(db.rows[p.sourceID]), p, blamed), fn) <==> HasError(db, p, blamed, fn)
  {
    hide Build;
    var errors := StoredErrors(FieldsOf(db.rows[p.sourceID]), p, blamed);
    assert forall i :: 0 <= i < |p.errors| ==> errors[i] == p.errors[i];
    if !Build(FieldsOf(db.rows[p.sourceID]), p.groups).Built? {
      assert errors[|p.errors|].function_ == blamed;
    }
  }

  lemma ReportsAt(db: Db, p: Packet, blamed: string, order: seq<nat>, anchorOf: AnchorFn, i: nat, e: nat, fn: string)
    requires DbInv(db, anchorOf) && AnchorFnOK(anchorOf) && PacketFits(db, p, anchorOf)
    requires LayerOrder(PacketBatch(db, p), order) && i < |PacketBatch(db, p).results|
    ensures Reports(p, PacketRows(db, p, order).resolved, PacketBatch(db, p).results[i], e, fn)
            <==> ResultLogs(db, p, order, i, e, fn)
  {
    RowsOfResults(db, p, blamed, order, anchorOf);
    hide DbInv, AnchorFnOK, PacketFits, LayerOrder, PacketBatch, PacketRows, Targets, SourceRow, WellFormed, Stored;
  }

  lemma ReportMeaning(db: Db, p: Packet, blamed: string, order: seq<nat>, anchorOf: AnchorFn, e: nat, fn: string)
    requires DbInv(db, anchorOf) && AnchorFnOK(anchorOf) && PacketFits(db, p, anchorOf)
    requires LayerOrder(PacketBatch(db, p), order)
    ensures IsReported(p, PacketRows(db, p, order).resolved, PacketBatch(db, p).results, e, fn)
            <==> HasResult(db, p, order, e, fn)
  {
    var results, resolved := PacketBatch(db, p).results, PacketRows(db, p, order).resolved;
    forall i: nat | i < |results|
      ensures Reports(p, resolved, results[i], e, fn) <==> ResultLogs(db, p, order, i, e, fn)
    {
      ReportsAt(db, p, blamed, order, anchorOf, i, e, fn);
    }
    assert forall i: nat :: ResultLogs(db, p, order, i, e, fn) ==> i < |results|;
    hide DbInv, AnchorFnOK, PacketFits, LayerOrder, PacketBatch, PacketRows, Targets, ResultLogs, WellFormed, Reports;
  }

  /** A log row is new exactly for an entity that has a result of the function, and for the packet's
      source when the function failed or stayed silent; it says success when there is a result, and
      otherwise when there is no error.  Every other row of the log is as it was. */
  lemma StoredLogsMeaning(
    db: Db, p: Packet, blamed: string, order: seq<nat>, anchorOf: AnchorFn, e: nat, moduleName: string, fn: string)
    requires DbInv(db, anchorOf) && AnchorFnOK(anchorOf) && PacketFits(db, p, anchorOf)
    requires LayerOrder(PacketBatch(db, p), order)
    ensures var key, logs := LogKey(e, moduleName, fn), Stored(db, p, blamed, order).logs;
            var result, error := HasResult(db, p, order, e, fn), HasError(db, p, blamed, fn);
            var concerned := moduleName == p.moduleName && e != 0 && fn != ""
                             && (result || (e == p.sourceID && (error || fn in p.functionsWithoutResults)));
            && (concerned ==> key in logs && logs[key] == (result || !error))
            && (!concerned ==> (key in logs <==> key in db.logs) && (key in db.logs ==> logs[key] == db.logs[key]))
  {
    var results, w := PacketBatch(db, p).results, PacketRows(db, p, order);
    var errors := StoredErrors(FieldsOf(db.rows[p.sourceID]), p, blamed);
    RowsAlone(db, p, blamed, order, anchorOf);
    ReportMeaning(db, p, blamed, order, anchorOf, e, fn);
    ErrorMeaning(db, p, blamed, fn);
    LogMeaning(p, w.resolved, results, errors, e, fn);
    hide DbInv, AnchorFnOK, PacketFits, LayerOrder, PacketBatch, PacketRows, Targets, SourceRow, WellFormed, TagsOf,
         RelationsOf, LogEntries, StoredErrors, IsReported, HasResult, HasError, Failed;
    var log := LogEntries(p, w.resolved, results, errors);
    LogRow(p, log, e, moduleName, fn);
  }

  lemma LogRow(p: Packet, log: Log, e: nat, moduleName: string, fn: string)
    ensures var key := LogKey(e, moduleName, fn);
            && (key in LogRows(p, log) <==> moduleName == p.moduleName && (e, fn) in log)
            && (key in LogRows(p, log) ==> LogRows(p, log)[key] == log[(e, fn)].ok)
  {
  }
}
