/**
 What becomes of one dispatched function: how its call ended, what is sent on, whether the
 packet is committed, and what that means for the next time the entity comes up.
 */
module Outcome {
  import opened Schema
  import opened DepthLoop
  import opened Database
  import opened StoreDb
  import opened StoreStep
  import opened History
  import opened Accounting
  import P = Processor
  import Q = Processing
  import D = Dispatcher

  datatype ExecOutcome = Returned(executions: seq<P.Execution>) | ExecFailed | TimedOut

  /** What the dispatcher hands to the processor; a call that fails hands over nothing. */
  function RunFor(item: D.WorkItem, mf: D.ModuleFunction, types: seq<string>, outcome: ExecOutcome): Option<P.Run> {
    var asked := map[mf.function_ := types];
    match outcome
    case Returned(es) => Some(P.Run(mf.moduleName, item.entityID, item.etype, item.value, [mf.function_], asked, es,
                         []))
    case TimedOut =>
      Some(P.Run(mf.moduleName, item.entityID, item.etype, item.value, [mf.function_], asked, [],
          [ReportedError(mf.function_, "timeout")]))
    case ExecFailed => None
  }

  /** The database after the call has been dealt with. */
  ghost predicate Dealt(
    db: Db, db': Db, rules: P.Rules, anchorOf: AnchorFn, item: D.WorkItem, mf: D.ModuleFunction, types: seq<string>,
    outcome: ExecOutcome, commits: bool)
  {
    match RunFor(item, mf, types, outcome)
    case None => db' == db
    case Some(d) =>
      if commits then exists p: Packet, blamed: string, order: seq<nat> ::
            Q.IsPacket(rules, d, p) && StoresTo(db, db', anchorOf, p, blamed, order)
      else db' == db
  }

  /** Modules report plain categories; the syntax check's anchors are a function of type and value. */
  ghost predicate TrustedCall(rules: P.Rules, anchorOf: AnchorFn, outcome: ExecOutcome) {
    Q.AnchorsAgree(rules, anchorOf)
    && (outcome.Returned? ==>
          forall i :: 0 <= i < |outcome.executions| ==> Q.PlainFindings(outcome.executions[i].results))
  }

  predicate Ended(outcome: ExecOutcome) {
    !outcome.ExecFailed?
  }

  /** Afterwards the function has a log row exactly when its call returned or timed out and the
      packet was committed. */
  lemma LoggedIff(
    db: Db, db': Db, rules: P.Rules, anchorOf: AnchorFn, item: D.WorkItem, mf: D.ModuleFunction, types: seq<string>,
    outcome: ExecOutcome, commits: bool)
    requires DbInv(db, anchorOf) && TrustedCall(rules, anchorOf, outcome) && mf.function_ != ""
    requires Dealt(db, db', rules, anchorOf, item, mf, types, outcome, commits)
    requires LogKey(item.entityID, mf.moduleName, mf.function_) !in db.logs
    ensures LogKey(item.entityID, mf.moduleName, mf.function_) in db'.logs <==> Ended(outcome) && commits
  {
    if Ended(outcome) && commits {
      var d := RunFor(item, mf, types, outcome).value;
      hide DbInv, Q.IsPacket, Stored, LayerOrder, PacketFits;
      var p: Packet, blamed: string, order: seq<nat> :| Q.IsPacket(rules, d, p)
          && StoresTo(db, db', anchorOf, p, blamed, order);
      RequestIsLogged(db, db', rules, d, anchorOf, mf.function_, p, blamed, order);
    }
  }

  /** A later item for the same entity, still within the limits. */
  predicate StillAdmitted(item: D.WorkItem, item': D.WorkItem, limits: D.Limits) {
    item'.entityID == item.entityID && item'.etype == item.etype && D.ItemAllowed(item', limits)
  }

  /** With the same tags, an item leads to the function again exactly when there is no log row. */
  lemma RunsAgainIff(
    db': Db, item: D.WorkItem, item': D.WorkItem, index: D.Index, limits: D.Limits, mf: D.ModuleFunction)
    requires D.WouldRun(item, index, limits, mf) && StillAdmitted(item, item', limits) && ItemFrom(db', item')
    requires forall t :: t in item'.tags <==> t in item.tags
    ensures D.WouldRun(item', index, limits, mf) <==> LogKey(item.entityID, mf.moduleName, mf.function_) !in db'.logs
  {
    var entries := index[item.etype];
    var i :| 0 <= i < |entries| && D.Selects(item, entries[i], mf);
    D.TagOrderIrrelevant(item.tags, item'.tags, entries[i].rules);
    assert LogKey(item.entityID, mf.moduleName, mf.function_) !in db'.logs ==> D.Selects(item', entries[i], mf);
  }

  /** Composed: while the entity is still within the limits, the function is run on it again exactly
      when its call failed outright or its packet was not committed. */
  lemma FailedCallsAreRepeated(
    db: Db, db': Db, rules: P.Rules, anchorOf: AnchorFn, item: D.WorkItem, item': D.WorkItem, mf: D.ModuleFunction,
        types: seq<string>,
    outcome: ExecOutcome, commits: bool, index: D.Index, limits: D.Limits)
    requires DbInv(db, anchorOf) && TrustedCall(rules, anchorOf, outcome) && mf.function_ != ""
    requires ItemFrom(db, item) && D.WouldRun(item, index, limits, mf)
    requires Dealt(db, db', rules, anchorOf, item, mf, types, outcome, commits)
    requires ItemFrom(db', item') && StillAdmitted(item, item', limits)
    ensures D.WouldRun(item', index, limits, mf) <==> outcome.ExecFailed? || !commits
  {
    hide DbInv, TrustedCall;
    assert mf !in item.completed;
    LoggedIff(db, db', rules, anchorOf, item, mf, types, outcome, commits);
    if outcome.ExecFailed? || !commits {
      assert db' == db;
      RunsAgainIff(db', item, item', index, limits, mf);
    }
  }
}
