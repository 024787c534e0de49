/**
 How many items one call of `Store` hands back.  A packet whose batch cannot be built is
 stored without its groups; either way there are never more items than results.
 */
module StoreResult {
  import opened Schema
  import opened StoreBatch

  /** The batch that is stored: the packet's, or the root alone when the build fails. */
  ghost function FinalBatch(source: EntityFields, groups: seq<Group>): (b: Batch)
    ensures WellFormed(b) && SameRoot(NewBatch(source), b)
  {
    match Build(source, groups)
    case Built(b) => b
    case _ => NewBatchWellFormed(source); NewBatch(source)
  }

  /** The results whose target was given a database id, in batch order. */
  ghost function Targets(results: seq<BatchResult>, resolved: map<nat, nat>): seq<BatchResult> {
    if results == [] then []
    else
      var rest := Targets(results[1..], resolved);
      if results[0].targetID in resolved && resolved[results[0].targetID] != 0 then [results[0]] + rest else rest
  }

  datatype Outcome = StoreError | StoreNothing | StoreItems(count: nat)

  function Count(out: Outcome): nat {
    if out.StoreItems? then out.count else 0
  }

  /** `Store` may fail at any point; otherwise it returns one item per resolved target, or nil for none. */
  ghost predicate StoreMayReturn(groups: seq<Group>, out: Outcome) {
    match out
    case StoreError => true
    case StoreNothing => exists source, resolved :: Targets(FinalBatch(source, groups).results, resolved) == []
    case StoreItems(n) => n > 0
                          && exists source, resolved :: |Targets(FinalBatch(source, groups).results, resolved)| == n
  }

  lemma {:induction false} TargetsBounded(results: seq<BatchResult>, resolved: map<nat, nat>)
    ensures |Targets(results, resolved)| <= |results|
    decreases |results|
  {
    if results != [] {
      TargetsBounded(results[1..], resolved);
    }
  }

  /** The rebuilt batch of a rejected packet holds the root and no result. */
  lemma FallbackIsEmpty(source: EntityFields)
    ensures Build(source, []) == Built(NewBatch(source)) && NewBatch(source).results == []
  {
    NewBatchWellFormed(source);
  }

  lemma FinalBatchSize(source: EntityFields, groups: seq<Group>)
    ensures |FinalBatch(source, groups).results|
            == if Build(source, groups).Built? then TotalResults(groups) else 0
  {
    BuildConserves(source, groups);
    FallbackIsEmpty(source);
  }

  /** The lemma the pipeline's token count rests on. */
  lemma StoreNeverReturnsMore(groups: seq<Group>, out: Outcome)
    requires StoreMayReturn(groups, out)
    ensures Count(out) <= TotalResults(groups)
  {
    if out.StoreItems? {
      var source, resolved :| |Targets(FinalBatch(source, groups).results, resolved)| == out.count;
      TargetsBounded(FinalBatch(source, groups).results, resolved);
      FinalBatchSize(source, groups);
    }
  }
}
