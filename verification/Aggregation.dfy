/**
 What the processor's aggregate holds, independent of the order in which results arrive:
 under each source and key the union of the usable results' tags and the disjunction of
 their marks.
 */
module Aggregation {
  import opened Schema
  import opened Reachability
  import opened Tags
  import opened Processor
  import opened Processing

  /** An usable result and the entity it hangs on. */
  datatype Hit = Hit(source: EntityRef, result: Result)

  function HitOf(rules: Rules, d: Run, refs: Refs, fn: string, r: Finding): Hit
    requires HasRefs(d, refs, r)
  {
    Hit(SourceOf(d, refs, r), Judged(rules, d, fn, r, refs[TargetKey(r)]))
  }

  function HitsOf(rules: Rules, d: Run, refs: Refs, fn: string, rs: seq<Finding>): seq<Hit>
    requires AllHaveRefs(d, refs, rs)
  {
    if rs == [] then []
    else
      var n := |rs| - 1;
      HitsOf(rules, d, refs, fn, rs[..n])
      + (if FateOf(d, refs, rs[n]).Usable? then [HitOf(rules, d, refs, fn, rs[n])] else [])
  }

  /** The execution counts: it is requested, free of errors, and the first of its function. */
  predicate Effective(d: Run, es: seq<Execution>, i: nat)
    requires i < |es|
  {
    Linked(d, es[i]) && forall k :: 0 <= k < i ==> es[k].function_ != es[i].function_
  }

  function AllHits(rules: Rules, d: Run, refs: Refs, es: seq<Execution>): seq<Hit>
    requires RefsCover(d, refs, es)
  {
    if es == [] then []
    else
      var n := |es| - 1;
      assert RefsCover(d, refs, es[..n]);
      AllHits(rules, d, refs, es[..n])
      + (if Effective(d, es, n) then HitsOf(rules, d, refs, es[n].function_, es[n].results) else [])
  }

  function InsertAll(rules: Rules, agg: Aggregate, hits: seq<Hit>): Aggregate {
    if hits == [] then agg
    else
      var n := |hits| - 1;
      Insert(rules, InsertAll(rules, agg, hits[..n]), hits[n].source, hits[n].result)
  }

  lemma {:induction false} InsertAllConcat(rules: Rules, agg: Aggregate, a: seq<Hit>, b: seq<Hit>)
    ensures InsertAll(rules, agg, a + b) == InsertAll(rules, InsertAll(rules, agg, a), b)
    decreases |b|
  {
    if b == [] {
      assert a + b == a;
    } else {
      var n := |b| - 1;
      InsertAllConcat(rules, agg, a, b[..n]);
      assert (a + b)[..|a| + n] == a + b[..n] && (a + b)[|a| + n] == b[n];
    }
  }

  lemma InsertLast(rules: Rules, agg: Aggregate, hits: seq<Hit>, h: Hit)
    ensures InsertAll(rules, agg, hits + [h]) == Insert(rules, InsertAll(rules, agg, hits), h.source, h.result)
  {
    assert (hits + [h])[..|hits|] == hits && (hits + [h])[|hits|] == h;
  }

  lemma {:induction false} FindingsInsert(rules: Rules, d: Run, refs: Refs, t: Tally, fn: string, rs: seq<Finding>)
    requires AllHaveRefs(d, refs, rs)
    ensures var t' := AddFindings(rules, d, refs, t, fn, rs);
            var hits := HitsOf(rules, d, refs, fn, rs);
            && t'.groups == InsertAll(rules, t.groups, hits)
            && t'.findings == t.findings + (if hits == [] then {} else {fn})
    decreases |rs|
  {
    if rs != [] {
      var n := |rs| - 1;
      FindingsInsert(rules, d, refs, t, fn, rs[..n]);
      if FateOf(d, refs, rs[n]).Usable? {
        var hits := HitsOf(rules, d, refs, fn, rs[..n]);
        var h := HitOf(rules, d, refs, fn, rs[n]);
        assert HitsOf(rules, d, refs, fn, rs) == hits + [h];
        InsertLast(rules, t.groups, hits, h);
        var t1 := AddFindings(rules, d, refs, t, fn, rs[..n]);
        assert AddFindings(rules, d, refs, t, fn, rs) == AddFinding(rules, d, refs, t1, fn, rs[n]);
      } else {
        assert HitsOf(rules, d, refs, fn, rs) == HitsOf(rules, d, refs, fn, rs[..n]);
      }
    }
  }

  predicate Heard(d: Run, es: seq<Execution>, fn: string) {
    exists k :: 0 <= k < |es| && es[k].function_ == fn && !IsRogue(d, es[k])
  }

  lemma HeardSplit(d: Run, es: seq<Execution>, n: nat, fn: string)
    requires |es| == n + 1
    ensures Heard(d, es, fn) <==> Heard(d, es[..n], fn) || (es[n].function_ == fn && !IsRogue(d, es[n]))
  {
    assert forall k :: 0 <= k < n ==> es[..n][k] == es[k];
  }

  /** A function has returned once an execution of it that is not rogue was read. */
  lemma {:induction false} ReturnedMeaning(rules: Rules, d: Run, refs: Refs, es: seq<Execution>)
    requires RefsCover(d, refs, es)
    ensures forall fn :: fn in AddExecutions(rules, d, refs, es).returned <==>
              fn in Started(d).returned || Heard(d, es, fn)
    decreases |es|
  {
    if es != [] {
      var n := |es| - 1;
      assert RefsCover(d, refs, es[..n]);
      ReturnedMeaning(rules, d, refs, es[..n]);
      var t := AddExecutions(rules, d, refs, es[..n]);
      OneReturned(rules, d, refs, t, es[n]);
      hide AddExecution, Heard;
      forall fn: string
        ensures fn in AddExecutions(rules, d, refs, es).returned <==> fn in Started(d).returned || Heard(d, es, fn) {
        HeardSplit(d, es, n, fn);
      }
    }
  }

  lemma OneReturned(rules: Rules, d: Run, refs: Refs, t: Tally, e: Execution)
    requires (Linked(d, e) ==> AllHaveRefs(d, refs, e.results)) && Started(d).returned <= t.returned
    ensures AddExecution(rules, d, refs, t, e).returned == t.returned + (if IsRogue(d, e) then {} else {e.function_})
  {
    if Linked(d, e) {
      FindingsKeepReturned(rules, d, refs,
        t.(rawData := t.rawData[e.function_ := e.rawData], returned := t.returned + {e.function_}),
        e.function_, e.results);
    }
  }

  lemma OneInserted(rules: Rules, d: Run, refs: Refs, t: Tally, e: Execution)
    requires (Linked(d, e) ==> AllHaveRefs(d, refs, e.results)) && Started(d).returned <= t.returned
    ensures AddExecution(rules, d, refs, t, e).groups
            == if Linked(d, e) && e.function_ !in t.returned
               then InsertAll(rules, t.groups, HitsOf(rules, d, refs, e.function_, e.results)) else t.groups
  {
    if Linked(d, e) && e.function_ !in t.returned {
      FindingsInsert(rules, d, refs,
        t.(rawData := t.rawData[e.function_ := e.rawData], returned := t.returned + {e.function_}),
        e.function_, e.results);
    }
  }

  lemma {:induction false} ExecutionsInsert(rules: Rules, d: Run, refs: Refs, es: seq<Execution>)
    requires RefsCover(d, refs, es)
    ensures AddExecutions(rules, d, refs, es).groups == InsertAll(rules, map[], AllHits(rules, d, refs, es))
    decreases |es|
  {
    if es != [] {
      var n := |es| - 1;
      assert RefsCover(d, refs, es[..n]);
      ExecutionsInsert(rules, d, refs, es[..n]);
      ReturnedMeaning(rules, d, refs, es[..n]);
      var t := AddExecutions(rules, d, refs, es[..n]);
      OneInserted(rules, d, refs, t, es[n]);
      assert forall k :: 0 <= k < n ==> es[..n][k] == es[k];
      EffectiveMeansFirst(d, es, n, t);
      InsertAllConcat(rules, map[], AllHits(rules, d, refs, es[..n]),
        if Effective(d, es, n) then HitsOf(rules, d, refs, es[n].function_, es[n].results) else []);
    }
  }

  lemma EffectiveMeansFirst(d: Run, es: seq<Execution>, n: nat, t: Tally)
    requires n < |es|
    requires forall fn :: fn in t.returned <==>
               fn in Started(d).returned || Heard(d, es[..n], fn)
    ensures Effective(d, es, n) <==> Linked(d, es[n]) && es[n].function_ !in t.returned
  {
    assert forall k :: 0 <= k < n ==> es[..n][k] == es[k];
    if Linked(d, es[n]) {
      forall k | 0 <= k < n && es[k].function_ == es[n].function_ ensures es[n].function_ in t.returned {
        assert !IsRogue(d, es[..n][k]) && es[..n][k].function_ == es[n].function_;
      }
    }
  }

  // ------------------------------------------------------------ the union

  predicate Lands(h: Hit, src: EntityRef, key: ResultKey) {
    h.source == src && KeyOfResult(h.result) == key
  }

  /** The entry that a set of results under one source and key amounts to. */
  ghost predicate IsUnion(rules: Rules, hits: seq<Hit>, src: EntityRef, key: ResultKey, e: Result) {
    && (forall tag :: tag in e.tags <==>
         exists i :: 0 <= i < |hits| && Lands(hits[i], src, key) && tag in hits[i].result.tags)
    && (e.applied <==> exists i :: 0 <= i < |hits| && Lands(hits[i], src, key) && hits[i].result.applied)
    && (e.outOfScope <==> rules.blocked(key.etype, key.value)
                          || exists i :: 0 <= i < |hits| && Lands(hits[i], src, key) && hits[i].result.outOfScope)
  }

  ghost predicate Holds(rules: Rules, hits: seq<Hit>, agg: Aggregate, src: EntityRef, key: ResultKey) {
    && (key in Grouped(agg, src) <==> exists i :: 0 <= i < |hits| && Lands(hits[i], src, key))
    && (key in Grouped(agg, src) ==> IsUnion(rules, hits, src, key, Grouped(agg, src)[key]))
  }

  lemma ExistsSplit(hits: seq<Hit>, n: nat, p: Hit -> bool)
    requires |hits| == n + 1
    ensures (exists i :: 0 <= i < |hits| && p(hits[i])) <==> (exists i :: 0 <= i < n && p(hits[..n][i])) || p(hits[n])
  {
    assert forall i :: 0 <= i < n ==> hits[..n][i] == hits[i];
  }

  lemma UnionGrows(rules: Rules, hits: seq<Hit>, n: nat, agg: Aggregate, src: EntityRef, key: ResultKey)
    requires |hits| == n + 1 && Holds(rules, hits[..n], agg, src, key)
    ensures Holds(rules, hits, Insert(rules, agg, hits[n].source, hits[n].result), src, key)
  {
    var agg' := Insert(rules, agg, hits[n].source, hits[n].result);
    ExistsSplit(hits, n, h => Lands(h, src, key));
    ExistsSplit(hits, n, h => Lands(h, src, key) && h.result.applied);
    ExistsSplit(hits, n, h => Lands(h, src, key) && h.result.outOfScope);
    forall tag: string
      ensures (exists i :: 0 <= i < |hits| && Lands(hits[i], src, key) && tag in hits[i].result.tags) <==>
              (exists i :: 0 <= i < n && Lands(hits[..n][i], src, key) && tag in hits[..n][i].result.tags)
              || (Lands(hits[n], src, key) && tag in hits[n].result.tags)
    {
      ExistsSplit(hits, n, h => Lands(h, src, key) && tag in h.result.tags);
    }
  }

  /** Whatever the order: a key is there exactly when some usable result lands on it, its tags
      are the union of theirs, and it is applied or out of scope exactly when one of them is, or
      the scope rules block it. */
  lemma {:induction false} AggregateMeaning(rules: Rules, hits: seq<Hit>, src: EntityRef, key: ResultKey)
    ensures Holds(rules, hits, InsertAll(rules, map[], hits), src, key)
    decreases |hits|
  {
    if hits != [] {
      var n := |hits| - 1;
      AggregateMeaning(rules, hits[..n], src, key);
      UnionGrows(rules, hits, n, InsertAll(rules, map[], hits[..n]), src, key);
    }
  }

  /** The packet's groups are exactly the union of the usable results of the effective executions. */
  lemma PacketIsUnion(rules: Rules, d: Run, src: EntityRef, key: ResultKey)
    ensures RefsCover(d, RefsOf(rules, d), d.executions)
    ensures Holds(rules, AllHits(rules, d, RefsOf(rules, d), d.executions), Tallied(rules, d).groups, src, key)
  {
    RefsExist(rules, d);
    ExecutionsInsert(rules, d, RefsOf(rules, d), d.executions);
    AggregateMeaning(rules, AllHits(rules, d, RefsOf(rules, d), d.executions), src, key);
  }

  // ------------------------------------------------------------ the verdict on a requested function

  predicate Bad(d: Run, refs: Refs, r: Finding)
    requires HasRefs(d, refs, r)
  {
    FateOf(d, refs, r).BadTag? || FateOf(d, refs, r).Incomplete?
  }

  predicate AnyBad(d: Run, refs: Refs, rs: seq<Finding>)
    requires AllHaveRefs(d, refs, rs)
  {
    exists j :: 0 <= j < |rs| && Bad(d, refs, rs[j])
  }

  predicate AnyUsable(d: Run, refs: Refs, rs: seq<Finding>)
    requires AllHaveRefs(d, refs, rs)
  {
    exists j :: 0 <= j < |rs| && FateOf(d, refs, rs[j]).Usable?
  }

  lemma AnySplit(d: Run, refs: Refs, rs: seq<Finding>, n: nat)
    requires |rs| == n + 1 && AllHaveRefs(d, refs, rs)
    ensures AnyBad(d, refs, rs) <==> AnyBad(d, refs, rs[..n]) || Bad(d, refs, rs[n])
    ensures AnyUsable(d, refs, rs) <==> AnyUsable(d, refs, rs[..n]) || FateOf(d, refs, rs[n]).Usable?
  {
    assert forall j :: 0 <= j < n ==> rs[..n][j] == rs[j];
    hide FateOf;
  }

  lemma OneFinding(rules: Rules, d: Run, refs: Refs, t: Tally, fn: string, r: Finding)
    requires HasRefs(d, refs, r)
    ensures var t' := AddFinding(rules, d, refs, t, fn, r);
            && t'.failed == t.failed + (if Bad(d, refs, r) then {fn} else {})
            && t'.findings == t.findings + (if FateOf(d, refs, r).Usable? then {fn} else {})
  {
    hide FateOf, Insert, Judged;
  }

  lemma {:induction false} FindingsVerdict(rules: Rules, d: Run, refs: Refs, t: Tally, fn: string, rs: seq<Finding>)
    requires AllHaveRefs(d, refs, rs)
    ensures var t' := AddFindings(rules, d, refs, t, fn, rs);
            && t'.failed == t.failed + (if AnyBad(d, refs, rs) then {fn} else {})
            && t'.findings == t.findings + (if AnyUsable(d, refs, rs) then {fn} else {})
    decreases |rs|
  {
    if rs != [] {
      var n := |rs| - 1;
      FindingsVerdict(rules, d, refs, t, fn, rs[..n]);
      AnySplit(d, refs, rs, n);
      var t1 := AddFindings(rules, d, refs, t, fn, rs[..n]);
      OneFinding(rules, d, refs, t1, fn, rs[n]);
      hide AddFinding, AnyBad, AnyUsable, Bad, FateOf;
    }
  }

  /** The first execution of its function that the processor reads. */
  predicate FirstRead(d: Run, es: seq<Execution>, i: nat)
    requires i < |es|
  {
    !Skipped(d, Started(d).returned, es[i]) && forall k :: 0 <= k < i ==> es[k].function_ != es[i].function_
  }

  /** It failed as a whole, or one of its results has a bad tag or half a name. */
  predicate Faulty(d: Run, refs: Refs, es: seq<Execution>, i: nat)
    requires i < |es| && RefsCover(d, refs, es)
  {
    FirstRead(d, es, i) && (es[i].error != "" || AnyBad(d, refs, es[i].results))
  }

  predicate Fruitful(d: Run, refs: Refs, es: seq<Execution>, i: nat)
    requires i < |es| && RefsCover(d, refs, es)
  {
    FirstRead(d, es, i) && es[i].error == "" && AnyUsable(d, refs, es[i].results)
  }

  predicate SomeFaulty(d: Run, refs: Refs, es: seq<Execution>, fn: string)
    requires RefsCover(d, refs, es)
  {
    exists i :: 0 <= i < |es| && es[i].function_ == fn && Faulty(d, refs, es, i)
  }

  predicate SomeFruitful(d: Run, refs: Refs, es: seq<Execution>, fn: string)
    requires RefsCover(d, refs, es)
  {
    exists i :: 0 <= i < |es| && es[i].function_ == fn && Fruitful(d, refs, es, i)
  }

  lemma OneVerdict(rules: Rules, d: Run, refs: Refs, t: Tally, es: seq<Execution>, n: nat)
    requires |es| == n + 1 && RefsCover(d, refs, es) && Started(d).returned <= t.returned
    requires forall fn :: fn in t.returned <==> fn in Started(d).returned || Heard(d, es[..n], fn)
    ensures var t' := AddExecution(rules, d, refs, t, es[n]);
            && t'.failed == t.failed + (if Faulty(d, refs, es, n) then {es[n].function_} else {})
            && t'.findings == t.findings + (if Fruitful(d, refs, es, n) then {es[n].function_} else {})
  {
    var e := es[n];
    assert forall k :: 0 <= k < n ==> es[..n][k] == es[k];
    if !IsRogue(d, e) {
      forall k | 0 <= k < n && es[k].function_ == e.function_ ensures e.function_ in t.returned {
        assert !IsRogue(d, es[..n][k]) && es[..n][k].function_ == e.function_;
      }
    }
    assert FirstRead(d, es, n) <==> !Skipped(d, t.returned, e);
    if !Skipped(d, t.returned, e) && e.error == "" {
      FindingsVerdict(rules, d, refs,
        t.(rawData := t.rawData[e.function_ := e.rawData], returned := t.returned + {e.function_}),
        e.function_, e.results);
    }
  }

  lemma PrefixVerdict(d: Run, refs: Refs, es: seq<Execution>, n: nat, fn: string)
    requires |es| == n + 1 && RefsCover(d, refs, es) && RefsCover(d, refs, es[..n])
    ensures SomeFaulty(d, refs, es, fn) <==>
              SomeFaulty(d, refs, es[..n], fn) || (es[n].function_ == fn && Faulty(d, refs, es, n))
    ensures SomeFruitful(d, refs, es, fn) <==>
              SomeFruitful(d, refs, es[..n], fn) || (es[n].function_ == fn && Fruitful(d, refs, es, n))
  {
    assert forall k :: 0 <= k < n ==> es[..n][k] == es[k];
    forall i | 0 <= i < n
      ensures Faulty(d, refs, es[..n], i) == Faulty(d, refs, es, i)
              && Fruitful(d, refs, es[..n], i) == Fruitful(d, refs, es, i)
    {
      assert FirstRead(d, es[..n], i) == FirstRead(d, es, i);
    }
  }

  lemma {:induction false} ExecutionsVerdict(rules: Rules, d: Run, refs: Refs, es: seq<Execution>)
    requires RefsCover(d, refs, es)
    ensures var t := AddExecutions(rules, d, refs, es);
            forall fn :: && (fn in t.failed <==> fn in Started(d).failed || SomeFaulty(d, refs, es, fn))
                         && (fn in t.findings <==> SomeFruitful(d, refs, es, fn))
    decreases |es|
  {
    if es != [] {
      var n := |es| - 1;
      assert RefsCover(d, refs, es[..n]);
      ExecutionsVerdict(rules, d, refs, es[..n]);
      ReturnedMeaning(rules, d, refs, es[..n]);
      var t := AddExecutions(rules, d, refs, es[..n]);
      OneVerdict(rules, d, refs, t, es, n);
      hide AddExecution, Faulty, Fruitful, SomeFaulty, SomeFruitful, Heard;
      forall fn: string
        ensures SomeFaulty(d, refs, es, fn) <==>
                  SomeFaulty(d, refs, es[..n], fn) || (es[n].function_ == fn && Faulty(d, refs, es, n))
        ensures SomeFruitful(d, refs, es, fn) <==>
                  SomeFruitful(d, refs, es[..n], fn) || (es[n].function_ == fn && Fruitful(d, refs, es, n))
      {
        PrefixVerdict(d, refs, es, n, fn);
      }
    }
  }

  predicate ErrorsNamed(t: Tally) {
    FunctionsOf(t.errors) == t.failed
  }

  lemma {:induction false} FindingsNamed(rules: Rules, d: Run, refs: Refs, t: Tally, fn: string, rs: seq<Finding>)
    requires AllHaveRefs(d, refs, rs) && ErrorsNamed(t)
    ensures ErrorsNamed(AddFindings(rules, d, refs, t, fn, rs))
    decreases |rs|
  {
    if rs != [] {
      var n := |rs| - 1;
      FindingsNamed(rules, d, refs, t, fn, rs[..n]);
      var t1 := AddFindings(rules, d, refs, t, fn, rs[..n]);
      FailedAppend(t1.errors, ReportedError(fn, "invalid_tag_format"));
      FailedAppend(t1.errors, ReportedError(fn, "incomplete_data"));
    }
  }

  lemma OneNamed(rules: Rules, d: Run, refs: Refs, t: Tally, e: Execution)
    requires (Linked(d, e) ==> AllHaveRefs(d, refs, e.results)) && Started(d).returned <= t.returned && ErrorsNamed(t)
    ensures ErrorsNamed(AddExecution(rules, d, refs, t, e))
  {
    FailedAppend(t.errors, ReportedError(e.function_, "function_error"));
    if !Skipped(d, t.returned, e) && e.error == "" {
      FindingsNamed(rules, d, refs,
        t.(rawData := t.rawData[e.function_ := e.rawData], returned := t.returned + {e.function_}),
        e.function_, e.results);
    }
  }

  lemma {:induction false} ExecutionsNamed(rules: Rules, d: Run, refs: Refs, es: seq<Execution>)
    requires RefsCover(d, refs, es)
    ensures ErrorsNamed(AddExecutions(rules, d, refs, es))
    decreases |es|
  {
    if es == [] {
      StartedOK(d, (t, v) => "");
    } else {
      var n := |es| - 1;
      assert RefsCover(d, refs, es[..n]);
      ExecutionsNamed(rules, d, refs, es[..n]);
      OneNamed(rules, d, refs, AddExecutions(rules, d, refs, es[..n]), es[n]);
    }
  }

  /** Why a requested function fails: a system error, a broken contract, a faulty first execution,
      or none at all.  It is silent when it does not fail and its first execution brought nothing usable. */
  lemma VerdictMeaning(rules: Rules, d: Run, p: Packet, fn: string)
    requires IsPacket(rules, d, p) && fn in d.requested
    ensures RefsCover(d, RefsOf(rules, d), d.executions)
    ensures fn in FunctionsOf(p.errors) <==>
              || fn in FunctionsOf(d.systemErrors) || Violated(d)
              || SomeFaulty(d, RefsOf(rules, d), d.executions, fn) || !Heard(d, d.executions, fn)
    ensures fn in p.functionsWithoutResults <==>
              fn !in FunctionsOf(p.errors) && !SomeFruitful(d, RefsOf(rules, d), d.executions, fn)
  {
    RefsExist(rules, d);
    var refs, es := RefsOf(rules, d), d.executions;
    ExecutionsNamed(rules, d, refs, es);
    ExecutionsVerdict(rules, d, refs, es);
    ReturnedMeaning(rules, d, refs, es);
    JudgeMeaning(Tallied(rules, d), d.requested);
    StartedFails(d, fn);
    hide SomeFaulty, SomeFruitful, Heard, AddExecutions, JudgeFunctions, RefsCover, GroupsOf, Violated, FunctionsOf,
         Started;
  }

  lemma StartedFails(d: Run, fn: string)
    requires fn in d.requested
    ensures fn in Started(d).failed <==> fn in FunctionsOf(d.systemErrors) || Violated(d)
    ensures fn in Started(d).returned <==> Violated(d)
  {
  }

  // ------------------------------------------------------------ functions that leave no trace

  /** Neither failed nor silent, and no result of the packet bears the function's name. */
  predicate Unreported(p: Packet, fn: string) {
    && fn !in FunctionsOf(p.errors) && fn !in p.functionsWithoutResults
    && forall i, j :: 0 <= i < |p.groups| && 0 <= j < |p.groups[i].results| ==> p.groups[i].results[j].function_ != fn
  }

  predicate SameSpot(a: Hit, b: Hit) {
    a.source == b.source && KeyOfResult(a.result) == KeyOfResult(b.result)
  }

  /** Every usable result of the function lands where an earlier one of another function has landed. */
  predicate Overshadowed(hits: seq<Hit>, fn: string) {
    forall i :: 0 <= i < |hits| && hits[i].result.function_ == fn ==> Shadowed(hits, i, fn)
  }

  predicate Shadowed(hits: seq<Hit>, i: nat, fn: string)
    requires i < |hits|
  {
    exists k :: 0 <= k < i && SameSpot(hits[k], hits[i]) && hits[k].result.function_ != fn
  }

  /** The first result that lands on a spot gives the entry its function. */
  ghost predicate NamedByFirst(hits: seq<Hit>, agg: Aggregate, src: EntityRef, key: ResultKey) {
    key in Grouped(agg, src) ==>
      exists i :: 0 <= i < |hits| && FirstOn(hits, i, src, key)
                  && Grouped(agg, src)[key].function_ == hits[i].result.function_
  }

  predicate FirstOn(hits: seq<Hit>, i: nat, src: EntityRef, key: ResultKey)
    requires i < |hits|
  {
    Lands(hits[i], src, key) && forall k :: 0 <= k < i ==> !Lands(hits[k], src, key)
  }

  lemma {:induction false} FirstNames(rules: Rules, hits: seq<Hit>, src: EntityRef, key: ResultKey)
    ensures NamedByFirst(hits, InsertAll(rules, map[], hits), src, key)
    decreases |hits|
  {
    if hits != [] {
      var n := |hits| - 1;
      var agg := InsertAll(rules, map[], hits[..n]);
      FirstNames(rules, hits[..n], src, key);
      AggregateMeaning(rules, hits[..n], src, key);
      assert forall k :: 0 <= k < n ==> hits[..n][k] == hits[k];
      if key in Grouped(agg, src) {
        var i :| 0 <= i < n && FirstOn(hits[..n], i, src, key)
            && Grouped(agg, src)[key].function_ == hits[..n][i].result.function_;
        assert FirstOn(hits, i, src, key);
      } else if Lands(hits[n], src, key) {
        assert FirstOn(hits, n, src, key);
      }
    }
  }

  /** Among the results that land on a spot there is a first one. */
  lemma {:induction false} FirstExists(hits: seq<Hit>, n: nat, src: EntityRef, key: ResultKey) returns (i: nat)
    requires n < |hits| && Lands(hits[n], src, key)
    ensures i <= n && FirstOn(hits, i, src, key)
    decreases n
  {
    if k: nat :| k < n && Lands(hits[k], src, key) {
      i := FirstExists(hits, k, src, key);
    } else {
      i := n;
    }
  }

  /** No entry bears the function's name. */
  ghost predicate NoneNamed(agg: Aggregate, fn: string) {
    forall src, key :: src in agg && key in agg[src] ==> agg[src][key].function_ != fn
  }

  /** The aggregate names a function nowhere exactly when it is overshadowed. */
  lemma NoneNamedIff(rules: Rules, hits: seq<Hit>, fn: string)
    ensures NoneNamed(InsertAll(rules, map[], hits), fn) <==> Overshadowed(hits, fn)
  {
    var agg := InsertAll(rules, map[], hits);
    hide InsertAll;
    if NoneNamed(agg, fn) {
      forall i | 0 <= i < |hits| && hits[i].result.function_ == fn ensures Shadowed(hits, i, fn) {
        var src, key := hits[i].source, KeyOfResult(hits[i].result);
        SpotNamed(rules, hits, i);
        var k :| 0 <= k <= i && SameSpot(hits[k], hits[i])
            && Grouped(agg, src)[key].function_ == hits[k].result.function_;
      }
    }
    if Overshadowed(hits, fn) {
      forall src, key | src in agg && key in agg[src] ensures agg[src][key].function_ != fn {
        FirstNames(rules, hits, src, key);
        var i :| 0 <= i < |hits| && FirstOn(hits, i, src, key)
            && Grouped(agg, src)[key].function_ == hits[i].result.function_;
        assert !Shadowed(hits, i, fn);
      }
    }
  }

  lemma SpotNamed(rules: Rules, hits: seq<Hit>, i: nat)
    requires i < |hits|
    ensures var agg, src, key := InsertAll(rules, map[], hits), hits[i].source, KeyOfResult(hits[i].result);
            && src in agg && key in agg[src]
            && exists k :: 0 <= k <= i && SameSpot(hits[k], hits[i])
                           && Grouped(agg, src)[key].function_ == hits[k].result.function_
  {
    var agg, src, key := InsertAll(rules, map[], hits), hits[i].source, KeyOfResult(hits[i].result);
    hide InsertAll;
    assert Lands(hits[i], src, key);
    AggregateMeaning(rules, hits, src, key);
    FirstNames(rules, hits, src, key);
    var k :| 0 <= k < |hits| && FirstOn(hits, k, src, key)
        && Grouped(agg, src)[key].function_ == hits[k].result.function_;
    assert k <= i && SameSpot(hits[k], hits[i]);
  }

  lemma ListedNamesIff(groups: seq<Group>, agg: Aggregate, fn: string)
    requires GroupsOf(groups, agg)
    ensures NoneNamed(agg, fn) <==>
              forall i, j :: 0 <= i < |groups| && 0 <= j < |groups[i].results| ==> groups[i].results[j].function_ != fn
  {
    if forall i, j :: 0 <= i < |groups| && 0 <= j < |groups[i].results| ==> groups[i].results[j].function_ != fn {
      forall src, key | src in agg && key in agg[src] ensures agg[src][key].function_ != fn {
        assert src in Sources(groups);
        var i :| 0 <= i < |groups| && groups[i].source == src;
        assert ResultsOf(groups[i].results, agg[src]) && agg[src][key] in groups[i].results;
        var j :| 0 <= j < |groups[i].results| && groups[i].results[j] == agg[src][key];
      }
    }
    if NoneNamed(agg, fn) {
      forall i, j | 0 <= i < |groups| && 0 <= j < |groups[i].results| ensures groups[i].results[j].function_ != fn {
        assert groups[i].results[j] in agg[groups[i].source].Values;
      }
    }
  }

  /** Why a requested function is reported as failed, read off the run. */
  predicate Fails(rules: Rules, d: Run, refs: Refs, fn: string)
    requires RefsCover(d, refs, d.executions)
  {
    || fn in FunctionsOf(d.systemErrors) || Violated(d)
    || SomeFaulty(d, refs, d.executions, fn) || !Heard(d, d.executions, fn)
  }

  /** For every run: a requested function is unreported exactly when it does not fail, brings
      something usable, and all of that lands where another function was first. */
  lemma UnreportedIff(rules: Rules, d: Run, p: Packet, fn: string)
    requires IsPacket(rules, d, p) && fn in d.requested
    ensures RefsCover(d, RefsOf(rules, d), d.executions)
    ensures Unreported(p, fn) <==>
              && !Fails(rules, d, RefsOf(rules, d), fn) && SomeFruitful(d, RefsOf(rules, d), d.executions, fn)
              && Overshadowed(AllHits(rules, d, RefsOf(rules, d), d.executions), fn)
  {
    var refs, es := RefsOf(rules, d), d.executions;
    RefsExist(rules, d);
    VerdictMeaning(rules, d, p, fn);
    ExecutionsInsert(rules, d, refs, es);
    NoneNamedIff(rules, AllHits(rules, d, refs, es), fn);
    ListedNamesIff(p.groups, Tallied(rules, d).groups, fn);
    hide RefsOf, AllHits, AddExecutions, JudgeFunctions, SomeFaulty, SomeFruitful, Heard, Violated, FunctionsOf,
         NoneNamed, Overshadowed, GroupsOf,
         InsertAll, RefsCover;
  }

  // ------------------------------------------------------------ when nothing is lost

  /** The functions' usable results never meet. */
  predicate Apart(hits: seq<Hit>) {
    forall i, k :: 0 <= i < |hits| && 0 <= k < |hits| && SameSpot(hits[k], hits[i]) ==>
          hits[k].result.function_ == hits[i].result.function_
  }

  lemma {:induction false} HitOrigin(rules: Rules, d: Run, refs: Refs, fn: string, rs: seq<Finding>, h: Hit)
    returns (j: nat)
    requires AllHaveRefs(d, refs, rs) && h in HitsOf(rules, d, refs, fn, rs)
    ensures j < |rs| && FateOf(d, refs, rs[j]).Usable? && h == HitOf(rules, d, refs, fn, rs[j])
    decreases |rs|
  {
    var n := |rs| - 1;
    if h in HitsOf(rules, d, refs, fn, rs[..n]) {
      j := HitOrigin(rules, d, refs, fn, rs[..n], h);
    } else {
      j := n;
    }
  }

  /** Every hit is a usable result of an effective execution, and bears that function's name. */
  lemma {:induction false} HitsOrigin(rules: Rules, d: Run, refs: Refs, es: seq<Execution>, h: Hit)
    returns (i: nat, j: nat)
    requires RefsCover(d, refs, es) && h in AllHits(rules, d, refs, es)
    ensures i < |es| && Effective(d, es, i) && j < |es[i].results|
    ensures FateOf(d, refs, es[i].results[j]).Usable? && h == HitOf(rules, d, refs, es[i].function_, es[i].results[j])
    decreases |es|
  {
    var n := |es| - 1;
    assert RefsCover(d, refs, es[..n]);
    if h in AllHits(rules, d, refs, es[..n]) {
      i, j := HitsOrigin(rules, d, refs, es[..n], h);
      assert es[..n][i] == es[i] && forall k :: 0 <= k < i ==> es[..n][k] == es[k];
    } else {
      i := n;
      j := HitOrigin(rules, d, refs, es[n].function_, es[n].results, h);
    }
  }

  lemma {:induction false} UsableHits(rules: Rules, d: Run, refs: Refs, fn: string, rs: seq<Finding>)
    requires AllHaveRefs(d, refs, rs)
    ensures AnyUsable(d, refs, rs) <==> HitsOf(rules, d, refs, fn, rs) != []
    decreases |rs|
  {
    if rs != [] {
      UsableHits(rules, d, refs, fn, rs[..|rs| - 1]);
      AnySplit(d, refs, rs, |rs| - 1);
    }
  }

  /** A fruitful function has a hit. */
  lemma {:induction false} FruitfulHits(rules: Rules, d: Run, refs: Refs, es: seq<Execution>, i: nat) returns (h: Hit)
    requires RefsCover(d, refs, es) && i < |es| && Fruitful(d, refs, es, i)
    ensures h in AllHits(rules, d, refs, es) && h.result.function_ == es[i].function_
    decreases |es|
  {
    var n := |es| - 1;
    assert RefsCover(d, refs, es[..n]);
    if i < n {
      assert es[..n][i] == es[i] && forall k :: 0 <= k < i ==> es[..n][k] == es[k];
      h := FruitfulHits(rules, d, refs, es[..n], i);
    } else {
      UsableHits(rules, d, refs, es[n].function_, es[n].results);
      h := HitsOf(rules, d, refs, es[n].function_, es[n].results)[0];
      var j := HitOrigin(rules, d, refs, es[n].function_, es[n].results, h);
    }
  }

  /** Functions whose usable results never meet are all reported. */
  lemma ApartReportsAll(rules: Rules, d: Run, p: Packet, fn: string)
    requires IsPacket(rules, d, p) && fn in d.requested
    requires RefsCover(d, RefsOf(rules, d), d.executions) ==> Apart(AllHits(rules, d, RefsOf(rules, d), d.executions))
    ensures !Unreported(p, fn)
  {
    var refs, es := RefsOf(rules, d), d.executions;
    UnreportedIff(rules, d, p, fn);
    if SomeFruitful(d, refs, es, fn) {
      var i :| 0 <= i < |es| && es[i].function_ == fn && Fruitful(d, refs, es, i);
      var h := FruitfulHits(rules, d, refs, es, i);
      var hits := AllHits(rules, d, refs, es);
      var k :| 0 <= k < |hits| && hits[k] == h;
      assert !Shadowed(hits, k, fn);
    }
  }

  /** A module can make sure of that: results of different functions carry different local ids. */
  predicate SeparateLocalIDs(es: seq<Execution>) {
    forall i, k, a, b :: 0 <= i < |es| && 0 <= k < |es| && es[i].function_ != es[k].function_
                         && 0 <= a < |es[i].results| && 0 <= b < |es[k].results|
                         ==> es[i].results[a].localID != es[k].results[b].localID
  }

  lemma SeparateLocalIDsReportAll(rules: Rules, d: Run, p: Packet, fn: string)
    requires IsPacket(rules, d, p) && fn in d.requested && SeparateLocalIDs(d.executions)
    ensures !Unreported(p, fn)
  {
    RefsExist(rules, d);
    var refs, es := RefsOf(rules, d), d.executions;
    var hits := AllHits(rules, d, refs, es);
    forall x, y | 0 <= x < |hits| && 0 <= y < |hits| && SameSpot(hits[y], hits[x])
      ensures hits[y].result.function_ == hits[x].result.function_
    {
      var i, a := HitsOrigin(rules, d, refs, es, hits[x]);
      var k, b := HitsOrigin(rules, d, refs, es, hits[y]);
    }
    ApartReportsAll(rules, d, p, fn);
  }

  /** So does asking for one function at a time, which is all the dispatcher does. */
  lemma OneFunctionIsReported(rules: Rules, d: Run, p: Packet, fn: string)
    requires IsPacket(rules, d, p) && d.requested == [fn]
    ensures !Unreported(p, fn)
  {
    RefsExist(rules, d);
    var refs, es := RefsOf(rules, d), d.executions;
    var hits := AllHits(rules, d, refs, es);
    forall x | 0 <= x < |hits| ensures hits[x].result.function_ == fn {
      var i, a := HitsOrigin(rules, d, refs, es, hits[x]);
      assert !IsRogue(d, es[i]);
    }
    ApartReportsAll(rules, d, p, fn);
  }

  // ------------------------------------------------------------ runs of several functions

  const SHARED := Finding(NoSource, "ip", "192.0.2.1", "node", false, false, ["seen"], 0)

  /** Two functions report the same result. */
  function TwoFunctions(): Run {
    Run("m", 1, "domain", "example.org", ["f", "g"], map[],
        [Execution("f", [SHARED], "", ""), Execution("g", [SHARED], "", "")], [])
  }

  lemma SharedIsUsable(d: Run, refs: Refs)
    requires HasRefs(d, refs, SHARED)
    ensures FateOf(d, refs, SHARED).Usable?
  {
    assert ValidTag("seen");
  }

  lemma TwoVerdicts(rules: Rules, p: Packet)
    requires IsPacket(rules, TwoFunctions(), p)
    ensures "g" !in FunctionsOf(p.errors) && "g" !in p.functionsWithoutResults
  {
    var d := TwoFunctions();
    var refs := RefsOf(rules, d);
    assert "g" in d.requested && d.systemErrors == [];
    SecondIsFruitful(rules);
    hide IsPacket, RefsOf, RefsCover, SomeFaulty, SomeFruitful, Heard, Violated, TwoFunctions;
    VerdictMeaning(rules, d, p, "g");
  }

  lemma SecondIsFruitful(rules: Rules)
    ensures var d := TwoFunctions();
            var refs := RefsOf(rules, d);
            && RefsCover(d, refs, d.executions) && !Violated(d) && !SomeFaulty(d, refs, d.executions, "g")
            && SomeFruitful(d, refs, d.executions, "g") && Heard(d, d.executions, "g")
  {
    var d := TwoFunctions();
    var es, refs := d.executions, RefsOf(rules, d);
    RefsExist(rules, d);
    assert es[0].function_ == "f" && es[1].function_ == "g" && "g" != "f";
    assert "g" in d.requested && "f" in d.requested;
    assert !Violated(d);
    assert Linked(d, es[1]) && HasRefs(d, refs, es[1].results[0]);
    SharedIsUsable(d, refs);
    assert FirstRead(d, es, 1) && FateOf(d, refs, es[1].results[0]).Usable?;
    assert Fruitful(d, refs, es, 1);
    assert !Faulty(d, refs, es, 1);
  }

  lemma TwoHits(rules: Rules)
    ensures var d := TwoFunctions();
            var refs := RefsOf(rules, d);
            && RefsCover(d, refs, d.executions) && HasRefs(d, refs, SHARED)
            && AllHits(rules, d, refs, d.executions)
               == [HitOf(rules, d, refs, "f", SHARED), HitOf(rules, d, refs, "g", SHARED)]
  {
    var d := TwoFunctions();
    var es, refs := d.executions, RefsOf(rules, d);
    RefsExist(rules, d);
    assert "g" in d.requested && "f" in d.requested && "f" != "g";
    assert !Violated(d);
    assert Linked(d, es[0]) && Linked(d, es[1]) && HasRefs(d, refs, es[0].results[0]);
    SharedIsUsable(d, refs);
    assert es[..1] == [es[0]] && es[..1][..0] == [] && [SHARED][..0] == [];
    assert Effective(d, es, 1) && Effective(d, es[..1], 0);
    assert HitsOf(rules, d, refs, "f", [SHARED]) == [HitOf(rules, d, refs, "f", SHARED)];
    assert HitsOf(rules, d, refs, "g", [SHARED]) == [HitOf(rules, d, refs, "g", SHARED)];
    assert RefsCover(d, refs, es[..1]) && RefsCover(d, refs, es[..1][..0]);
    assert AllHits(rules, d, refs, es[..1])
           == AllHits(rules, d, refs, es[..1][..0]) + HitsOf(rules, d, refs, "f", [SHARED]);
    assert AllHits(rules, d, refs, es) == AllHits(rules, d, refs, es[..1]) + HitsOf(rules, d, refs, "g", [SHARED]);
  }

  /** The second function leaves no trace: it is neither failed nor silent, and no result bears its name. */
  lemma SecondFunctionIsLost(rules: Rules, p: Packet)
    requires IsPacket(rules, TwoFunctions(), p)
    ensures "g" !in FunctionsOf(p.errors) && "g" !in p.functionsWithoutResults
    ensures forall i, j :: 0 <= i < |p.groups| && 0 <= j < |p.groups[i].results| ==>
              p.groups[i].results[j].function_ == "f"
  {
    TwoVerdicts(rules, p);
    var d := TwoFunctions();
    var refs := RefsOf(rules, d);
    TwoHits(rules);
    ExecutionsInsert(rules, d, refs, d.executions);
    var a, b := HitOf(rules, d, refs, "f", SHARED), HitOf(rules, d, refs, "g", SHARED);
    InsertTwice(rules, a, b);
    hide AllHits, AddExecutions, JudgeFunctions, HitOf, InsertAll;
    forall i, j | 0 <= i < |p.groups| && 0 <= j < |p.groups[i].results|
      ensures p.groups[i].results[j].function_ == "f" {
      assert p.groups[i].results[j] in Tallied(rules, d).groups[p.groups[i].source].Values;
    }
  }

  lemma InsertTwice(rules: Rules, a: Hit, b: Hit)
    requires a.source == b.source && KeyOfResult(a.result) == KeyOfResult(b.result)
    ensures var agg := InsertAll(rules, map[], [a, b]);
            forall src, key :: src in agg && key in agg[src] ==> agg[src][key].function_ == a.result.function_
  {
    InsertLast(rules, map[], [a], b);
    InsertLast(rules, map[], [], a);
    assert [a] + [b] == [a, b] && [] + [a] == [a];
    assert InsertAll(rules, map[], []) == map[];
  }
}
