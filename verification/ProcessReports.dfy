/**
 The rest of a packet, told from the module's output: which errors it reports, which raw data it
 carries, and which result gives an entry its function, category and anchor.
 */
module ProcessReports {
  import opened Schema
  import opened Tags
  import opened Reachability
  import opened Processor
  import opened Processing
  import opened Aggregation
  import M = ProcessMeaning

  // ------------------------------------------------------------ raw data

  /** The last execution of the function. */
  predicate LastOf(es: seq<Execution>, i: nat, fn: string) {
    i < |es| && es[i].function_ == fn && forall k :: i < k < |es| ==> es[k].function_ != fn
  }

  ghost predicate RawDataOf(es: seq<Execution>, m: map<string, string>) {
    forall fn: string ::
      && (fn in m <==> exists i :: 0 <= i < |es| && es[i].function_ == fn)
      && forall i: nat :: LastOf(es, i, fn) && fn in m ==> m[fn] == es[i].rawData
  }

  lemma OneRaw(rules: Rules, d: Run, refs: Refs, t: Tally, e: Execution)
    requires (Linked(d, e) ==> AllHaveRefs(d, refs, e.results)) && Started(d).returned <= t.returned
    ensures AddExecution(rules, d, refs, t, e).rawData == t.rawData[e.function_ := e.rawData]
  {
    if Linked(d, e) {
      FindingsKeepReturned(rules, d, refs,
        t.(rawData := t.rawData[e.function_ := e.rawData], returned := t.returned + {e.function_}),
        e.function_, e.results);
    }
  }

  lemma RawGrows(es: seq<Execution>, n: nat, m: map<string, string>)
    requires |es| == n + 1 && RawDataOf(es[..n], m)
    ensures RawDataOf(es, m[es[n].function_ := es[n].rawData])
  {
    var m' := m[es[n].function_ := es[n].rawData];
    assert forall k :: 0 <= k < n ==> es[..n][k] == es[k];
    forall fn: string, i: nat | LastOf(es, i, fn) && fn in m' ensures m'[fn] == es[i].rawData {
      if i < n {
        assert LastOf(es[..n], i, fn);
      }
    }
    forall fn: string ensures fn in m' <==> exists i :: 0 <= i < |es| && es[i].function_ == fn {
      if i :| 0 <= i < n && es[i].function_ == fn {
        assert es[..n][i].function_ == fn;
      }
    }
  }

  lemma {:induction false} ExecutionsRaw(rules: Rules, d: Run, refs: Refs, es: seq<Execution>)
    requires RefsCover(d, refs, es)
    ensures RawDataOf(es, AddExecutions(rules, d, refs, es).rawData)
    decreases |es|
  {
    if es != [] {
      hide RawDataOf, AllHaveRefs, AddExecution, Linked;
      var n := |es| - 1;
      assert es[n] in es && RefsCover(d, refs, es[..n]);
      ExecutionsRaw(rules, d, refs, es[..n]);
      OneRaw(rules, d, refs, AddExecutions(rules, d, refs, es[..n]), es[n]);
      RawGrows(es, n, AddExecutions(rules, d, refs, es[..n]).rawData);
    }
  }

  /** Every function that was executed, asked for or not, has the raw data of its last execution. */
  lemma RawDataMeaning(rules: Rules, d: Run, p: Packet)
    requires IsPacket(rules, d, p)
    ensures RawDataOf(d.executions, p.functionRawData)
  {
    RefsExist(rules, d);
    ExecutionsRaw(rules, d, RefsOf(rules, d), d.executions);
  }

  // ------------------------------------------------------------ errors

  /** The `i`th execution is read: no contract is broken and it is the first of its function. */
  predicate Read(d: Run, i: nat) {
    && i < |d.executions| && M.KeptContract(d)
    && forall k :: 0 <= k < i ==> d.executions[k].function_ != d.executions[i].function_
  }

  predicate Failing(d: Run, fn: string) {
    exists i: nat :: i < |d.executions| && Read(d, i) && d.executions[i].function_ == fn && d.executions[i].error != ""
  }

  ghost predicate BadlyTagged(d: Run, fn: string) {
    exists i: nat, j: nat ::
      && Read(d, i) && d.executions[i].error == "" && d.executions[i].function_ == fn
      && j < |d.executions[i].results| && !M.WellTagged(d.executions[i].results[j])
  }

  ghost predicate Incomplete(rules: Rules, d: Run, fn: string) {
    exists i: nat, j: nat ::
      && Read(d, i) && d.executions[i].error == "" && d.executions[i].function_ == fn
      && j < |d.executions[i].results|
      && var f := d.executions[i].results[j];
         M.WellTagged(f) && !M.Repeats(rules, d, f) && M.HalfNamed(f)
  }

  predicate SystemError(d: Run, e: ReportedError) {
    exists i :: 0 <= i < |d.systemErrors| && d.systemErrors[i] == e
  }

  /** An error that is on record before the requested functions are judged. */
  ghost predicate Occurs(rules: Rules, d: Run, e: ReportedError) {
    || SystemError(d, e)
    || (e.errorType == "contract_violation" && !M.KeptContract(d) && e.function_ in d.requested)
    || (e.errorType == "function_error" && Failing(d, e.function_))
    || (e.errorType == "invalid_tag_format" && BadlyTagged(d, e.function_))
    || (e.errorType == "incomplete_data" && Incomplete(rules, d, e.function_))
  }

  predicate Executed(d: Run, fn: string) {
    exists i :: 0 <= i < |d.executions| && d.executions[i].function_ == fn
  }

  /** A requested function without any execution, and without any other error of its own, is missing. */
  ghost predicate Missing(rules: Rules, d: Run, fn: string) {
    fn in d.requested && !Executed(d, fn) && forall e: ReportedError :: e.function_ == fn ==> !Occurs(rules, d, e)
  }

  predicate HasError(errors: seq<ReportedError>, e: ReportedError) {
    exists i :: 0 <= i < |errors| && errors[i] == e
  }

  lemma ErrorAppend(errors: seq<ReportedError>, last: ReportedError, e: ReportedError)
    ensures HasError(errors + [last], e) <==> HasError(errors, e) || e == last
  {
    assert (errors + [last])[|errors|] == last;
    assert forall i :: 0 <= i < |errors| ==> (errors + [last])[i] == errors[i];
  }

  /** One of the results has that fate. */
  ghost predicate AnyFate(d: Run, refs: Refs, rs: seq<Finding>, kind: string)
    requires AllHaveRefs(d, refs, rs)
  {
    exists j :: 0 <= j < |rs| && FateError(d, refs, rs[j]) == kind
  }

  function FateError(d: Run, refs: Refs, f: Finding): string
    requires HasRefs(d, refs, f)
  {
    match FateOf(d, refs, f)
    case BadTag => "invalid_tag_format"
    case Incomplete => "incomplete_data"
    case _ => ""
  }

  lemma {:induction false} FindingsErrors(rules: Rules, d: Run, refs: Refs, t: Tally, fn: string, rs: seq<Finding>,
      e: ReportedError)
    requires AllHaveRefs(d, refs, rs)
    ensures HasError(AddFindings(rules, d, refs, t, fn, rs).errors, e) <==>
              HasError(t.errors, e) || (e.function_ == fn && e.errorType != "" && AnyFate(d, refs, rs, e.errorType))
    decreases |rs|
  {
    if rs != [] {
      var n := |rs| - 1;
      hide HasError, FateError, AddFinding, AnyFate, HasRefs;
      FindingsErrors(rules, d, refs, t, fn, rs[..n], e);
      OneFindingErrors(rules, d, refs, AddFindings(rules, d, refs, t, fn, rs[..n]), fn, rs[n], e);
      FateSplit(d, refs, rs, n, e.errorType);
    } else {
      assert !AnyFate(d, refs, [], e.errorType);
    }
  }

  lemma FateSplit(d: Run, refs: Refs, rs: seq<Finding>, n: nat, kind: string)
    requires |rs| == n + 1 && AllHaveRefs(d, refs, rs)
    ensures AnyFate(d, refs, rs, kind) <==> AnyFate(d, refs, rs[..n], kind) || FateError(d, refs, rs[n]) == kind
  {
    assert forall j :: 0 <= j < n ==> rs[..n][j] == rs[j];
    hide FateError;
  }

  lemma OneFindingErrors(rules: Rules, d: Run, refs: Refs, t: Tally, fn: string, f: Finding, e: ReportedError)
    requires HasRefs(d, refs, f)
    ensures HasError(AddFinding(rules, d, refs, t, fn, f).errors, e) <==>
              HasError(t.errors, e) || (e.function_ == fn && e.errorType != "" && FateError(d, refs, f) == e.errorType)
  {
    hide HasError, Insert, Judged;
    ErrorAppend(t.errors, ReportedError(fn, "invalid_tag_format"), e);
    ErrorAppend(t.errors, ReportedError(fn, "incomplete_data"), e);
    hide FateOf;
  }

  /** What the execution adds to the errors when it is read. */
  ghost predicate Adds(d: Run, refs: Refs, x: Execution, e: ReportedError)
    requires Linked(d, x) ==> AllHaveRefs(d, refs, x.results)
  {
    && e.function_ == x.function_
    && if x.error != "" then e.errorType == "function_error"
       else Linked(d, x) && e.errorType != "" && AnyFate(d, refs, x.results, e.errorType)
  }

  lemma OneExecutionErrors(rules: Rules, d: Run, refs: Refs, t: Tally, x: Execution, e: ReportedError)
    requires (Linked(d, x) ==> AllHaveRefs(d, refs, x.results)) && Started(d).returned <= t.returned
    ensures HasError(AddExecution(rules, d, refs, t, x).errors, e) <==>
              HasError(t.errors, e) || (!Skipped(d, t.returned, x) && Adds(d, refs, x, e))
  {
    hide HasError, AnyFate;
    if !Skipped(d, t.returned, x) {
      var t2 := t.(rawData := t.rawData[x.function_ := x.rawData], returned := t.returned + {x.function_});
      if x.error != "" {
        ErrorAppend(t.errors, ReportedError(x.function_, "function_error"), e);
      } else {
        assert Linked(d, x);
        FindingsErrors(rules, d, refs, t2, x.function_, x.results, e);
      }
    }
  }

  ghost predicate SomeAdds(d: Run, refs: Refs, es: seq<Execution>, e: ReportedError)
    requires RefsCover(d, refs, es)
  {
    exists i :: 0 <= i < |es| && FirstRead(d, es, i) && Adds(d, refs, es[i], e)
  }

  lemma {:induction false} ExecutionsErrors(rules: Rules, d: Run, refs: Refs, es: seq<Execution>, e: ReportedError)
    requires RefsCover(d, refs, es)
    ensures HasError(AddExecutions(rules, d, refs, es).errors, e) <==>
              HasError(Started(d).errors, e) || SomeAdds(d, refs, es, e)
    decreases |es|
  {
    if es != [] {
      var n := |es| - 1;
      assert RefsCover(d, refs, es[..n]);
      ExecutionsErrors(rules, d, refs, es[..n], e);
      var t := AddExecutions(rules, d, refs, es[..n]);
      OneExecutionErrors(rules, d, refs, t, es[n], e);
      ReturnedMeaning(rules, d, refs, es[..n]);
      ReadNow(d, es, n, t);
      AddsSplit(d, refs, es, n, e);
      hide HasError, Adds, AddExecution, FirstRead, Skipped, SomeAdds;
    }
  }

  lemma ReadNow(d: Run, es: seq<Execution>, n: nat, t: Tally)
    requires n < |es| && forall fn :: fn in t.returned <==> fn in Started(d).returned || Heard(d, es[..n], fn)
    ensures FirstRead(d, es, n) <==> !Skipped(d, t.returned, es[n])
  {
    assert forall k :: 0 <= k < n ==> es[..n][k] == es[k];
    if !IsRogue(d, es[n]) {
      forall k | 0 <= k < n && es[k].function_ == es[n].function_ ensures es[n].function_ in t.returned {
        assert !IsRogue(d, es[..n][k]) && es[..n][k].function_ == es[n].function_;
      }
    }
  }

  lemma AddsSplit(d: Run, refs: Refs, es: seq<Execution>, n: nat, e: ReportedError)
    requires |es| == n + 1 && RefsCover(d, refs, es) && RefsCover(d, refs, es[..n])
    ensures SomeAdds(d, refs, es, e) <==>
              SomeAdds(d, refs, es[..n], e) || (FirstRead(d, es, n) && Adds(d, refs, es[n], e))
  {
    assert forall k :: 0 <= k < n ==> es[..n][k] == es[k];
    hide Adds, Linked, AllHaveRefs, Started, Skipped;
    forall k | 0 <= k < n ensures FirstRead(d, es[..n], k) == FirstRead(d, es, k) {
    }
    hide FirstRead;
  }

  // ------------------------------------------------------------ the processor's errors in these terms

  lemma ContractMeaning(d: Run)
    ensures Violated(d) <==> !M.KeptContract(d)
  {
    if !M.KeptContract(d) {
      var k :| 0 <= k < |d.executions| && !M.Asked(d, d.executions[k].function_);
      assert IsRogue(d, d.executions[k]);
    }
  }

  lemma ReadMeaning(d: Run, i: nat)
    requires i < |d.executions|
    ensures FirstRead(d, d.executions, i) <==> Read(d, i)
  {
    ContractMeaning(d);
  }

  lemma StartErrors(d: Run, e: ReportedError)
    ensures HasError(Started(d).errors, e) <==>
              || SystemError(d, e)
              || (e.errorType == "contract_violation" && !M.KeptContract(d) && e.function_ in d.requested)
  {
    ContractMeaning(d);
    var vs := Violations(d.requested);
    if Violated(d) {
      var all := d.systemErrors + vs;
      assert Started(d).errors == all;
      assert forall i :: 0 <= i < |d.systemErrors| ==> all[i] == d.systemErrors[i];
      assert forall i :: 0 <= i < |vs| ==> all[|d.systemErrors| + i] == vs[i];
      if e.errorType == "contract_violation" && e.function_ in d.requested {
        var i :| 0 <= i < |d.requested| && d.requested[i] == e.function_;
        assert all[|d.systemErrors| + i] == e;
      }
    }
  }

  lemma AddsMeaning(rules: Rules, d: Run, i: nat, e: ReportedError)
    requires Read(d, i) && (Linked(d, d.executions[i]) ==> AllHaveRefs(d, RefsOf(rules, d), d.executions[i].results))
    ensures Adds(d, RefsOf(rules, d), d.executions[i], e) <==>
              && e.function_ == d.executions[i].function_
              && (|| (d.executions[i].error != "" && e.errorType == "function_error")
                  || (d.executions[i].error == "" && e.errorType == "invalid_tag_format"
                      && exists j: nat :: j < |d.executions[i].results| && !M.WellTagged(d.executions[i].results[j]))
                  || (d.executions[i].error == "" && e.errorType == "incomplete_data"
                      && exists j: nat :: j < |d.executions[i].results| && M.WellTagged(d.executions[i].results[j])
                                          && !M.Repeats(rules, d, d.executions[i].results[j])
                                          && M.HalfNamed(d.executions[i].results[j])))
  {
    var x, refs := d.executions[i], RefsOf(rules, d);
    ContractMeaning(d);
    LinkedMeaning(d, x);
    if x.error == "" {
      assert !IsRogue(d, x) by { assert M.Asked(d, x.function_); }
      forall j: nat | j < |x.results|
        ensures FateError(d, refs, x.results[j]) == "invalid_tag_format" <==> !M.WellTagged(x.results[j])
        ensures FateError(d, refs, x.results[j]) == "incomplete_data" <==>
                  M.WellTagged(x.results[j]) && !M.Repeats(rules, d, x.results[j]) && M.HalfNamed(x.results[j])
        ensures FateError(d, refs, x.results[j]) in {"", "invalid_tag_format", "incomplete_data"}
      {
        M.FateMeaning(rules, d, x.results[j]);
        KindsDiffer();
      }
      hide RefsOf, FateError, M.WellTagged, M.Repeats, M.HalfNamed, Linked, Violated;
    }
  }

  lemma KindsDiffer()
    ensures "invalid_tag_format" != "incomplete_data" && "" != "invalid_tag_format" && "" != "incomplete_data"
  {
    assert "invalid_tag_format"[2] == 'v' && "incomplete_data"[2] == 'c';
  }

  lemma AddsOccur(rules: Rules, d: Run, e: ReportedError)
    requires RefsCover(d, RefsOf(rules, d), d.executions)
    ensures SomeAdds(d, RefsOf(rules, d), d.executions, e) <==>
              || (e.errorType == "function_error" && Failing(d, e.function_))
              || (e.errorType == "invalid_tag_format" && BadlyTagged(d, e.function_))
              || (e.errorType == "incomplete_data" && Incomplete(rules, d, e.function_))
  {
    forall i: nat | i < |d.executions| ensures FirstRead(d, d.executions, i) <==> Read(d, i) {
      ReadMeaning(d, i);
    }
    hide RefsOf, FirstRead, Adds, M.WellTagged, M.Repeats, M.HalfNamed, Read;
    forall i: nat | Read(d, i) && i < |d.executions|
      ensures Adds(d, RefsOf(rules, d), d.executions[i], e) ==>
                || (e.errorType == "function_error" && Failing(d, e.function_))
                || (e.errorType == "invalid_tag_format" && BadlyTagged(d, e.function_))
                || (e.errorType == "incomplete_data" && Incomplete(rules, d, e.function_))
    {
      AddsMeaning(rules, d, i, e);
    }
    if e.errorType == "function_error" && Failing(d, e.function_) {
      var i: nat :| i < |d.executions| && Read(d, i) && d.executions[i].function_ == e.function_
          && d.executions[i].error != "";
      AddsMeaning(rules, d, i, e);
    }
    if e.errorType == "invalid_tag_format" && BadlyTagged(d, e.function_) {
      BadTagAdds(rules, d, e);
    }
    if e.errorType == "incomplete_data" && Incomplete(rules, d, e.function_) {
      IncompleteAdds(rules, d, e);
    }
  }

  lemma BadTagAdds(rules: Rules, d: Run, e: ReportedError)
    requires RefsCover(d, RefsOf(rules, d), d.executions) && e.errorType == "invalid_tag_format"
             && BadlyTagged(d, e.function_)
    ensures SomeAdds(d, RefsOf(rules, d), d.executions, e)
  {
    var i: nat, j: nat :| Read(d, i) && d.executions[i].error == "" && d.executions[i].function_ == e.function_
        && j < |d.executions[i].results| && !M.WellTagged(d.executions[i].results[j]);
    ReadMeaning(d, i);
    AddsMeaning(rules, d, i, e);
  }

  lemma IncompleteAdds(rules: Rules, d: Run, e: ReportedError)
    requires RefsCover(d, RefsOf(rules, d), d.executions) && e.errorType == "incomplete_data"
             && Incomplete(rules, d, e.function_)
    ensures SomeAdds(d, RefsOf(rules, d), d.executions, e)
  {
    var i: nat, j: nat :| Read(d, i) && d.executions[i].error == "" && d.executions[i].function_ == e.function_
        && j < |d.executions[i].results|
        && M.WellTagged(d.executions[i].results[j]) && !M.Repeats(rules, d, d.executions[i].results[j])
        && M.HalfNamed(d.executions[i].results[j]);
    ReadMeaning(d, i);
    AddsMeaning(rules, d, i, e);
  }

  lemma TalliedErrors(rules: Rules, d: Run, e: ReportedError)
    ensures HasError(Tallied(rules, d).errors, e) <==> Occurs(rules, d, e)
  {
    RefsExist(rules, d);
    ExecutionsErrors(rules, d, RefsOf(rules, d), d.executions, e);
    StartErrors(d, e);
    AddsOccur(rules, d, e);
    hide RefsOf, HasError, SomeAdds, Failing, BadlyTagged, Incomplete, SystemError, M.KeptContract, Started,
         AddExecutions;
  }

  // ------------------------------------------------------------ the verdict's errors

  lemma {:induction false} JudgedErrors(t: Tally, fns: seq<string>, e: ReportedError)
    ensures HasError(JudgeFunctions(t, fns).errors, e) <==>
              || HasError(t.errors, e)
              || (e.errorType == "missing_function" && e.function_ in fns && e.function_ !in t.failed
                  && e.function_ !in t.returned)
    ensures forall fn :: fn in JudgeFunctions(t, fns).failed <==> fn in t.failed || (fn in fns && fn !in t.returned)
    decreases |fns|
  {
    if fns != [] {
      var n := |fns| - 1;
      JudgedErrors(t, fns[..n], e);
      assert fns == fns[..n] + [fns[n]];
      ErrorAppend(JudgeFunctions(t, fns[..n]).errors, ReportedError(fns[n], "missing_function"), e);
      hide HasError;
    }
  }

  lemma FailedMeansError(errors: seq<ReportedError>, fn: string)
    ensures fn in FunctionsOf(errors) <==> exists e: ReportedError :: e.function_ == fn && HasError(errors, e)
  {
    if fn in FunctionsOf(errors) {
      var i :| 0 <= i < |errors| && errors[i].function_ == fn;
      assert HasError(errors, errors[i]);
    }
  }

  /** For every run and its packet: an error is reported exactly when it occurs, or its function is missing. */
  lemma ErrorsMeaning(rules: Rules, d: Run, p: Packet, e: ReportedError)
    requires IsPacket(rules, d, p)
    ensures HasError(p.errors, e) <==>
              Occurs(rules, d, e) || (e.errorType == "missing_function" && Missing(rules, d, e.function_))
  {
    RefsExist(rules, d);
    var t := Tallied(rules, d);
    JudgedErrors(t, d.requested, e);
    TalliedErrors(rules, d, e);
    ExecutionsNamed(rules, d, RefsOf(rules, d), d.executions);
    FailedMeansError(t.errors, e.function_);
    forall x: ReportedError ensures HasError(t.errors, x) <==> Occurs(rules, d, x) {
      TalliedErrors(rules, d, x);
    }
    NotReturned(rules, d, e.function_);
    hide RefsOf, HasError, Occurs, AddExecutions, Tallied, JudgeFunctions, FunctionsOf, Executed;
  }

  /** A requested function that did not fail has returned exactly when it was executed. */
  lemma NotReturned(rules: Rules, d: Run, fn: string)
    ensures fn in d.requested && fn !in Tallied(rules, d).failed ==>
              (fn !in Tallied(rules, d).returned <==> !Executed(d, fn))
  {
    RefsExist(rules, d);
    ReturnedMeaning(rules, d, RefsOf(rules, d), d.executions);
    ExecutionsVerdict(rules, d, RefsOf(rules, d), d.executions);
    if fn in d.requested {
      StartedFails(d, fn);
      assert Executed(d, fn) <==> Heard(d, d.executions, fn);
    }
    hide RefsOf, AddExecutions, SomeFaulty, SomeFruitful;
  }
}
