/**
 The execution log that one `Store` call writes: which (entity, function) pairs get a row,
 and whether the row says success.
 */
module StoreLog {
  import opened Schema
  import opened StoreBatch

  datatype LogEntry = LogEntry(ok: bool, rawData: bool)
  type Log = map<(nat, string), LogEntry>

  function HasRawData(p: Packet, fn: string): bool {
    fn in p.functionRawData && p.functionRawData[fn] != ""
  }

  function RowOf(resolved: map<nat, nat>, v: nat): nat {
    if v in resolved then resolved[v] else 0
  }

  /** Row 0 and the nameless function are never logged; an entry is kept unless raw data turns up. */
  function AddLog(p: Packet, log: Log, entity: nat, fn: string, ok: bool): Log {
    if entity == 0 || fn == "" then log
    else if (entity, fn) !in log || (!log[(entity, fn)].rawData && HasRawData(p, fn))
    then log[(entity, fn) := LogEntry(ok, HasRawData(p, fn))]
    else log
  }

  function LogResult(p: Packet, resolved: map<nat, nat>, log: Log, r: BatchResult): Log {
    if RowOf(resolved, r.targetID) == 0 then log
    else
      var log1 := AddLog(p, log, p.sourceID, r.result.function_, true);
      var log2 := AddLog(p, log1, RowOf(resolved, r.sourceID), r.result.function_, true);
      if r.result.applied then AddLog(p, log2, RowOf(resolved, r.targetID), r.result.function_, true) else log2
  }

  function LogResults(p: Packet, resolved: map<nat, nat>, rs: seq<BatchResult>): Log {
    if rs == [] then map[] else LogResult(p, resolved, LogResults(p, resolved, rs[..|rs| - 1]), rs[|rs| - 1])
  }

  function LogErrors(p: Packet, log: Log, errors: seq<ReportedError>): Log {
    if errors == [] then log
    else AddLog(p, LogErrors(p, log, errors[..|errors| - 1]), p.sourceID, errors[|errors| - 1].function_, false)
  }

  function LogSilent(p: Packet, log: Log, fns: seq<string>): Log {
    if fns == [] then log
    else AddLog(p, LogSilent(p, log, fns[..|fns| - 1]), p.sourceID, fns[|fns| - 1], true)
  }

  function LogEntries(p: Packet, resolved: map<nat, nat>, rs: seq<BatchResult>, errors: seq<ReportedError>): Log {
    LogSilent(p, LogErrors(p, LogResults(p, resolved, rs), errors), p.functionsWithoutResults)
  }

  /** The three loops that fill the log map. */
  method CollectLog(p: Packet, resolved: map<nat, nat>, rs: seq<BatchResult>,
      errors: seq<ReportedError>) returns (log: Log)
    ensures log == LogEntries(p, resolved, rs, errors)
  {
    log := map[];
    for i := 0 to |rs|
      invariant log == LogResults(p, resolved, rs[..i])
    {
      assert rs[..i + 1][..i] == rs[..i];
      log := LogResult(p, resolved, log, rs[i]);
    }
    assert rs[..|rs|] == rs;
    for i := 0 to |errors|
      invariant log == LogErrors(p, LogResults(p, resolved, rs), errors[..i])
    {
      assert errors[..i + 1][..i] == errors[..i];
      log := AddLog(p, log, p.sourceID, errors[i].function_, false);
    }
    assert errors[..|errors|] == errors;
    var fns := p.functionsWithoutResults;
    for i := 0 to |fns|
      invariant log == LogSilent(p, LogErrors(p, LogResults(p, resolved, rs), errors), fns[..i])
    {
      assert fns[..i + 1][..i] == fns[..i];
      log := AddLog(p, log, p.sourceID, fns[i], true);
    }
    assert fns[..|fns|] == fns;
  }

  // ------------------------------------------------------------ what the log says

  predicate Reports(p: Packet, resolved: map<nat, nat>, r: BatchResult, e: nat, fn: string) {
    && r.result.function_ == fn && RowOf(resolved, r.targetID) != 0
    && (e == p.sourceID || e == RowOf(resolved, r.sourceID) || (r.result.applied && e == RowOf(resolved, r.targetID)))
  }

  /** `e` has a result of `fn`: as the packet's source, the result's source, or an applied target. */
  predicate IsReported(p: Packet, resolved: map<nat, nat>, rs: seq<BatchResult>, e: nat, fn: string) {
    exists i :: 0 <= i < |rs| && Reports(p, resolved, rs[i], e, fn)
  }

  predicate Failed(errors: seq<ReportedError>, fn: string) {
    exists i :: 0 <= i < |errors| && errors[i].function_ == fn
  }

  /** The stored raw-data flag is the function's own, so no entry is ever replaced. */
  predicate RawDataKept(p: Packet, log: Log) {
    forall k :: k in log ==> k.0 != 0 && k.1 != "" && log[k].rawData == HasRawData(p, k.1)
  }

  lemma FoundSplit(p: Packet, resolved: map<nat, nat>, rs: seq<BatchResult>, e: nat, fn: string)
    requires rs != []
    ensures IsReported(p, resolved, rs, e, fn) <==>
              IsReported(p, resolved, rs[..|rs| - 1], e, fn) || Reports(p, resolved, rs[|rs| - 1], e, fn)
  {
    var n := |rs| - 1;
    if IsReported(p, resolved, rs, e, fn) {
      var i :| 0 <= i < |rs| && Reports(p, resolved, rs[i], e, fn);
      if i < n {
        assert rs[..n][i] == rs[i];
      }
    }
    if IsReported(p, resolved, rs[..n], e, fn) {
      var i :| 0 <= i < n && Reports(p, resolved, rs[..n][i], e, fn);
      assert Reports(p, resolved, rs[i], e, fn);
    }
  }

  lemma LogResultKeys(p: Packet, resolved: map<nat, nat>, log: Log, r: BatchResult)
    requires RawDataKept(p, log) && forall k :: k in log ==> log[k].ok
    ensures var log' := LogResult(p, resolved, log, r);
            && RawDataKept(p, log') && (forall k :: k in log' ==> log'[k].ok)
            && (forall k :: k in log' <==> k in log || (k.0 != 0 && k.1 != "" && Reports(p, resolved, r, k.0, k.1)))
  {
    if RowOf(resolved, r.targetID) != 0 {
      var fn := r.result.function_;
      AddLogKeys(p, log, p.sourceID, fn);
      var log1 := AddLog(p, log, p.sourceID, fn, true);
      AddLogKeys(p, log1, RowOf(resolved, r.sourceID), fn);
      var log2 := AddLog(p, log1, RowOf(resolved, r.sourceID), fn, true);
      AddLogKeys(p, log2, RowOf(resolved, r.targetID), fn);
      hide AddLog, RawDataKept;
    }
  }

  lemma AddLogKeys(p: Packet, log: Log, e: nat, fn: string)
    requires RawDataKept(p, log) && forall k :: k in log ==> log[k].ok
    ensures var log' := AddLog(p, log, e, fn, true);
            && RawDataKept(p, log') && (forall k :: k in log' ==> log'[k].ok)
            && (forall k :: k in log' <==> k in log || (k == (e, fn) && e != 0 && fn != ""))
  {
  }

  lemma {:induction false} LogResultsMeaning(p: Packet, resolved: map<nat, nat>, rs: seq<BatchResult>)
    ensures var log := LogResults(p, resolved, rs);
            && RawDataKept(p, log)
            && (forall k :: k in log <==> k.0 != 0 && k.1 != "" && IsReported(p, resolved, rs, k.0, k.1))
            && (forall k :: k in log ==> log[k].ok)
    decreases |rs|
  {
    if rs != [] {
      var n := |rs| - 1;
      LogResultsMeaning(p, resolved, rs[..n]);
      LogResultKeys(p, resolved, LogResults(p, resolved, rs[..n]), rs[n]);
      hide Reports, RawDataKept, LogResult, IsReported;
      var log := LogResults(p, resolved, rs);
      forall k: (nat, string) ensures k in log <==> k.0 != 0 && k.1 != "" && IsReported(p, resolved, rs, k.0, k.1) {
        FoundSplit(p, resolved, rs, k.0, k.1);
      }
    } else {
      assert forall k: (nat, string) :: !IsReported(p, resolved, rs, k.0, k.1);
    }
  }

  lemma {:induction false} LogErrorsMeaning(p: Packet, log: Log, errors: seq<ReportedError>)
    requires RawDataKept(p, log)
    ensures var log' := LogErrors(p, log, errors);
            && RawDataKept(p, log')
            && (forall k :: k in log' <==>
                 k in log || (k.0 == p.sourceID && k.0 != 0 && k.1 != "" && Failed(errors, k.1)))
            && (forall k :: k in log' ==> log'[k] == if k in log then log[k] else LogEntry(false, HasRawData(p, k.1)))
    decreases |errors|
  {
    if errors != [] {
      var n := |errors| - 1;
      LogErrorsMeaning(p, log, errors[..n]);
      forall fn: string ensures Failed(errors, fn) <==> Failed(errors[..n], fn) || errors[n].function_ == fn {
        if Failed(errors, fn) {
          var i :| 0 <= i < |errors| && errors[i].function_ == fn;
          if i < n {
            assert errors[..n][i] == errors[i];
          }
        }
        if Failed(errors[..n], fn) {
          var i :| 0 <= i < n && errors[..n][i].function_ == fn;
          assert errors[i].function_ == fn;
        }
      }
    }
  }

  lemma {:induction false} LogSilentMeaning(p: Packet, log: Log, fns: seq<string>)
    requires RawDataKept(p, log)
    ensures var log' := LogSilent(p, log, fns);
            && RawDataKept(p, log')
            && (forall k :: k in log' <==> k in log || (k.0 == p.sourceID && k.0 != 0 && k.1 != "" && k.1 in fns))
            && (forall k :: k in log' ==> log'[k] == if k in log then log[k] else LogEntry(true, HasRawData(p, k.1)))
    decreases |fns|
  {
    if fns != [] {
      var n := |fns| - 1;
      LogSilentMeaning(p, log, fns[..n]);
      assert fns == fns[..n] + [fns[n]];
    }
  }

  /** A pair is logged exactly when the source failed or stayed silent on the function, or the
      entity has a result of it; a result outranks an error, an error outranks silence. */
  lemma LogMeaning(p: Packet, resolved: map<nat, nat>, rs: seq<BatchResult>, errors: seq<ReportedError>, e: nat,
      fn: string)
    ensures var log := LogEntries(p, resolved, rs, errors);
            && ((e, fn) in log <==>
                 e != 0 && fn != "" &&
                 (IsReported(p, resolved, rs, e, fn)
                     || (e == p.sourceID && (Failed(errors, fn) || fn in p.functionsWithoutResults))))
            && ((e, fn) in log ==>
                 log[(e, fn)] == LogEntry(IsReported(p, resolved, rs, e, fn) || !Failed(errors, fn), HasRawData(p, fn)))
  {
    LogResultsMeaning(p, resolved, rs);
    var log1 := LogResults(p, resolved, rs);
    LogErrorsMeaning(p, log1, errors);
    LogSilentMeaning(p, LogErrors(p, log1, errors), p.functionsWithoutResults);
  }
}
