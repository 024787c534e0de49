/**
 Nothing gets lost on its way through the crawl, over every run: each function of a started item
 is executed, each execution is waited for and settled once, what it delivers reaches one call of
 `Process`, each packet reported there is stored, and each item the repository hands back gets a
 goroutine.  The laws count the actions of the run.
 */
module PipelineFlow {
  import opened Schema
  import opened StoreResult
  import opened Sums
  import opened Pipeline
  import opened PipelineSafety

  type Gain = (State, Action) -> nat

  /** What the first `k` steps of a run add up to. */
  ghost function Tally(states: seq<State>, actions: seq<Action>, k: nat, gain: Gain): nat
    requires k <= |actions| && k <= |states|
  {
    if k == 0 then 0 else Tally(states, actions, k - 1, gain) + gain(states[k - 1], actions[k - 1])
  }

  function One(b: bool): nat {
    if b then 1 else 0
  }

  // ------------------------------------------------------------ module results reach Process

  /** Results that a running item holds, and those it still has to hand over. */
  function Undelivered(i: Item): nat {
    match i
    case ItemRunning(calls) => Packets(calls)
    case ItemHandover(k) => k
    case _ => 0
  }

  /** The execution that a settled call waited for. */
  function Awaited(s: State, i: nat, c: nat): nat {
    if HasCall(s, i, c) && CallAt(s, i, c).CallRunning? then CallAt(s, i, c).exec else |s.execs|
  }

  /** The step receives an execution that returned a result, or gives one up, which is reported as a timeout. */
  predicate Delivers(s: State, a: Action) {
    match a
    case CallReceive(i, c) =>
      var e := Awaited(s, i, c);
      e < |s.execs| && s.execs[e].ExecReturned? && s.execs[e].packet
    case CallTimeout(_, _) => true
    case _ => false
  }

  function DeliveryOf(): Gain {
    (s: State, a: Action) => One(Delivers(s, a))
  }

  ghost function Owed(s: State): nat {
    |s.procs| + Sum(s.items, Undelivered)
  }

  /** A step touches one item, appends one, or leaves them alone; only an acquired call starts an execution. */
  lemma ItemsAfter(cfg: Config, s: State, a: Action)
    requires Enabled(cfg, s, a)
    ensures var s' := Apply(cfg, s, a);
            && (SetsItem(a) ==> a.i < |s.items| && a.i < |s'.items| && s'.items == s.items[a.i := s'.items[a.i]])
            && (!SetsItem(a) ==> s'.items == if a.LoopSpawn? then s.items + [ItemWaiting] else s.items)
            && |s'.execs| == |s.execs| + One(a.CallAcquire?)
            && (!SetsItem(a) ==> |s'.procs| == |s.procs|)
  {
    if SetsItem(a) {
      OneItemAfter(cfg, s, a);
    } else {
      hide Packets, SemOf, AllDone, TotalResults, StoreMayReturn;
    }
  }

  lemma OneItemAfter(cfg: Config, s: State, a: Action)
    requires Enabled(cfg, s, a) && SetsItem(a)
    ensures var s' := Apply(cfg, s, a);
            && a.i < |s.items| && a.i < |s'.items| && s'.items == s.items[a.i := s'.items[a.i]]
            && |s'.execs| == |s.execs| + One(a.CallAcquire?)
  {
    hide Packets, SemOf, AllDone, TotalResults;
  }

  /** What a step of a call does to its item. */
  lemma CallEffect(cfg: Config, s: State, a: Action)
    requires Enabled(cfg, s, a) && (a.CallAcquire? || a.CallReceive? || a.CallTimeout?)
    ensures var s' := Apply(cfg, s, a);
            && HasCall(s, a.i, a.c) && a.i < |s'.items| && HasCall(s', a.i, a.c)
            && s'.items[a.i].calls == s.items[a.i].calls[a.c := CallAt(s', a.i, a.c)]
            && (if a.CallAcquire? then
                  && CallAt(s, a.i, a.c).CallWaiting?
                  && CallAt(s', a.i, a.c) == CallRunning(CallAt(s, a.i, a.c).fn, |s.execs|)
                else CallAt(s, a.i, a.c).CallRunning? && CallAt(s', a.i, a.c).CallDone?)
  {
    hide SemOf, AllDone;
  }

  /** What starting, finishing and handing over does to an item. */
  lemma ItemEffect(cfg: Config, s: State, a: Action)
    requires Enabled(cfg, s, a) && (a.ItemStart? || a.ItemFinish? || a.ItemSpawnProc?)
    ensures var s' := Apply(cfg, s, a);
            && a.i < |s.items| && a.i < |s'.items|
            && (a.ItemStart? ==> s.items[a.i].ItemWaiting? && s'.items[a.i] == ItemRunning(Waiting(a.fns)))
            && (a.ItemFinish? ==>
                  s.items[a.i].ItemRunning? && AllDone(s.items[a.i].calls) && !s'.items[a.i].ItemRunning?)
            && (a.ItemSpawnProc? ==> !s.items[a.i].ItemRunning? && !s'.items[a.i].ItemRunning?)
  {
    hide SemOf, AllDone, Packets;
  }

  lemma {:induction false} PacketsUpdate(calls: seq<Call>, c: nat, call: Call)
    requires c < |calls| && !calls[c].CallDone?
    ensures Packets(calls[c := call]) == Packets(calls) + One(call.CallDone? && call.packet)
    decreases |calls|
  {
    if c > 0 {
      assert calls[c := call][1..] == calls[1..][c - 1 := call];
      PacketsUpdate(calls[1..], c - 1, call);
    } else {
      assert calls[0 := call][1..] == calls[1..];
    }
  }

  lemma {:induction false} NoPackets(fns: seq<string>)
    ensures Packets(Waiting(fns)) == 0
    decreases |fns|
  {
    if fns != [] {
      assert Waiting(fns)[1..] == Waiting(fns[1..]);
      NoPackets(fns[1..]);
    }
  }

  /** What a step does to the item it is about. */
  lemma UndeliveredItem(cfg: Config, s: State, a: Action)
    requires Enabled(cfg, s, a) && (a.ItemStart? || a.CallAcquire? || a.CallReceive? || a.CallTimeout?)
    ensures var s' := Apply(cfg, s, a);
            && a.i < |s.items| && s'.procs == s.procs && s'.items == s.items[a.i := s'.items[a.i]]
            && Undelivered(s'.items[a.i]) == Undelivered(s.items[a.i]) + One(Delivers(s, a))
  {
    var s' := Apply(cfg, s, a);
    if a.ItemStart? {
      NoPackets(a.fns);
    } else {
      PacketsUpdate(s.items[a.i].calls, a.c, s'.items[a.i].calls[a.c]);
    }
    hide Packets, SemOf;
  }

  lemma UndeliveredHandover(cfg: Config, s: State, a: Action)
    requires Enabled(cfg, s, a) && (a.ItemFinish? || a.ItemSpawnProc?)
    ensures var s' := Apply(cfg, s, a);
            && a.i < |s.items| && s'.items == s.items[a.i := s'.items[a.i]]
            && |s'.procs| + Undelivered(s'.items[a.i]) == |s.procs| + Undelivered(s.items[a.i])
  {
    hide Packets, SemOf, AllDone;
  }

  lemma DeliveryStepItem(cfg: Config, s: State, a: Action)
    requires Enabled(cfg, s, a) && SetsItem(a)
    ensures Owed(Apply(cfg, s, a)) == Owed(s) + One(Delivers(s, a))
  {
    var s' := Apply(cfg, s, a);
    if a.ItemFinish? || a.ItemSpawnProc? {
      UndeliveredHandover(cfg, s, a);
    } else {
      UndeliveredItem(cfg, s, a);
    }
    hide Sum, Undelivered, Enabled, Apply;
    SumUpdate(s.items, a.i, s'.items[a.i], Undelivered);
  }

  lemma DeliveryStep(cfg: Config, s: State, a: Action)
    requires Enabled(cfg, s, a)
    ensures Owed(Apply(cfg, s, a)) == Owed(s) + One(Delivers(s, a))
  {
    ItemsAfter(cfg, s, a);
    if SetsItem(a) {
      DeliveryStepItem(cfg, s, a);
    } else {
      hide Enabled, Apply, Sum, Undelivered;
      assert Undelivered(ItemWaiting) == 0 by { WaitingHoldsNothing(); }
      SumAppend(s.items, ItemWaiting, Undelivered);
    }
  }

  lemma WaitingHoldsNothing()
    ensures Undelivered(ItemWaiting) == 0
  {
  }

  /** The calls of `Process` that were started, with the results still on their way to one, are the
      injected call, the executions received with a result, and the timeouts. */
  lemma {:induction false} ResultsReachProcess(cfg: Config, states: seq<State>, actions: seq<Action>, k: nat)
    requires IsRun(cfg, states, actions) && k < |states|
    ensures |states[k].procs| + Sum(states[k].items, Undelivered)
            == |states[0].procs| + Tally(states, actions, k, DeliveryOf())
    decreases k
  {
    hide Enabled, Apply, Packets, Delivers;
    if k == 0 {
      assert Sum([], Undelivered) == 0;
    } else {
      hide Init;
      ResultsReachProcess(cfg, states, actions, k - 1);
      DeliveryStep(cfg, states[k - 1], actions[k - 1]);
    }
  }

  lemma {:induction false} NothingUndelivered(items: seq<Item>)
    requires forall i :: 0 <= i < |items| ==> Undelivered(items[i]) == 0
    ensures Sum(items, Undelivered) == 0
    decreases |items|
  {
    if items != [] {
      NothingUndelivered(items[..|items| - 1]);
    }
  }

  /** When all goroutines have ended, the calls of `Process` are exactly these. */
  lemma AllResultsProcessed(cfg: Config, states: seq<State>, actions: seq<Action>, k: nat)
    requires IsRun(cfg, states, actions) && k < |states| && Terminal(states[k])
    ensures |states[k].procs| == |states[0].procs| + Tally(states, actions, k, DeliveryOf())
  {
    hide IsRun, Packets;
    ResultsReachProcess(cfg, states, actions, k);
    RunInv(cfg, states, actions, k);
    ClosedMeansNoSender(cfg, states[k]);
    forall i | 0 <= i < |states[k].items| ensures Undelivered(states[k].items[i]) == 0 {
      assert ItemTokens(states[k].items[i]) == 0;
    }
    NothingUndelivered(states[k].items);
  }

  // ------------------------------------------------------------ executions keep what they returned

  /** Only acquiring and returning touch the executions. */
  lemma SameExecs(cfg: Config, s: State, a: Action)
    requires Enabled(cfg, s, a) && !a.CallAcquire? && !a.ExecReturn?
    ensures Apply(cfg, s, a).execs == s.execs
  {
    hide Packets, Sum, SemOf, AllDone, TotalResults, StoreMayReturn;
  }

  lemma ExecOutcome(cfg: Config, s: State, a: Action, e: nat)
    requires Enabled(cfg, s, a) && e < |s.execs|
    ensures var s' := Apply(cfg, s, a);
            && e < |s'.execs|
            && s'.execs[e] == (if a.ExecReturn? && a.e == e then ExecReturned(s.execs[e].fn, a.packet) else s.execs[e])
            && (a.ExecReturn? && a.e == e ==> s.execs[e].ExecRunning?)
  {
    if !a.CallAcquire? && !a.ExecReturn? {
      SameExecs(cfg, s, a);
      hide Enabled, Apply;
    }
  }

  lemma NewExec(cfg: Config, s: State, a: Action, e: nat)
    requires Enabled(cfg, s, a) && |s.execs| <= e < |Apply(cfg, s, a).execs|
    ensures a.CallAcquire? && Apply(cfg, s, a).execs[e] == ExecRunning(CallAt(s, a.i, a.c).fn)
  {
    if !a.CallAcquire? && !a.ExecReturn? {
      SameExecs(cfg, s, a);
      hide Enabled, Apply;
      assert false;
    }
  }

  predicate Returned(actions: seq<Action>, k: nat, e: nat, packet: bool)
    requires k <= |actions|
  {
    exists j :: 0 <= j < k && actions[j] == ExecReturn(e, packet)
  }

  lemma ReturnedNext(actions: seq<Action>, k: nat, e: nat, packet: bool)
    requires k < |actions|
    ensures Returned(actions, k + 1, e, packet) <==>
              Returned(actions, k, e, packet) || actions[k] == ExecReturn(e, packet)
  {
  }

  lemma LastStep(cfg: Config, states: seq<State>, actions: seq<Action>, k: nat)
    requires IsRun(cfg, states, actions) && 0 < k < |states|
    ensures |actions| + 1 == |states| && Enabled(cfg, states[k - 1], actions[k - 1])
    ensures states[k] == Apply(cfg, states[k - 1], actions[k - 1])
  {
    hide Enabled, Apply, Init;
  }

  /** An execution has returned with or without a result exactly when such a return was a step of the run. */
  lemma {:induction false} ReturnedMeaning(
    cfg: Config, states: seq<State>, actions: seq<Action>, k: nat, e: nat, packet: bool)
    requires IsRun(cfg, states, actions) && k < |states| && e < |states[k].execs|
    ensures (states[k].execs[e].ExecReturned? && states[k].execs[e].packet == packet) <==>
              Returned(actions, k, e, packet)
    decreases k
  {
    if k != 0 {
      var s, a := states[k - 1], actions[k - 1];
      LastStep(cfg, states, actions, k);
      hide Enabled, Apply, Returned, IsRun;
      ReturnedNext(actions, k - 1, e, packet);
      if e < |s.execs| {
        ReturnedMeaning(cfg, states, actions, k - 1, e, packet);
        ExecOutcome(cfg, s, a, e);
      } else {
        NewExec(cfg, s, a, e);
        NotYetReturned(cfg, states, actions, k - 1, e, packet);
      }
    }
  }

  lemma ExecsGrow(cfg: Config, s: State, a: Action)
    requires Enabled(cfg, s, a)
    ensures |s.execs| <= |Apply(cfg, s, a).execs| && (a.ExecReturn? ==> a.e < |s.execs|)
  {
    if !a.CallAcquire? && !a.ExecReturn? {
      SameExecs(cfg, s, a);
      hide Enabled, Apply;
    }
  }

  lemma {:induction false} NotYetReturned(
    cfg: Config, states: seq<State>, actions: seq<Action>, k: nat, e: nat, packet: bool)
    requires IsRun(cfg, states, actions) && k < |states| && |states[k].execs| <= e
    ensures !Returned(actions, k, e, packet)
    decreases k
  {
    hide Enabled, Apply, Init;
    if k != 0 {
      ExecsGrow(cfg, states[k - 1], actions[k - 1]);
      NotYetReturned(cfg, states, actions, k - 1, e, packet);
      ReturnedNext(actions, k - 1, e, packet);
    }
  }

  // ------------------------------------------------------------ every execution is settled once

  function AwaitingCall(e: nat): Call -> nat {
    (c: Call) => One(c.CallRunning? && c.exec == e)
  }

  /** The calls of an item that wait for execution `e`. */
  ghost function Awaiting(e: nat): Item -> nat {
    (i: Item) => if i.ItemRunning? then Sum(i.calls, AwaitingCall(e)) else 0
  }

  /** The step ends a wait for execution `e`: by its return or by a timeout. */
  predicate Settles(s: State, a: Action, e: nat) {
    match a
    case CallReceive(i, c) => HasCall(s, i, c) && CallAt(s, i, c).CallRunning? && CallAt(s, i, c).exec == e
    case CallTimeout(i, c) => HasCall(s, i, c) && CallAt(s, i, c).CallRunning? && CallAt(s, i, c).exec == e
    case _ => false
  }

  function SettlingOf(e: nat): Gain {
    (s: State, a: Action) => One(Settles(s, a, e))
  }

  lemma {:induction false} NoneAwaited(calls: seq<Call>, e: nat)
    requires forall c <- calls :: !c.CallRunning?
    ensures Sum(calls, AwaitingCall(e)) == 0
    decreases |calls|
  {
    if calls != [] {
      assert forall c <- calls[..|calls| - 1] :: c in calls;
      NoneAwaited(calls[..|calls| - 1], e);
    }
  }

  lemma SettleItem(cfg: Config, s: State, a: Action, e: nat)
    requires Enabled(cfg, s, a) && SetsItem(a)
    ensures var s' := Apply(cfg, s, a);
            && a.i < |s.items| && a.i < |s'.items|
            && Awaiting(e)(s'.items[a.i]) + One(Settles(s, a, e))
               == Awaiting(e)(s.items[a.i]) + One(a.CallAcquire? && e == |s.execs|)
  {
    var s' := Apply(cfg, s, a);
    hide Enabled, Apply, Sum;
    if a.CallAcquire? || a.CallReceive? || a.CallTimeout? {
      CallEffect(cfg, s, a);
      SumUpdate(s.items[a.i].calls, a.c, CallAt(s', a.i, a.c), AwaitingCall(e));
    } else {
      ItemEffect(cfg, s, a);
      if a.ItemStart? {
        NoneAwaited(Waiting(a.fns), e);
      } else if a.ItemFinish? {
        NoneAwaited(s.items[a.i].calls, e);
      }
    }
  }

  lemma SettleStep(cfg: Config, s: State, a: Action, e: nat)
    requires Enabled(cfg, s, a)
    ensures var s' := Apply(cfg, s, a);
            && Sum(s'.items, Awaiting(e)) + One(Settles(s, a, e))
               == Sum(s.items, Awaiting(e)) + One(a.CallAcquire? && e == |s.execs|)
            && |s'.execs| == |s.execs| + One(a.CallAcquire?)
  {
    ItemsAfter(cfg, s, a);
    var s' := Apply(cfg, s, a);
    if SetsItem(a) {
      SettleItem(cfg, s, a, e);
      hide Enabled, Apply, Sum, Awaiting, Settles;
      SumUpdate(s.items, a.i, s'.items[a.i], Awaiting(e));
    } else {
      hide Enabled, Apply, Sum;
      SumAppend(s.items, ItemWaiting, Awaiting(e));
    }
  }

  /** Every execution that was started is waited for by one call or has been settled, once. */
  lemma {:induction false} SettledOnce(cfg: Config, states: seq<State>, actions: seq<Action>, k: nat, e: nat)
    requires IsRun(cfg, states, actions) && k < |states|
    ensures Sum(states[k].items, Awaiting(e)) + Tally(states, actions, k, SettlingOf(e)) == One(e < |states[k].execs|)
    decreases k
  {
    hide Enabled, Apply, Settles, Awaiting;
    if k == 0 {
      assert Sum([], Awaiting(e)) == 0;
    } else {
      hide Init;
      SettledOnce(cfg, states, actions, k - 1, e);
      SettleStep(cfg, states[k - 1], actions[k - 1], e);
    }
  }

  // ------------------------------------------------------------ every function of a started item is executed

  function WaitingCall(fn: string): Call -> nat {
    (c: Call) => One(c == CallWaiting(fn))
  }

  ghost function WaitingFor(fn: string): Item -> nat {
    (i: Item) => if i.ItemRunning? then Sum(i.calls, WaitingCall(fn)) else 0
  }

  function ExecOf(fn: string): Exec -> nat {
    (e: Exec) => One(e.fn == fn)
  }

  function NameIs(fn: string): string -> nat {
    (x: string) => One(x == fn)
  }

  /** How often a starting item names the function. */
  ghost function StartingOf(fn: string): Gain {
    (s: State, a: Action) => if a.ItemStart? then Sum(a.fns, NameIs(fn)) else 0
  }

  lemma {:induction false} AllWaiting(fns: seq<string>, fn: string)
    ensures Sum(Waiting(fns), WaitingCall(fn)) == Sum(fns, NameIs(fn))
    decreases |fns|
  {
    if fns != [] {
      var n := |fns| - 1;
      assert Waiting(fns)[..n] == Waiting(fns[..n]);
      AllWaiting(fns[..n], fn);
    }
  }

  lemma {:induction false} NoneWaiting(calls: seq<Call>, fn: string)
    requires forall c <- calls :: c.CallDone?
    ensures Sum(calls, WaitingCall(fn)) == 0
    decreases |calls|
  {
    if calls != [] {
      var n := |calls| - 1;
      assert forall c <- calls[..n] :: c in calls;
      NoneWaiting(calls[..n], fn);
      assert calls[n] in calls && WaitingCall(fn)(calls[n]) == 0;
    }
  }

  lemma StartItem(cfg: Config, s: State, a: Action, fn: string)
    requires Enabled(cfg, s, a) && SetsItem(a)
    ensures var s' := Apply(cfg, s, a);
            && a.i < |s.items| && a.i < |s'.items|
            && WaitingFor(fn)(s'.items[a.i]) + One(a.CallAcquire? && CallAt(s, a.i, a.c).fn == fn)
               == WaitingFor(fn)(s.items[a.i]) + StartingOf(fn)(s, a)
  {
    var s' := Apply(cfg, s, a);
    hide Enabled, Apply, Sum;
    if a.CallAcquire? || a.CallReceive? || a.CallTimeout? {
      CallEffect(cfg, s, a);
      SumUpdate(s.items[a.i].calls, a.c, CallAt(s', a.i, a.c), WaitingCall(fn));
    } else {
      ItemEffect(cfg, s, a);
      if a.ItemStart? {
        AllWaiting(a.fns, fn);
      } else if a.ItemFinish? {
        NoneWaiting(s.items[a.i].calls, fn);
      }
    }
  }

  lemma ExecsStep(cfg: Config, s: State, a: Action, fn: string)
    requires Enabled(cfg, s, a)
    ensures Sum(Apply(cfg, s, a).execs, ExecOf(fn))
            == Sum(s.execs, ExecOf(fn)) + One(a.CallAcquire? && CallAt(s, a.i, a.c).fn == fn)
  {
    hide Packets, Sum, SemOf, AllDone, TotalResults;
    var s' := Apply(cfg, s, a);
    if a.CallAcquire? {
      SumAppend(s.execs, ExecRunning(CallAt(s, a.i, a.c).fn), ExecOf(fn));
    } else if a.ExecReturn? {
      SumUpdate(s.execs, a.e, s'.execs[a.e], ExecOf(fn));
    }
  }

  lemma StartStep(cfg: Config, s: State, a: Action, fn: string)
    requires Enabled(cfg, s, a)
    ensures var s' := Apply(cfg, s, a);
            Sum(s'.execs, ExecOf(fn)) + Sum(s'.items, WaitingFor(fn))
            == Sum(s.execs, ExecOf(fn)) + Sum(s.items, WaitingFor(fn)) + StartingOf(fn)(s, a)
  {
    ExecsStep(cfg, s, a, fn);
    ItemsAfter(cfg, s, a);
    var s' := Apply(cfg, s, a);
    if SetsItem(a) {
      StartItem(cfg, s, a, fn);
      hide Enabled, Apply, Sum, WaitingFor, StartingOf;
      SumUpdate(s.items, a.i, s'.items[a.i], WaitingFor(fn));
    } else {
      hide Enabled, Apply, Sum;
      SumAppend(s.items, ItemWaiting, WaitingFor(fn));
    }
  }

  /** Under every name: the executions started and the calls that still wait for their turn are the
      functions that the started items asked for. */
  lemma {:induction false} EveryFunctionIsExecuted(
    cfg: Config, states: seq<State>, actions: seq<Action>, k: nat, fn: string)
    requires IsRun(cfg, states, actions) && k < |states|
    ensures Sum(states[k].execs, ExecOf(fn)) + Sum(states[k].items, WaitingFor(fn))
            == Tally(states, actions, k, StartingOf(fn))
    decreases k
  {
    hide Enabled, Apply, StartingOf, WaitingFor;
    if k == 0 {
      assert Sum([], ExecOf(fn)) == 0 && Sum([], WaitingFor(fn)) == 0;
    } else {
      hide Init;
      EveryFunctionIsExecuted(cfg, states, actions, k - 1, fn);
      StartStep(cfg, states[k - 1], actions[k - 1], fn);
    }
  }

  // ------------------------------------------------------------ every packet is stored

  function SendingOf(groups: seq<Group>): Proc -> nat {
    (p: Proc) => One(p == ProcSending(groups))
  }

  function ReportOf(groups: seq<Group>): Gain {
    (s: State, a: Action) => One(a.ProcReport? && a.groups == groups)
  }

  function StoreOf(groups: seq<Group>): Gain {
    (s: State, a: Action) => One(a.WriterStore? && s.writer == WriterStoring(groups))
  }

  /** Packets with these groups that are reported and not yet stored. */
  ghost function Unstored(s: State, groups: seq<Group>): nat {
    Sum(s.procs, SendingOf(groups)) + One(s.writer == WriterStoring(groups))
  }

  lemma ProcPacketStep(cfg: Config, s: State, a: Action, groups: seq<Group>)
    requires Enabled(cfg, s, a) && ByProc(a)
    ensures Unstored(Apply(cfg, s, a), groups) + StoreOf(groups)(s, a) == Unstored(s, groups) + ReportOf(groups)(s, a)
  {
    hide Sum, SemOf, AllDone, TotalResults, Packets;
    SumUpdate(s.procs, a.p, Apply(cfg, s, a).procs[a.p], SendingOf(groups));
  }

  lemma ProcsAfter(cfg: Config, s: State, a: Action)
    requires Enabled(cfg, s, a) && !ByProc(a)
    ensures var s' := Apply(cfg, s, a);
            && (s'.procs == s.procs || s'.procs == s.procs + [ProcStarted])
            && (a.WriterStore? ==> s.writer.WriterStoring? && !s'.writer.WriterStoring?)
            && (!a.WriterStore? ==> s'.writer == s.writer || (!s.writer.WriterStoring? && !s'.writer.WriterStoring?))
  {
    if ByCall(a) {
      CallsStepOne(cfg, s, a);
      hide Enabled, Apply;
    } else {
      hide SemOf, AllDone, TotalResults, Packets, SetCall, CallAt, HasCall, StoreMayReturn;
    }
  }

  lemma PacketStep(cfg: Config, s: State, a: Action, groups: seq<Group>)
    requires Enabled(cfg, s, a)
    ensures Unstored(Apply(cfg, s, a), groups) + StoreOf(groups)(s, a) == Unstored(s, groups) + ReportOf(groups)(s, a)
  {
    if ByProc(a) {
      ProcPacketStep(cfg, s, a, groups);
    } else {
      ProcsAfter(cfg, s, a);
      hide Enabled, Apply, Sum;
      SumAppend(s.procs, ProcStarted, SendingOf(groups));
    }
  }

  /** Every packet that `Process` reports is stored once, with the groups it was reported with;
      also one that brings errors alone and no unit of work. */
  lemma {:induction false} EveryPacketIsStored(
    cfg: Config, states: seq<State>, actions: seq<Action>, k: nat, groups: seq<Group>)
    requires IsRun(cfg, states, actions) && k < |states|
    ensures Unstored(states[k], groups) + Tally(states, actions, k, StoreOf(groups))
            == Tally(states, actions, k, ReportOf(groups))
    decreases k
  {
    hide Enabled, Apply;
    if k == 0 {
      assert states[0].procs == [ProcStarted] ==> states[0].procs[..0] == [];
      assert Sum([], SendingOf(groups)) == 0;
    } else {
      hide Init, Unstored, StoreOf, ReportOf;
      EveryPacketIsStored(cfg, states, actions, k - 1, groups);
      PacketStep(cfg, states[k - 1], actions[k - 1], groups);
    }
  }

  // ------------------------------------------------------------ every item handed back gets its goroutine

  function StoredItems(w: Writer): nat {
    match w
    case WriterStored(_, StoreItems(n)) => n
    case WriterSend(n) => n
    case _ => 0
  }

  /** Items that have a goroutine, and those of a batch that is on its way. */
  ghost function Known(s: State): nat {
    |s.items| + StoredItems(s.writer) + InjectorTokens(s.injector) + CloserTokens(s.closer) + LoopTokens(s.loop)
  }

  function HandedOut(): Gain {
    (s: State, a: Action) => match a
      case WriterStore(StoreItems(n)) => n
      case CloserResume(n) => n
      case _ => 0
  }

  /** A batch that the closer still holds when the crawl is cancelled is dropped. */
  function DroppedBy(s: State, a: Action): nat {
    if a.CloserAbort? then CloserTokens(s.closer) else 0
  }

  function Dropped(): Gain {
    (s: State, a: Action) => DroppedBy(s, a)
  }

  lemma ItemsStepOne(cfg: Config, s: State, a: Action)
    requires Enabled(cfg, s, a) && SetsItem(a)
    ensures var s' := Apply(cfg, s, a);
            s'.writer == s.writer && s'.loop == s.loop && s'.injector == s.injector && s'.closer == s.closer
  {
    if ByCall(a) {
      CallsStepOne(cfg, s, a);
    } else {
      hide Packets, Sum, SemOf, AllDone, TotalResults, StoreMayReturn, SetCall, CallAt, HasCall;
    }
  }

  lemma CallsStepOne(cfg: Config, s: State, a: Action)
    requires Enabled(cfg, s, a) && ByCall(a)
    ensures var s' := Apply(cfg, s, a);
            s'.writer == s.writer && s'.loop == s.loop && s'.injector == s.injector && s'.closer == s.closer
            && s'.procs == s.procs
  {
    if a.ItemStart? || a.ExecReturn? {
      hide Packets, Sum, AllDone, TotalResults, StoreMayReturn, HasCall, SetCall, CallAt;
    } else {
      SetCallKeeps();
      hide Packets, Sum, SemOf, AllDone, TotalResults, StoreMayReturn, HasCall, SetCall, CallAt;
    }
  }

  lemma SetCallKeeps()
    ensures forall s, i, c, call | HasCall(s, i, c) :: SetCall(s, i, c, call) == s.(items := SetCall(s, i, c, call).items)
  {
  }

  lemma ItemsStep(cfg: Config, s: State, a: Action)
    requires Enabled(cfg, s, a)
    ensures Known(Apply(cfg, s, a)) + Dropped()(s, a) == Known(s) + HandedOut()(s, a)
  {
    if SetsItem(a) {
      ItemsAfter(cfg, s, a);
      ItemsStepOne(cfg, s, a);
      hide Enabled, Apply;
    } else {
      hide Packets, Sum, SemOf, AllDone, TotalResults, StoreMayReturn;
    }
  }

  /** Goroutines for items, with the batches on their way, are the injected batch and all that the
      repository handed out, less the batches dropped on cancellation. */
  lemma {:induction false} EveryItemIsSpawned(cfg: Config, states: seq<State>, actions: seq<Action>, k: nat)
    requires IsRun(cfg, states, actions) && k < |states|
    ensures Known(states[k]) + Tally(states, actions, k, Dropped())
            == InjectorTokens(states[0].injector) + Tally(states, actions, k, HandedOut())
    decreases k
  {
    hide Enabled, Apply;
    if k != 0 {
      hide Init, Known;
      EveryItemIsSpawned(cfg, states, actions, k - 1);
      ItemsStep(cfg, states[k - 1], actions[k - 1]);
    }
  }
}
