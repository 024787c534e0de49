/**
 Main results about the crawl's token protocol, for every interleaving: the counter is
 exactly the work held and never negative, channels are closed only when no goroutine can
 ever send on them again, and no state short of full shutdown is stuck.
 */
module PipelineSafety {
  import opened Schema
  import opened StoreResult
  import opened Sums
  import opened Pipeline

  /** A finite run from an initial state; state k + 1 results from action k. */
  ghost predicate IsRun(cfg: Config, states: seq<State>, actions: seq<Action>) {
    && |states| == |actions| + 1 && Init(states[0])
    && forall k :: 0 <= k < |actions| ==>
         Enabled(cfg, states[k], actions[k]) && states[k + 1] == Apply(cfg, states[k], actions[k])
  }

  lemma {:induction false} RunInv(cfg: Config, states: seq<State>, actions: seq<Action>, k: nat)
    requires IsRun(cfg, states, actions) && k < |states|
    ensures Inv(cfg, states[k])
    decreases k
  {
    hide Inv, Enabled, Apply, Init;
    if k == 0 {
      InitInv(cfg, states[0]);
    } else {
      RunInv(cfg, states, actions, k - 1);
      StepInv(cfg, states[k - 1], actions[k - 1]);
    }
  }

  /** In every reachable state the counter is the work held by all goroutines together. */
  lemma CounterIsWork(cfg: Config, states: seq<State>, actions: seq<Action>, k: nat)
    requires IsRun(cfg, states, actions) && k < |states|
    ensures states[k].counter == Tokens(states[k]) >= 0
  {
    hide Tokens, IsRun;
    RunInv(cfg, states, actions, k);
  }

  // ------------------------------------------------------------ shutdown

  /** No goroutine is at, or can still reach, a send on either channel. */
  predicate NoSender(s: State) {
    && (forall p :: 0 <= p < |s.procs| ==> s.procs[p].ProcDone?)
    && (forall i :: 0 <= i < |s.items| ==> ItemTokens(s.items[i]) == 0 && !s.items[i].ItemRunning?)
    && s.injector.InjectDone? && !s.closer.CloserSend? && !s.writer.WriterSend?
    && (s.loop.LoopSpawning? ==> s.loop.n == 0)
  }

  predicate Sends(a: Action) {
    a.InjectorSend? || a.CloserSendBatch? || a.ProcSend? || a.WriterSendBatch?
  }

  predicate Closes(a: Action) {
    a.CloserClose? || a.WriterExit?
  }

  lemma NoWorkNoSender(s: State)
    requires PhaseInv(s) && Tokens(s) == 0
    ensures NoSender(s)
  {
    forall p | 0 <= p < |s.procs| ensures s.procs[p].ProcDone? {
      SumAtLeast(s.procs, p, ProcTokens);
    }
    forall i | 0 <= i < |s.items| ensures ItemTokens(s.items[i]) == 0 && !s.items[i].ItemRunning? {
      SumAtLeast(s.items, i, ItemTokens);
    }
  }

  /** Once the closer has given up waiting, nothing else can start, add or send. */
  lemma ClosedMeansNoSender(cfg: Config, s: State)
    requires Inv(cfg, s) && s.repoClosed
    ensures NoSender(s) && s.counter == 0
  {
    hide Tokens;
    NoWorkNoSender(s);
  }

  lemma StepKeepsClosed(cfg: Config, s: State, a: Action)
    requires Enabled(cfg, s, a) && s.repoClosed
    ensures Apply(cfg, s, a).repoClosed
  {
    hide TotalResults, Packets, SemOf, AllDone, StoreMayReturn;
  }

  lemma {:induction false} StaysClosed(cfg: Config, states: seq<State>, actions: seq<Action>, i: nat, j: nat)
    requires IsRun(cfg, states, actions) && i <= j < |states| && states[i].repoClosed
    ensures states[j].repoClosed
    decreases j
  {
    if i < j {
      hide Init, Enabled, Apply;
      StaysClosed(cfg, states, actions, i, j - 1);
      StepKeepsClosed(cfg, states[j - 1], actions[j - 1]);
    }
  }

  /** Shutdown safety over whole runs: after repoChan is closed no goroutine sends on either
      channel, no channel is closed twice, and the counter stays zero. */
  lemma ShutdownSafety(cfg: Config, states: seq<State>, actions: seq<Action>, i: nat, j: nat)
    requires IsRun(cfg, states, actions) && i <= j < |actions| && states[i].repoClosed
    ensures NoSender(states[j]) && states[j].counter == 0
    ensures !Sends(actions[j]) && !actions[j].CloserClose?
    ensures states[j].dispatchClosed ==> !Closes(actions[j])
  {
    StaysClosed(cfg, states, actions, i, j);
    RunInv(cfg, states, actions, j);
    ClosedMeansNoSender(cfg, states[j]);
    assert Enabled(cfg, states[j], actions[j]);
  }

  predicate Closing(s: State) {
    s.closer.CloserClosing? || s.closer.CloserDone?
  }

  lemma StaysClosing(cfg: Config, s: State, a: Action)
    requires Enabled(cfg, s, a)
    ensures Closing(s) || a.CloserGiveUp? || a.CloserAbort? ==> Closing(Apply(cfg, s, a))
  {
    hide TotalResults, Packets, SemOf, AllDone, StoreMayReturn;
  }

  /** Once the closer has given up waiting, or dropped a batch on cancellation, it only closes. */
  lemma {:induction false} GivingUpIsFinal(cfg: Config, states: seq<State>, actions: seq<Action>, i: nat, j: nat)
    requires IsRun(cfg, states, actions) && i < j < |states| && (actions[i].CloserGiveUp? || actions[i].CloserAbort?)
    ensures Closing(states[j])
    decreases j
  {
    hide Init, Enabled, Apply;
    StaysClosing(cfg, states[j - 1], actions[j - 1]);
    if i < j - 1 {
      GivingUpIsFinal(cfg, states, actions, i, j - 1);
    }
  }

  /** dispatchChan is closed only after repoChan, so no send on it can follow either. */
  lemma DispatchClosedLast(cfg: Config, states: seq<State>, actions: seq<Action>, k: nat)
    requires IsRun(cfg, states, actions) && k < |states| && states[k].dispatchClosed
    ensures states[k].repoClosed && NoSender(states[k])
  {
    RunInv(cfg, states, actions, k);
    ClosedMeansNoSender(cfg, states[k]);
  }

  /** The counter leaves zero only by the closer's own hand, never while it waits. */
  lemma OnlyCloserRestarts(cfg: Config, s: State, a: Action)
    requires Inv(cfg, s) && Enabled(cfg, s, a) && s.counter == 0 && Apply(cfg, s, a).counter > 0
    ensures a.CloserResume? && s.closer.CloserCheck?
  {
    hide Tokens;
    NoWorkNoSender(s);
  }

  // ------------------------------------------------------------ limits

  /** Item slots and function semaphores are never exceeded; an execution whose caller timed
      out still counts until it returns. */
  lemma LimitsHold(cfg: Config, states: seq<State>, actions: seq<Action>, k: nat, fn: string)
    requires IsRun(cfg, states, actions) && k < |states|
    ensures Sum(states[k].items, SlotOf) <= cfg.slots
    ensures fn in cfg.limits ==> Sum(states[k].execs, RunningOf(fn)) <= cfg.limits[fn]
  {
    hide IsRun, Sum;
    RunInv(cfg, states, actions, k);
    assert SemOf(states[k], fn) == Sum(states[k].execs, RunningOf(fn));
  }

  // ------------------------------------------------------------ progress

  /** `Run` has returned: all the goroutines it waits for have ended. */
  predicate Terminal(s: State) {
    s.closer.CloserDone? && s.writer.WriterDone? && s.loop.LoopDone? && s.injector.InjectDone?
  }

  predicate Positive(cfg: Config) {
    cfg.slots > 0 && forall fn :: fn in cfg.limits ==> cfg.limits[fn] > 0
  }

  predicate ByEnvironment(a: Action) {
    a.Cancel? || a.CallTimeout?
  }

  ghost predicate CanMove(cfg: Config, s: State) {
    exists a :: Enabled(cfg, s, a) && !ByEnvironment(a)
  }

  lemma Moves(cfg: Config, s: State, a: Action)
    requires Enabled(cfg, s, a) && !ByEnvironment(a)
    ensures CanMove(cfg, s)
  {
  }

  /** A call that waits for a semaphore unit waits for a running execution; a call that waits
      for an execution waits for one that runs or has returned. */
  lemma RunningItemMoves(cfg: Config, s: State, i: nat)
    requires LimitInv(cfg, s) && Positive(cfg) && i < |s.items| && s.items[i].ItemRunning?
    ensures CanMove(cfg, s)
  {
    hide CanMove, Sum;
    var calls := s.items[i].calls;
    if AllDone(calls) {
      Moves(cfg, s, ItemFinish(i));
    } else {
      var x :| x in calls && !x.CallDone?;
      var c: nat :| c < |calls| && calls[c] == x;
      assert HasCall(s, i, c) && CallAt(s, i, c) == x;
      if x.CallRunning? {
        if s.execs[x.exec].ExecReturned? {
          Moves(cfg, s, CallReceive(i, c));
        } else {
          Moves(cfg, s, ExecReturn(x.exec, true));
        }
      } else if x.fn in cfg.limits && SemOf(s, x.fn) >= cfg.limits[x.fn] {
        assert Sum(s.execs, RunningOf(x.fn)) == SemOf(s, x.fn) > 0;
        var e := SumWitness(s.execs, RunningOf(x.fn));
        Moves(cfg, s, ExecReturn(e, true));
      } else {
        Moves(cfg, s, CallAcquire(i, c));
      }
    }
  }

  lemma ItemMoves(cfg: Config, s: State, i: nat)
    requires LimitInv(cfg, s) && Positive(cfg) && i < |s.items| && !s.items[i].ItemDone?
    ensures CanMove(cfg, s)
  {
    hide CanMove, Sum;
    match s.items[i]
    case ItemRunning(_) => RunningItemMoves(cfg, s, i);
    case ItemHandover(_) => Moves(cfg, s, ItemSpawnProc(i));
    case ItemWaiting =>
      if s.slotsUsed < cfg.slots {
        Moves(cfg, s, ItemStart(i, []));
      } else {
        var k := SumWitness(s.items, SlotOf);
        if s.items[k].ItemRunning? {
          RunningItemMoves(cfg, s, k);
        } else {
          Moves(cfg, s, ItemSpawnProc(k));
        }
      }
  }

  lemma ProcMoves(cfg: Config, s: State, p: nat)
    requires PhaseInv(s) && p < |s.procs| && !s.procs[p].ProcDone? && s.writer.WriterIdle?
    ensures CanMove(cfg, s)
  {
    hide CanMove;
    match s.procs[p]
    case ProcStarted => Moves(cfg, s, ProcNothing(p));
    case ProcSending(_) => Moves(cfg, s, ProcSend(p));
    case ProcSent => Moves(cfg, s, ProcFinish(p));
  }

  lemma WriterMoves(cfg: Config, s: State)
    requires !s.writer.WriterIdle? && !s.writer.WriterDone? && s.loop.LoopIdle?
    ensures CanMove(cfg, s)
  {
    hide CanMove;
    match s.writer
    case WriterStoring(groups) => Moves(cfg, s, WriterStore(StoreError));
    case WriterStored(_, _) => Moves(cfg, s, WriterGiveBack);
    case WriterSend(_) => Moves(cfg, s, WriterSendBatch);
  }

  /** With no work left anywhere the closer, then the writer, then the loop, shut down. */
  lemma QuietMoves(cfg: Config, s: State)
    requires Inv(cfg, s) && Tokens(s) == 0 && s.loop.LoopIdle? && !Terminal(s)
    requires s.writer.WriterIdle? || s.writer.WriterDone?
    ensures CanMove(cfg, s)
  {
    hide CanMove, Tokens, LimitInv;
    NoWorkNoSender(s);
    match s.closer
    case CloserWait => Moves(cfg, s, CloserWake);
    case CloserCheck => Moves(cfg, s, CloserGiveUp);
    case CloserClosing => Moves(cfg, s, CloserClose);
    case CloserDone =>
      if s.writer.WriterIdle? {
        Moves(cfg, s, WriterExit);
      } else {
        Moves(cfg, s, LoopExit);
      }
  }

  lemma BusyMoves(cfg: Config, s: State)
    requires Inv(cfg, s) && Positive(cfg) && Tokens(s) > 0 && s.loop.LoopIdle? && s.writer.WriterIdle?
    ensures CanMove(cfg, s)
  {
    hide CanMove, Sum, LimitInv;
    if s.injector.InjectSend? {
      Moves(cfg, s, InjectorSend);
    } else if s.closer.CloserSend? {
      Moves(cfg, s, CloserSendBatch);
    } else if Sum(s.procs, ProcTokens) > 0 {
      var p := SumWitness(s.procs, ProcTokens);
      ProcMoves(cfg, s, p);
    } else {
      var i := SumWitness(s.items, ItemTokens);
      ItemMoves(cfg, s, i);
    }
  }

  /** No deadlock: short of full shutdown some goroutine can move, without help from a
      timeout or a cancellation. */
  lemma Progress(cfg: Config, s: State)
    requires Inv(cfg, s) && Positive(cfg) && !Terminal(s)
    ensures CanMove(cfg, s)
  {
    hide CanMove, Tokens, LimitInv, Terminal, Positive;
    if s.loop.LoopSpawning? {
      if s.loop.n > 0 {
        Moves(cfg, s, LoopSpawn);
      } else {
        Moves(cfg, s, LoopReturn);
      }
    } else if s.loop.LoopDone? {
      LoopDoneIsTerminal(cfg, s);
    } else if !s.writer.WriterIdle? && !s.writer.WriterDone? {
      WriterMoves(cfg, s);
    } else if Tokens(s) == 0 {
      QuietMoves(cfg, s);
    } else {
      assert s.writer.WriterIdle? by {
        if s.writer.WriterDone? {
          ClosedMeansNoSender(cfg, s);
        }
      }
      BusyMoves(cfg, s);
    }
  }

  lemma LoopDoneIsTerminal(cfg: Config, s: State)
    requires Inv(cfg, s) && s.loop.LoopDone?
    ensures Terminal(s)
  {
    ClosedMeansNoSender(cfg, s);
  }

  /** The same over runs, with what full shutdown means: no item and no processor call is left. */
  lemma NoDeadlock(cfg: Config, states: seq<State>, actions: seq<Action>, k: nat)
    requires IsRun(cfg, states, actions) && k < |states| && Positive(cfg)
    ensures Terminal(states[k]) || CanMove(cfg, states[k])
    ensures Terminal(states[k]) ==> NoSender(states[k]) && states[k].counter == 0
  {
    hide CanMove, IsRun, Init, Enabled, Apply;
    RunInv(cfg, states, actions, k);
    if Terminal(states[k]) {
      ClosedMeansNoSender(cfg, states[k]);
    } else {
      Progress(cfg, states[k]);
    }
  }
}
