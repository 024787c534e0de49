/**
 The crawl as a transition system: the injector, the closer, the writer, the dispatcher
 loop, one goroutine per batch item with its per-function calls, the module executions and
 the processor calls.  They meet over two unbuffered channels and share one counter of
 outstanding work.  An `Action` names which goroutine moves and how its choice falls out;
 `Enabled` and `Apply` give its guard and its effect.
 */
module Pipeline {
  import opened Schema
  import opened StoreResult
  import opened Sums

  /** Item slots, and the semaphore size of each function that has one. */
  datatype Config = Config(slots: nat, limits: map<string, nat>)

  datatype Injector = InjectSend(n: nat) | InjectDone
  datatype Closer = CloserWait | CloserCheck | CloserSend(n: nat) | CloserClosing | CloserDone
  datatype Writer =
    | WriterIdle
    | WriterStoring(groups: seq<Group>)
    | WriterStored(groups: seq<Group>, out: Outcome)
    | WriterSend(n: nat)
    | WriterDone
  datatype Loop = LoopIdle | LoopSpawning(n: nat) | LoopDone

  /** A call of `Process`, from its start to its final `Done`. */
  datatype Proc = ProcStarted | ProcSending(groups: seq<Group>) | ProcSent | ProcDone

  /** One pending function of an item. */
  datatype Call = CallWaiting(fn: string) | CallRunning(fn: string, exec: nat) | CallDone(packet: bool)

  /** A batch item's goroutine; it holds a slot while running or handing over. */
  datatype Item = ItemWaiting | ItemRunning(calls: seq<Call>) | ItemHandover(k: nat) | ItemDone

  /** A module execution; it keeps its semaphore unit until it returns, whoever still waits for it. */
  datatype Exec = ExecRunning(fn: string) | ExecReturned(fn: string, packet: bool)

  datatype State = State(
    counter: int, repoClosed: bool, dispatchClosed: bool, cancelled: bool,
    injector: Injector, closer: Closer, writer: Writer, loop: Loop,
    procs: seq<Proc>, items: seq<Item>, execs: seq<Exec>,
    slotsUsed: nat, sem: map<string, nat>)

  datatype Action =
    | InjectorSend
    | CloserWake
    | CloserGiveUp
    | CloserResume(n: nat)
    | CloserSendBatch
    | CloserAbort
    | CloserClose
    | ProcReport(p: nat, groups: seq<Group>)
    | ProcNothing(p: nat)
    | ProcSend(p: nat)
    | ProcFinish(p: nat)
    | WriterStore(out: Outcome)
    | WriterGiveBack
    | WriterSendBatch
    | WriterExit
    | LoopSpawn
    | LoopReturn
    | LoopExit
    | ItemStart(i: nat, fns: seq<string>)
    | CallAcquire(i: nat, c: nat)
    | CallReceive(i: nat, c: nat)
    | CallTimeout(i: nat, c: nat)
    | ExecReturn(e: nat, packet: bool)
    | ItemFinish(i: nat)
    | ItemSpawnProc(i: nat)
    | Cancel

  // ------------------------------------------------------------ tokens

  function ProcTokens(p: Proc): nat {
    match p
    case ProcStarted => 1
    case ProcSending(groups) => TotalResults(groups) + 1
    case ProcSent => 1
    case ProcDone => 0
  }

  function ItemTokens(i: Item): nat {
    match i
    case ItemWaiting => 1
    case ItemRunning(_) => 1
    case ItemHandover(k) => k
    case ItemDone => 0
  }

  function WriterTokens(w: Writer): nat {
    match w
    case WriterStoring(groups) => TotalResults(groups)
    case WriterStored(groups, _) => TotalResults(groups)
    case WriterSend(n) => n
    case _ => 0
  }

  function InjectorTokens(i: Injector): nat { if i.InjectSend? then i.n else 0 }
  function CloserTokens(c: Closer): nat { if c.CloserSend? then c.n else 0 }
  function LoopTokens(l: Loop): nat { if l.LoopSpawning? then l.n else 0 }

  /** All work the goroutines hold between them. */
  ghost function Tokens(s: State): nat {
    Sum(s.procs, ProcTokens) + Sum(s.items, ItemTokens)
    + WriterTokens(s.writer) + InjectorTokens(s.injector) + CloserTokens(s.closer) + LoopTokens(s.loop)
  }

  // ------------------------------------------------------------ the transition system

  function SemOf(s: State, fn: string): nat { if fn in s.sem then s.sem[fn] else 0 }

  predicate HasSlot(i: Item) { i.ItemRunning? || i.ItemHandover? }

  function Packets(calls: seq<Call>): nat {
    if calls == [] then 0
    else Packets(calls[1..]) + if calls[0].CallDone? && calls[0].packet then 1 else 0
  }

  function Waiting(fns: seq<string>): (r: seq<Call>)
    ensures |r| == |fns| && forall i :: 0 <= i < |r| ==> r[i] == CallWaiting(fns[i])
  {
    seq(|fns|, i requires 0 <= i < |fns| => CallWaiting(fns[i]))
  }

  predicate AllDone(calls: seq<Call>) {
    forall c <- calls :: c.CallDone?
  }

  predicate HasCall(s: State, i: nat, c: nat) {
    i < |s.items| && s.items[i].ItemRunning? && c < |s.items[i].calls|
  }

  function CallAt(s: State, i: nat, c: nat): Call
    requires HasCall(s, i, c)
  {
    s.items[i].calls[c]
  }

  function SetCall(s: State, i: nat, c: nat, call: Call): State
    requires HasCall(s, i, c)
  {
    s.(items := s.items[i := ItemRunning(s.items[i].calls[c := call])])
  }

  ghost predicate Enabled(cfg: Config, s: State, a: Action) {
    match a
    case InjectorSend => s.injector.InjectSend? && s.loop.LoopIdle?
    case CloserWake => s.closer.CloserWait? && s.counter == 0
    case CloserGiveUp => s.closer.CloserCheck?
    case CloserResume(n) => s.closer.CloserCheck? && n > 0
    case CloserSendBatch => s.closer.CloserSend? && s.loop.LoopIdle?
    case CloserAbort => s.closer.CloserSend? && s.cancelled
    case CloserClose => s.closer.CloserClosing?
    case ProcReport(p, _) => p < |s.procs| && s.procs[p].ProcStarted?
    case ProcNothing(p) => p < |s.procs| && s.procs[p].ProcStarted?
    case ProcSend(p) => p < |s.procs| && s.procs[p].ProcSending? && s.writer.WriterIdle?
    case ProcFinish(p) => p < |s.procs| && s.procs[p].ProcSent?
    case WriterStore(out) => s.writer.WriterStoring? && StoreMayReturn(s.writer.groups, out)
    case WriterGiveBack => s.writer.WriterStored?
    case WriterSendBatch => s.writer.WriterSend? && s.loop.LoopIdle?
    case WriterExit => s.writer.WriterIdle? && s.repoClosed
    case LoopSpawn => s.loop.LoopSpawning? && s.loop.n > 0
    case LoopReturn => s.loop.LoopSpawning? && s.loop.n == 0
    case LoopExit => s.loop.LoopIdle? && s.dispatchClosed
    case ItemStart(i, _) => i < |s.items| && s.items[i].ItemWaiting? && s.slotsUsed < cfg.slots
    case CallAcquire(i, c) =>
      && HasCall(s, i, c) && CallAt(s, i, c).CallWaiting?
      && var fn := CallAt(s, i, c).fn; fn in cfg.limits ==> SemOf(s, fn) < cfg.limits[fn]
    case CallReceive(i, c) =>
      && HasCall(s, i, c) && CallAt(s, i, c).CallRunning?
      && var e := CallAt(s, i, c).exec; e < |s.execs| && s.execs[e].ExecReturned?
    case CallTimeout(i, c) => HasCall(s, i, c) && CallAt(s, i, c).CallRunning?
    case ExecReturn(e, _) => e < |s.execs| && s.execs[e].ExecRunning?
    case ItemFinish(i) => i < |s.items| && s.items[i].ItemRunning? && AllDone(s.items[i].calls)
    case ItemSpawnProc(i) => i < |s.items| && s.items[i].ItemHandover?
    case Cancel => !s.cancelled
  }

  ghost function Apply(cfg: Config, s: State, a: Action): State
    requires Enabled(cfg, s, a)
  {
    match a
    case InjectorSend => s.(injector := InjectDone, loop := LoopSpawning(s.injector.n))
    case CloserWake => s.(closer := CloserCheck)
    case CloserGiveUp => s.(closer := CloserClosing)
    case CloserResume(n) => s.(closer := CloserSend(n), counter := s.counter + n)
    case CloserSendBatch => s.(closer := CloserWait, loop := LoopSpawning(s.closer.n))
    case CloserAbort => s.(closer := CloserClosing, counter := s.counter - s.closer.n)
    case CloserClose => s.(closer := CloserDone, repoClosed := true)
    case ProcReport(p, groups) =>
      s.(procs := s.procs[p := ProcSending(groups)], counter := s.counter + TotalResults(groups))
    case ProcNothing(p) => s.(procs := s.procs[p := ProcDone], counter := s.counter - 1)
    case ProcSend(p) => s.(procs := s.procs[p := ProcSent], writer := WriterStoring(s.procs[p].groups))
    case ProcFinish(p) => s.(procs := s.procs[p := ProcDone], counter := s.counter - 1)
    case WriterStore(out) => s.(writer := WriterStored(s.writer.groups, out))
    case WriterGiveBack =>
      var expected, actual := TotalResults(s.writer.groups), Count(s.writer.out);
      s.(counter := if expected > actual then s.counter - (expected - actual) else s.counter,
         writer := if s.writer.out.StoreItems? then WriterSend(actual) else WriterIdle)
    case WriterSendBatch => s.(writer := WriterIdle, loop := LoopSpawning(s.writer.n))
    case WriterExit => s.(writer := WriterDone, dispatchClosed := true)
    case LoopSpawn => s.(loop := LoopSpawning(s.loop.n - 1), items := s.items + [ItemWaiting])
    case LoopReturn => s.(loop := LoopIdle)
    case LoopExit => s.(loop := LoopDone)
    case ItemStart(i, fns) =>
      s.(items := s.items[i := ItemRunning(Waiting(fns))], slotsUsed := s.slotsUsed + 1)
    case CallAcquire(i, c) =>
      var fn := CallAt(s, i, c).fn;
      SetCall(s, i, c, CallRunning(fn, |s.execs|)).(
        execs := s.execs + [ExecRunning(fn)], sem := s.sem[fn := SemOf(s, fn) + 1])
    case CallReceive(i, c) => SetCall(s, i, c, CallDone(s.execs[CallAt(s, i, c).exec].packet))
    case CallTimeout(i, c) => SetCall(s, i, c, CallDone(true))
    case ExecReturn(e, packet) =>
      var fn := s.execs[e].fn;
      s.(execs := s.execs[e := ExecReturned(fn, packet)],
         sem := s.sem[fn := if SemOf(s, fn) > 0 then SemOf(s, fn) - 1 else 0])
    case ItemFinish(i) =>
      var k := Packets(s.items[i].calls);
      if k > 0 then s.(items := s.items[i := ItemHandover(k)], counter := s.counter + (k - 1))
      else s.(items := s.items[i := ItemDone], counter := s.counter - 1,
              slotsUsed := if s.slotsUsed > 0 then s.slotsUsed - 1 else 0)
    case ItemSpawnProc(i) =>
      var k := s.items[i].k;
      if k == 0 then s.(items := s.items[i := ItemDone],
                        slotsUsed := if s.slotsUsed > 0 then s.slotsUsed - 1 else 0)
      else s.(items := s.items[i := ItemHandover(k - 1)], procs := s.procs + [ProcStarted])
    case Cancel => s.(cancelled := true)
  }

  /** Either one processor call or one batch is injected before the closer starts. */
  predicate Init(s: State) {
    && !s.repoClosed && !s.dispatchClosed && !s.cancelled
    && s.closer == CloserWait && s.writer == WriterIdle && s.loop == LoopIdle
    && s.items == [] && s.execs == [] && s.slotsUsed == 0 && s.sem == map[]
    && ( || (s.procs == [ProcStarted] && s.injector == InjectDone && s.counter == 1)
         || (s.procs == [] && s.injector.InjectSend? && s.injector.n > 0 && s.counter == s.injector.n)
         || (s.procs == [] && s.injector == InjectDone && s.counter == 0))
  }

  // ------------------------------------------------------------ the invariant

  /** Past its wait, the closer is the only goroutine that can hold work. */
  predicate Alone(c: Closer) {
    !c.CloserWait?
  }

  ghost predicate TokenInv(s: State) {
    && s.counter == Tokens(s)
    && (Alone(s.closer) ==> Tokens(s) == CloserTokens(s.closer))
    && (s.writer.WriterStored? ==> Count(s.writer.out) <= TotalResults(s.writer.groups))
  }

  predicate PhaseInv(s: State) {
    && (s.repoClosed <==> s.closer.CloserDone?)
    && (s.dispatchClosed <==> s.writer.WriterDone?)
    && (s.dispatchClosed ==> s.repoClosed)
    && (s.loop.LoopDone? ==> s.dispatchClosed)
    && (s.injector.InjectSend? ==> s.injector.n > 0)
    && (s.closer.CloserSend? ==> s.closer.n > 0)
    && (s.writer.WriterSend? ==> s.writer.n > 0)
    && (s.writer.WriterStored? && s.writer.out.StoreItems? ==> s.writer.out.count > 0)
  }

  function SlotOf(i: Item): nat { if HasSlot(i) then 1 else 0 }

  function RunningOf(fn: string): Exec -> nat {
    (e: Exec) => if e == ExecRunning(fn) then 1 else 0
  }

  ghost predicate LimitInv(cfg: Config, s: State) {
    && SlotsCounted(cfg, s)
    && (forall fn :: SemOf(s, fn) == Sum(s.execs, RunningOf(fn)))
    && (forall fn :: fn in cfg.limits ==> SemOf(s, fn) <= cfg.limits[fn])
    && (forall i, c :: HasCall(s, i, c) && CallAt(s, i, c).CallRunning? ==> CallAt(s, i, c).exec < |s.execs|)
  }

  ghost predicate Inv(cfg: Config, s: State) {
    TokenInv(s) && PhaseInv(s) && LimitInv(cfg, s)
  }

  lemma InitInv(cfg: Config, s: State)
    requires Init(s)
    ensures Inv(cfg, s)
  {
    if s.procs == [ProcStarted] {
      assert s.procs[..0] == [];
      assert Sum([], ProcTokens) == 0;
    }
  }

  predicate ByCloser(a: Action) {
    a.CloserWake? || a.CloserGiveUp? || a.CloserResume? || a.CloserSendBatch? || a.CloserAbort? || a.CloserClose?
        || a.Cancel?
  }

  predicate ByProc(a: Action) {
    a.ProcReport? || a.ProcNothing? || a.ProcSend? || a.ProcFinish?
  }

  predicate ByWriterOrLoop(a: Action) {
    || a.InjectorSend? || a.WriterStore? || a.WriterGiveBack? || a.WriterSendBatch? || a.WriterExit?
    || a.LoopSpawn? || a.LoopReturn? || a.LoopExit?
  }

  predicate ByCall(a: Action) {
    a.ItemStart? || a.CallAcquire? || a.CallReceive? || a.CallTimeout? || a.ExecReturn?
  }

  lemma CloserStep(cfg: Config, s: State, a: Action)
    requires TokenInv(s) && PhaseInv(s) && Enabled(cfg, s, a) && ByCloser(a)
    ensures TokenInv(Apply(cfg, s, a)) && PhaseInv(Apply(cfg, s, a))
  {
    hide TotalResults, Sum;
  }

  lemma ProcStep(cfg: Config, s: State, a: Action)
    requires TokenInv(s) && PhaseInv(s) && Enabled(cfg, s, a) && ByProc(a)
    ensures TokenInv(Apply(cfg, s, a)) && PhaseInv(Apply(cfg, s, a))
  {
    hide TotalResults, Sum;
    SumUpdate(s.procs, a.p, Apply(cfg, s, a).procs[a.p], ProcTokens);
    SumAtLeast(s.procs, a.p, ProcTokens);
  }

  lemma WriterLoopStep(cfg: Config, s: State, a: Action)
    requires TokenInv(s) && PhaseInv(s) && Enabled(cfg, s, a) && ByWriterOrLoop(a)
    ensures TokenInv(Apply(cfg, s, a)) && PhaseInv(Apply(cfg, s, a))
  {
    hide TotalResults, Sum;
    if a.WriterStore? {
      StoreNeverReturnsMore(s.writer.groups, a.out);
    }
    SumAppend(s.items, ItemWaiting, ItemTokens);
  }

  lemma CallStep(cfg: Config, s: State, a: Action)
    requires TokenInv(s) && PhaseInv(s) && Enabled(cfg, s, a) && ByCall(a)
    ensures TokenInv(Apply(cfg, s, a)) && PhaseInv(Apply(cfg, s, a))
  {
    hide TotalResults, Sum;
    if !a.ExecReturn? {
      SumUpdate(s.items, a.i, Apply(cfg, s, a).items[a.i], ItemTokens);
    }
  }

  lemma FinishStep(cfg: Config, s: State, i: nat)
    requires TokenInv(s) && PhaseInv(s) && Enabled(cfg, s, ItemFinish(i))
    ensures TokenInv(Apply(cfg, s, ItemFinish(i))) && PhaseInv(Apply(cfg, s, ItemFinish(i)))
  {
    hide TotalResults, Sum, Packets;
    SumUpdate(s.items, i, Apply(cfg, s, ItemFinish(i)).items[i], ItemTokens);
    SumAtLeast(s.items, i, ItemTokens);
  }

  lemma HandoverStep(cfg: Config, s: State, i: nat)
    requires TokenInv(s) && PhaseInv(s) && Enabled(cfg, s, ItemSpawnProc(i))
    ensures TokenInv(Apply(cfg, s, ItemSpawnProc(i))) && PhaseInv(Apply(cfg, s, ItemSpawnProc(i)))
  {
    hide TotalResults, Sum, Packets;
    SumUpdate(s.items, i, Apply(cfg, s, ItemSpawnProc(i)).items[i], ItemTokens);
    SumAtLeast(s.items, i, ItemTokens);
    SumAppend(s.procs, ProcStarted, ProcTokens);
  }

  // ------------------------------------------------------------ limits

  ghost predicate SlotsCounted(cfg: Config, s: State) {
    s.slotsUsed == Sum(s.items, SlotOf) && s.slotsUsed <= cfg.slots
  }

  predicate SetsItem(a: Action) {
    a.ItemStart? || a.CallAcquire? || a.CallReceive? || a.CallTimeout? || a.ItemFinish? || a.ItemSpawnProc?
  }

  lemma SlotStepItem(cfg: Config, s: State, a: Action)
    requires SlotsCounted(cfg, s) && Enabled(cfg, s, a) && SetsItem(a)
    ensures SlotsCounted(cfg, Apply(cfg, s, a))
  {
    hide Sum, Packets, AllDone, SemOf;
    SumUpdate(s.items, a.i, Apply(cfg, s, a).items[a.i], SlotOf);
    SumAtLeast(s.items, a.i, SlotOf);
  }

  lemma SlotStep(cfg: Config, s: State, a: Action)
    requires SlotsCounted(cfg, s) && Enabled(cfg, s, a)
    ensures SlotsCounted(cfg, Apply(cfg, s, a))
  {
    hide TotalResults, Sum, Packets, AllDone, SemOf;
    if SetsItem(a) {
      SlotStepItem(cfg, s, a);
    } else if a.LoopSpawn? {
      SumAppend(s.items, ItemWaiting, SlotOf);
    } else {
      assert Apply(cfg, s, a).items == s.items && Apply(cfg, s, a).slotsUsed == s.slotsUsed;
    }
  }

  lemma SemStep(cfg: Config, s: State, a: Action)
    requires LimitInv(cfg, s) && Enabled(cfg, s, a)
    ensures var s' := Apply(cfg, s, a);
            && (forall fn :: SemOf(s', fn) == Sum(s'.execs, RunningOf(fn)))
            && (forall fn :: fn in cfg.limits ==> SemOf(s', fn) <= cfg.limits[fn])
  {
    hide TotalResults, Sum, Packets, Tokens;
    var s' := Apply(cfg, s, a);
    if a.CallAcquire? || a.ExecReturn? {
      forall fn
        ensures SemOf(s', fn) == Sum(s'.execs, RunningOf(fn))
        ensures fn in cfg.limits ==> SemOf(s', fn) <= cfg.limits[fn]
      {
        if a.CallAcquire? {
          SumAppend(s.execs, ExecRunning(CallAt(s, a.i, a.c).fn), RunningOf(fn));
        } else {
          SumUpdate(s.execs, a.e, s'.execs[a.e], RunningOf(fn));
          SumAtLeast(s.execs, a.e, RunningOf(fn));
        }
      }
    } else {
      assert s'.execs == s.execs && s'.sem == s.sem;
    }
  }

  /** A call that is acquired points at the execution just started. */
  lemma AcquiredRef(cfg: Config, s: State, a: Action, i: nat, c: nat)
    requires LimitInv(cfg, s) && Enabled(cfg, s, a) && SetsItem(a)
    requires HasCall(Apply(cfg, s, a), i, c) && CallAt(Apply(cfg, s, a), i, c).CallRunning?
    ensures CallAt(Apply(cfg, s, a), i, c).exec < |Apply(cfg, s, a).execs|
  {
    hide TotalResults, Sum, Packets, Tokens, SemOf, SlotsCounted, AllDone;
    if HasCall(s, i, c) && CallAt(s, i, c).CallRunning? {
      assert CallAt(s, i, c).exec < |s.execs|;
    }
  }

  lemma ExecRefStep(cfg: Config, s: State, a: Action, i: nat, c: nat)
    requires LimitInv(cfg, s) && Enabled(cfg, s, a)
    requires HasCall(Apply(cfg, s, a), i, c) && CallAt(Apply(cfg, s, a), i, c).CallRunning?
    ensures CallAt(Apply(cfg, s, a), i, c).exec < |Apply(cfg, s, a).execs|
  {
    hide TotalResults, Sum, Packets, Tokens, SemOf, SlotsCounted, AllDone;
    if SetsItem(a) {
      AcquiredRef(cfg, s, a, i, c);
    } else {
      assert HasCall(s, i, c) && CallAt(s, i, c) == CallAt(Apply(cfg, s, a), i, c);
    }
  }

  lemma LimitStep(cfg: Config, s: State, a: Action)
    requires LimitInv(cfg, s) && Enabled(cfg, s, a)
    ensures LimitInv(cfg, Apply(cfg, s, a))
  {
    hide Enabled, Apply, Sum;
    SlotStep(cfg, s, a);
    SemStep(cfg, s, a);
    forall i, c | HasCall(Apply(cfg, s, a), i, c) && CallAt(Apply(cfg, s, a), i, c).CallRunning?
      ensures CallAt(Apply(cfg, s, a), i, c).exec < |Apply(cfg, s, a).execs|
    {
      ExecRefStep(cfg, s, a, i, c);
    }
  }

  /** Every step of every goroutine keeps the invariant. */
  lemma StepInv(cfg: Config, s: State, a: Action)
    requires Inv(cfg, s) && Enabled(cfg, s, a)
    ensures Inv(cfg, Apply(cfg, s, a))
  {
    hide TokenInv, PhaseInv, LimitInv, Enabled, Apply;
    LimitStep(cfg, s, a);
    if ByCloser(a) {
      CloserStep(cfg, s, a);
    } else if ByProc(a) {
      ProcStep(cfg, s, a);
    } else if ByWriterOrLoop(a) {
      WriterLoopStep(cfg, s, a);
    } else if ByCall(a) {
      CallStep(cfg, s, a);
    } else if a.ItemFinish? {
      FinishStep(cfg, s, a.i);
    } else {
      HandoverStep(cfg, s, a.i);
    }
  }
}
