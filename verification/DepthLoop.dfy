/**
 The depth loop of `Store`: |entities| in-place passes over the batch results, updating
 the strict and the relaxed depth of every batch entity, with an early exit.
 Strict depths come out exact in any result order.  Relaxed depths come out exact when the
 skip of unresolved sources never fires; `SkipLosesRelaxedDepth` shows a batch where it does.
 */
module DepthLoop {
  import opened Schema
  import opened StoreBatch
  import opened ShortestPaths

  const UNRESOLVED := 999999

  datatype EntityState = EntityState(
    dbID: nat, outOfScope: bool, strict: nat, relaxed: nat, anchor: string, isAnchor: bool)

  datatype AnchorRef = NoAnchor | UnknownAnchor | AnchorAt(id: nat)

  /** What the loop reads of one batch result. */
  datatype Item = Item(src: nat, dst: nat, isProperty: bool, anchorName: string, anchor: AnchorRef)

  function ItemOf(b: Batch, r: BatchResult): Item
    requires b.Has(r.targetID)
  {
    var key := NodeKey(ANCHOR_TYPE, r.result.anchor);
    Item(r.sourceID, r.targetID, b.Item(r.targetID).fields.category == "property", r.result.anchor,
         if r.result.anchor == "" then NoAnchor
         else if key in b.nodeIndex then AnchorAt(b.nodeIndex[key]) else UnknownAnchor)
  }

  predicate ItemInRange(it: Item, n: nat) {
    it.src < n && 0 < it.dst < n && (it.anchor.AnchorAt? ==> 0 < it.anchor.id < n)
  }

  predicate ItemsInRange(items: seq<Item>, n: nat) {
    forall it <- items :: ItemInRange(it, n)
  }

  type States = seq<EntityState>

  function Min(a: nat, b: nat): nat { if a < b then a else b }

  function LowerStrict(st: States, i: nat, d: nat): States
    requires i < |st|
  {
    st[i := st[i].(strict := Min(d, st[i].strict))]
  }

  function LowerRelaxed(st: States, i: nat, d: nat): States
    requires i < |st|
  {
    st[i := st[i].(relaxed := Min(d, st[i].relaxed))]
  }

  function ShareAnchor(st: States, i: nat, a: nat, name: string): States
    requires i < |st| && a < |st|
  {
    if st[a].relaxed < st[i].relaxed then st[i := st[i].(relaxed := st[a].relaxed, anchor := name)] else st
  }

  /** One result processed. */
  function Step(st: States, it: Item): (r: States)
    requires ItemInRange(it, |st|)
    ensures |r| == |st|
  {
    if st[it.src].strict == UNRESOLVED then st
    else if it.isProperty then
      LowerRelaxed(LowerStrict(st, it.dst, st[it.src].strict), it.dst, st[it.src].relaxed)
    else
      var st1 := LowerStrict(st, it.dst, st[it.src].strict + 1);
      match it.anchor
      case NoAnchor => LowerRelaxed(st1, it.dst, st[it.src].relaxed + 1)
      case AnchorAt(a) => ShareAnchor(LowerRelaxed(st1, a, st[it.src].relaxed + 1), it.dst, a, it.anchorName)
      case UnknownAnchor => st1
  }

  function OnePass(st: States, items: seq<Item>): (r: States)
    requires ItemsInRange(items, |st|)
    ensures |r| == |st|
    decreases |items|
  {
    if items == [] then st else OnePass(Step(st, items[0]), items[1..])
  }

  function ManyPasses(st: States, items: seq<Item>, k: nat): (r: States)
    requires ItemsInRange(items, |st|)
    ensures |r| == |st|
    decreases k
  {
    if k == 0 then st else ManyPasses(OnePass(st, items), items, k - 1)
  }

  // ------------------------------------------------------------ the loop

  lemma {:induction false} StablePasses(st: States, items: seq<Item>, k: nat)
    requires ItemsInRange(items, |st|) && OnePass(st, items) == st
    ensures ManyPasses(st, items, k) == st
    decreases k
  {
    if k != 0 {
      StablePasses(st, items, k - 1);
    }
  }

  /** One result, in place; `changed` reports whether any depth was lowered. */
  method RelaxItem(states: array<EntityState>, it: Item) returns (changed: bool)
    requires ItemInRange(it, states.Length)
    modifies states
    ensures states[..] == Step(old(states[..]), it)
    ensures changed <==> states[..] != old(states[..])
  {
    changed := false;
    var source := states[it.src];
    if source.strict == UNRESOLVED {
      return;
    }
    ghost var st := states[..];
    if it.isProperty {
      if source.strict < states[it.dst].strict {
        states[it.dst] := states[it.dst].(strict := source.strict);
        changed := true;
      }
      if source.relaxed < states[it.dst].relaxed {
        states[it.dst] := states[it.dst].(relaxed := source.relaxed);
        changed := true;
      }
      return;
    }
    if source.strict + 1 < states[it.dst].strict {
      states[it.dst] := states[it.dst].(strict := source.strict + 1);
      changed := true;
    }
    match it.anchor
    case AnchorAt(a) =>
      if source.relaxed + 1 < states[a].relaxed {
        states[a] := states[a].(relaxed := source.relaxed + 1);
        changed := true;
      }
      if states[a].relaxed < states[it.dst].relaxed {
        states[it.dst] := states[it.dst].(relaxed := states[a].relaxed, anchor := it.anchorName);
        changed := true;
      }
    case UnknownAnchor =>
    case NoAnchor =>
      if source.relaxed + 1 < states[it.dst].relaxed {
        states[it.dst] := states[it.dst].(relaxed := source.relaxed + 1);
        changed := true;
      }
  }

  method RelaxAll(states: array<EntityState>, items: seq<Item>) returns (changed: bool)
    requires ItemsInRange(items, states.Length)
    modifies states
    ensures states[..] == OnePass(old(states[..]), items)
    ensures !changed ==> states[..] == old(states[..])
  {
    changed := false;
    for j := 0 to |items|
      invariant ItemsInRange(items[j..], states.Length)
      invariant OnePass(states[..], items[j..]) == OnePass(old(states[..]), items)
      invariant !changed ==> states[..] == old(states[..])
    {
      assert items[j..][0] == items[j] && items[j..][1..] == items[j + 1..];
      var c := RelaxItem(states, items[j]);
      changed := changed || c;
    }
  }

  /** The whole loop; leaving early does not change what is computed. */
  method RelaxDepths(states: array<EntityState>, items: seq<Item>, entityCount: nat)
    requires ItemsInRange(items, states.Length)
    modifies states
    ensures states[..] == ManyPasses(old(states[..]), items, entityCount)
  {
    for i := 0 to entityCount
      invariant ManyPasses(states[..], items, entityCount - i) == ManyPasses(old(states[..]), items, entityCount)
    {
      ghost var st := states[..];
      var changed := RelaxAll(states, items);
      if !changed {
        StablePasses(st, items, entityCount - i);
        break;
      }
    }
  }

  // ------------------------------------------------------------ strict depths

  function StrictOf(st: States): (d: seq<nat>)
    ensures |d| == |st|
  {
    seq(|st|, i requires 0 <= i < |st| => st[i].strict)
  }

  function RelaxedOf(st: States): (d: seq<nat>)
    ensures |d| == |st|
  {
    seq(|st|, i requires 0 <= i < |st| => st[i].relaxed)
  }

  function StrictEdge(it: Item): Edge {
    Edge(it.src, it.dst, if it.isProperty then 0 else 1)
  }

  function StrictEdges(items: seq<Item>): (es: seq<Edge>)
    ensures |es| == |items| && forall i :: 0 <= i < |es| ==> es[i] == StrictEdge(items[i])
  {
    if items == [] then [] else [StrictEdge(items[0])] + StrictEdges(items[1..])
  }

  predicate Bounded(st: States) {
    forall s <- st :: s.strict <= UNRESOLVED
  }

  lemma StepStrict(st: States, it: Item)
    requires ItemInRange(it, |st|) && Bounded(st)
    ensures StrictOf(Step(st, it)) == Relax(StrictOf(st), StrictEdge(it))
    ensures Bounded(Step(st, it))
  {
    assert st[it.src] in st && st[it.dst] in st;
    assert it.anchor.AnchorAt? ==> st[it.anchor.id] in st;
  }

  lemma {:induction false} PassStrict(st: States, items: seq<Item>)
    requires ItemsInRange(items, |st|) && Bounded(st)
    ensures InRange(StrictEdges(items), |st|)
    ensures StrictOf(OnePass(st, items)) == Pass(StrictOf(st), StrictEdges(items))
    ensures Bounded(OnePass(st, items))
    decreases |items|
  {
    if items != [] {
      StepStrict(st, items[0]);
      PassStrict(Step(st, items[0]), items[1..]);
    }
  }

  lemma {:induction false} PassesStrict(st: States, items: seq<Item>, k: nat)
    requires ItemsInRange(items, |st|) && Bounded(st)
    ensures InRange(StrictEdges(items), |st|)
    ensures StrictOf(ManyPasses(st, items, k)) == Passes(StrictOf(st), StrictEdges(items), k)
    ensures Bounded(ManyPasses(st, items, k))
    decreases k
  {
    PassStrict(st, items);
    if k != 0 {
      PassesStrict(OnePass(st, items), items, k - 1);
    }
  }

  /** Every strict depth is the minimum, over start entities and chains of results, of the
      start depth plus the number of non-property results on the chain; in any result order. */
  lemma StrictDepthsExact(st: States, items: seq<Item>, entityCount: nat)
    requires ItemsInRange(items, |st|) && Bounded(st) && |st| == entityCount + 1
    ensures Exact(StrictOf(st), StrictEdges(items), StrictOf(ManyPasses(st, items, entityCount)))
  {
    PassesStrict(st, items, entityCount);
    forall e <- StrictEdges(items) ensures e.dst != 0 {
      var i :| 0 <= i < |items| && e == StrictEdge(items[i]);
      assert items[i] in items;
    }
    PassesAreExact(StrictOf(st), StrictEdges(items), entityCount);
  }

  // ------------------------------------------------------------ relaxed depths

  /** A result with an anchor costs one hop to the anchor and none from there to the target. */
  function RelaxedEdge(it: Item): seq<Edge> {
    if it.isProperty then [Edge(it.src, it.dst, 0)]
    else match it.anchor
      case NoAnchor => [Edge(it.src, it.dst, 1)]
      case AnchorAt(a) => [Edge(it.src, a, 1), Edge(a, it.dst, 0)]
      case UnknownAnchor => []
  }

  function RelaxedEdges(items: seq<Item>): seq<Edge> {
    if items == [] then [] else RelaxedEdge(items[0]) + RelaxedEdges(items[1..])
  }

  lemma {:induction false} RelaxedEdgesInRange(items: seq<Item>, n: nat)
    requires ItemsInRange(items, n)
    ensures InRange(RelaxedEdges(items), n) && forall e <- RelaxedEdges(items) :: e.dst != 0
    decreases |items|
  {
    if items != [] {
      assert items[0] in items;
      RelaxedEdgesInRange(items[1..], n);
    }
  }

  /** No result is processed while its source is unresolved. */
  ghost predicate NeverSkips(st: States, items: seq<Item>)
    requires ItemsInRange(items, |st|)
    decreases |items|
  {
    items != [] ==>
      && ItemInRange(items[0], |st|)
      && st[items[0].src].strict != UNRESOLVED
      && NeverSkips(Step(st, items[0]), items[1..])
  }

  lemma StepRelaxed(st: States, it: Item)
    requires ItemInRange(it, |st|) && st[it.src].strict != UNRESOLVED
    ensures InRange(RelaxedEdge(it), |st|)
    ensures RelaxedOf(Step(st, it)) == Pass(RelaxedOf(st), RelaxedEdge(it))
  {
    var d := RelaxedOf(st);
    if !it.isProperty && it.anchor.AnchorAt? {
      var e, f := Edge(it.src, it.anchor.id, 1), Edge(it.anchor.id, it.dst, 0);
      assert RelaxedEdge(it)[1..] == [f];
      assert Pass(d, RelaxedEdge(it)) == Pass(Relax(d, e), [f]) == Relax(Relax(d, e), f);
    }
  }

  lemma {:induction false} PassRelaxed(st: States, items: seq<Item>)
    requires ItemsInRange(items, |st|) && NeverSkips(st, items)
    ensures InRange(RelaxedEdges(items), |st|)
    ensures RelaxedOf(OnePass(st, items)) == Pass(RelaxedOf(st), RelaxedEdges(items))
    decreases |items|
  {
    RelaxedEdgesInRange(items, |st|);
    if items != [] {
      StepRelaxed(st, items[0]);
      PassRelaxed(Step(st, items[0]), items[1..]);
      PassConcat(RelaxedOf(st), RelaxedEdge(items[0]), RelaxedEdges(items[1..]));
    }
  }

  ghost predicate SourcesResolved(st: States, items: seq<Item>)
    requires ItemsInRange(items, |st|)
  {
    forall it <- items :: st[it.src].strict < UNRESOLVED
  }

  ghost predicate StrictBelow(a: States, b: States) {
    |a| == |b| && forall i :: 0 <= i < |a| ==> a[i].strict <= b[i].strict
  }

  lemma {:induction false} PassLowersStrict(st: States, items: seq<Item>)
    requires ItemsInRange(items, |st|)
    ensures StrictBelow(OnePass(st, items), st)
    decreases |items|
  {
    if items != [] {
      PassLowersStrict(Step(st, items[0]), items[1..]);
    }
  }

  lemma {:induction false} ResolvedNeverSkips(st: States, items: seq<Item>)
    requires ItemsInRange(items, |st|) && SourcesResolved(st, items)
    ensures NeverSkips(st, items)
    decreases |items|
  {
    if items != [] {
      assert items[0] in items && forall it <- items[1..] :: it in items;
      ResolvedNeverSkips(Step(st, items[0]), items[1..]);
    }
  }

  lemma {:induction false} NeverSkipsResolves(st: States, items: seq<Item>)
    requires ItemsInRange(items, |st|) && Bounded(st) && NeverSkips(st, items)
    ensures SourcesResolved(OnePass(st, items), items)
    decreases |items|
  {
    if items != [] {
      var it, rest := items[0], items[1..];
      StepStrict(st, it);
      NeverSkipsResolves(Step(st, it), rest);
      PassLowersStrict(st, items);
      assert st[it.src] in st;
      assert forall x <- items :: x == it || x in rest;
    }
  }

  lemma {:induction false} PassesRelaxed(st: States, items: seq<Item>, k: nat)
    requires ItemsInRange(items, |st|) && Bounded(st) && NeverSkips(st, items)
    ensures InRange(RelaxedEdges(items), |st|)
    ensures RelaxedOf(ManyPasses(st, items, k)) == Passes(RelaxedOf(st), RelaxedEdges(items), k)
    decreases k
  {
    PassRelaxed(st, items);
    if k != 0 {
      PassStrict(st, items);
      NeverSkipsResolves(st, items);
      ResolvedNeverSkips(OnePass(st, items), items);
      PassesRelaxed(OnePass(st, items), items, k - 1);
    }
  }

  /** When the skip never fires, every relaxed depth is the minimum over start entities and
      chains in which results with a common anchor share that anchor's depth. */
  lemma RelaxedDepthsExact(st: States, items: seq<Item>, entityCount: nat)
    requires ItemsInRange(items, |st|) && Bounded(st) && |st| == entityCount + 1
    requires NeverSkips(st, items)
    ensures Exact(RelaxedOf(st), RelaxedEdges(items), RelaxedOf(ManyPasses(st, items, entityCount)))
  {
    PassesRelaxed(st, items, entityCount);
    RelaxedEdgesInRange(items, |st|);
    PassesAreExact(RelaxedOf(st), RelaxedEdges(items), entityCount);
  }

  // ------------------------------------------------------------ when the skip cannot fire

  /** Every source is the root or the target of an earlier result. */
  ghost predicate SourcesTargeted(items: seq<Item>, rootID: nat) {
    forall i :: 0 <= i < |items| ==>
      items[i].src == rootID || exists j :: 0 <= j < i && items[j].dst == items[i].src
  }

  lemma StepBounds(st: States, it: Item)
    requires ItemInRange(it, |st|) && st[it.src].strict < UNRESOLVED
    ensures StrictBelow(Step(st, it), st) && Step(st, it)[it.dst].strict <= st[it.src].strict + 1
  {
  }

  ghost predicate TargetsWithin(st: States, done: seq<Item>, bound: nat) {
    forall it <- done :: it.dst < |st| && st[it.dst].strict <= bound
  }

  lemma TargetedSource(done: seq<Item>, it: Item, rest: seq<Item>, rootID: nat)
    requires SourcesTargeted(done + [it] + rest, rootID)
    ensures it.src == rootID || exists x <- done :: x.dst == it.src
  {
    var all := done + [it] + rest;
    assert all[|done|] == it;
    if it.src != rootID {
      var j :| 0 <= j < |done| && all[j].dst == it.src;
      assert all[j] == done[j] && done[j] in done;
    }
  }

  lemma {:induction false} TargetedNeverSkips(st: States, done: seq<Item>, todo: seq<Item>, rootID: nat, base: nat)
    requires ItemsInRange(todo, |st|) && SourcesTargeted(done + todo, rootID) && rootID < |st|
    requires st[rootID].strict <= base && base + |done| + |todo| < UNRESOLVED
    requires TargetsWithin(st, done, base + |done|)
    ensures NeverSkips(st, todo)
    decreases |todo|
  {
    if todo != [] {
      var it, rest := todo[0], todo[1..];
      assert it in todo;
      assert done + [it] + rest == done + todo;
      TargetedSource(done, it, rest, rootID);
      StepBounds(st, it);
      assert TargetsWithin(Step(st, it), done + [it], base + |done| + 1);
      TargetedNeverSkips(Step(st, it), done + [it], rest, rootID, base);
    }
  }

  /** Hence for a root of known depth the relaxed depths of such a batch are exact. */
  lemma RelaxedExactWhenTargeted(st: States, items: seq<Item>, rootID: nat, entityCount: nat)
    requires ItemsInRange(items, |st|) && Bounded(st) && |st| == entityCount + 1
    requires rootID < |st| && st[rootID].strict + |items| < UNRESOLVED && SourcesTargeted(items, rootID)
    ensures Exact(RelaxedOf(st), RelaxedEdges(items), RelaxedOf(ManyPasses(st, items, entityCount)))
  {
    assert [] + items == items;
    TargetedNeverSkips(st, [], items, rootID, st[rootID].strict);
    RelaxedDepthsExact(st, items, entityCount);
  }

  /** Root 1 yields 2 with anchor 3 and the property 4, and 3 yields 5; nothing but the root has a depth. */
  predicate AnchorOnlySource(st: States, items: seq<Item>) {
    && |st| == 6 && st[1].strict == 0 && st[1].relaxed == 0
    && (forall i :: 2 <= i < 6 ==> st[i].strict == UNRESOLVED && st[i].relaxed == UNRESOLVED)
    && |items| == 3 && items[0] == Item(1, 2, false, items[0].anchorName, AnchorAt(3))
    && items[1] == Item(1, 4, true, "", NoAnchor) && items[2] == Item(3, 5, false, "", NoAnchor)
  }

  lemma AnchorOnlyPasses(st: States, items: seq<Item>)
    requires AnchorOnlySource(st, items)
    ensures ItemsInRange(items, 6) && ManyPasses(st, items, 5)[5].relaxed == UNRESOLVED
    ensures OnePass(ManyPasses(st, items, 5), items) == ManyPasses(st, items, 5)
  {
    var i0, i1, i2 := items[0], items[1], items[2];
    assert items == [i0, i1, i2] && items[1..] == [i1, i2] && [i1, i2][1..] == [i2] && [i2][1..] == [];
    var st' := Step(Step(st, i0), i1);
    assert Step(st', i2) == st' && Step(st', i0) == st' && Step(st', i1) == st';
    assert OnePass(st', [i2]) == OnePass(Step(st', i2), []) == st';
    assert OnePass(st, items) == st' && OnePass(st', items) == st';
    StablePasses(st', items, 4);
  }

  /** With a source that is only an anchor the skip fires and a relaxed depth is lost: the chain
      1-3-5 costs 2, yet 5 ends unresolved. */
  lemma SkipLosesRelaxedDepth(st: States, items: seq<Item>)
    requires AnchorOnlySource(st, items)
    ensures ItemsInRange(items, 6) && ManyPasses(st, items, 5)[5].relaxed == UNRESOLVED
    ensures OnePass(ManyPasses(st, items, 5), items) == ManyPasses(st, items, 5)
    ensures Attained(RelaxedOf(st), RelaxedEdges(items), 5, 2)
    ensures !Exact(RelaxedOf(st), RelaxedEdges(items), RelaxedOf(ManyPasses(st, items, 5)))
  {
    AnchorOnlyPasses(st, items);
    var i0, i1, i2 := items[0], items[1], items[2];
    assert items == [i0, i1, i2] && items[1..] == [i1, i2] && [i1, i2][1..] == [i2] && [i2][1..] == [];
    var es := RelaxedEdges(items);
    var e, f := Edge(1, 3, 1), Edge(3, 5, 1);
    assert RelaxedEdges([i2]) == [f] + RelaxedEdges([]);
    assert RelaxedEdges([i1, i2]) == [Edge(1, 4, 0)] + RelaxedEdges([i2]);
    assert es == [e, Edge(3, 2, 0)] + RelaxedEdges([i1, i2]);
    assert e in es && f in es;
    var p := [e, f];
    assert p[..1] == [e] && [e][..0] == [];
    assert Cost([e]) == Cost([]) + 1 && Cost(p) == Cost([e]) + 1;
    assert IsWalk(es, 1, [e], 3) && IsWalk(es, 1, p, 5);
    assert RelaxedOf(st)[1] == 0;
    var d := RelaxedOf(ManyPasses(st, items, 5));
    assert d[5] == UNRESOLVED;
    assert !LowerBound(RelaxedOf(st), es, 5, d[5]);
  }
}
