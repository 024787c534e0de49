/**
 What the depth loop has computed after any number of passes, read off the states and the
 results it starts from: a relaxed depth is the least cost of a chain that the passes meet in
 time, each of its results fires after the one before it, and fires only once some chain of
 results has given its source a strict depth.
 */
module DepthTimes {
  import opened ShortestPaths
  import opened OrderedWalks
  import opened DepthLoop

  // ------------------------------------------------------------ passes as one long pass

  /** The results in the order in which `k` passes handle them. */
  function Repeated(items: seq<Item>, k: nat): (r: seq<Item>)
    ensures forall it <- r :: it in items
  {
    if k == 0 then [] else items + Repeated(items, k - 1)
  }

  lemma {:induction false} OnePassConcat(st: States, a: seq<Item>, b: seq<Item>)
    requires ItemsInRange(a, |st|) && ItemsInRange(b, |st|)
    ensures ItemsInRange(a + b, |st|) && OnePass(st, a + b) == OnePass(OnePass(st, a), b)
    decreases |a|
  {
    if a == [] {
      assert a + b == b;
    } else {
      assert (a + b)[0] == a[0] && (a + b)[1..] == a[1..] + b;
      OnePassConcat(Step(st, a[0]), a[1..], b);
    }
  }

  lemma {:induction false} PassesAreOne(st: States, items: seq<Item>, k: nat)
    requires ItemsInRange(items, |st|)
    ensures ItemsInRange(Repeated(items, k), |st|) && ManyPasses(st, items, k) == OnePass(st, Repeated(items, k))
    decreases k
  {
    if k != 0 {
      PassesAreOne(OnePass(st, items), items, k - 1);
      OnePassConcat(st, items, Repeated(items, k - 1));
    }
  }

  lemma {:induction false} OnePassLast(st: States, items: seq<Item>)
    requires items != [] && ItemsInRange(items, |st|)
    ensures var n := |items| - 1;
            && ItemsInRange(items[..n], |st|) && ItemInRange(items[n], |st|)
            && OnePass(st, items) == Step(OnePass(st, items[..n]), items[n])
    decreases |items|
  {
    var n := |items| - 1;
    assert items[n] in items && forall it <- items[..n] :: it in items;
    if n != 0 {
      assert items[0] in items && items[1..][..n - 1] == items[..n][1..];
      OnePassLast(Step(st, items[0]), items[1..]);
    }
  }

  // ------------------------------------------------------------ which results fire

  /** Some chain of results, taken in the order of `items`, gives `v` a strict depth. */
  ghost predicate ResolvedBy(st: States, items: seq<Item>, v: nat) {
    exists c: nat :: c < UNRESOLVED && AttainedInOrder(StrictOf(st), StrictEdges(items), v, c)
  }

  /** The results whose source has been given a strict depth by those before them. */
  ghost function Firing(st: States, items: seq<Item>): (r: seq<Item>)
    ensures forall it <- r :: it in items
    decreases |items|
  {
    if items == [] then []
    else
      var n := |items| - 1;
      Firing(st, items[..n]) + (if ResolvedBy(st, items[..n], items[n].src) then [items[n]] else [])
  }

  lemma ResolvedMeaning(st: States, items: seq<Item>, v: nat)
    requires ItemsInRange(items, |st|) && Bounded(st) && v < |st|
    ensures ResolvedBy(st, items, v) <==> OnePass(st, items)[v].strict != UNRESOLVED
  {
    PassStrict(st, items);
    var end := OnePass(st, items);
    assert end[v] in end && StrictOf(end)[v] == end[v].strict;
    PassIsLeastInOrder(StrictOf(st), StrictEdges(items), v);
  }

  lemma {:induction false} EdgesConcat(a: seq<Item>, b: seq<Item>)
    ensures RelaxedEdges(a + b) == RelaxedEdges(a) + RelaxedEdges(b)
    decreases |a|
  {
    if a == [] {
      assert a + b == b;
    } else {
      assert (a + b)[0] == a[0] && (a + b)[1..] == a[1..] + b;
      EdgesConcat(a[1..], b);
    }
  }

  lemma OneItemEdges(it: Item)
    ensures RelaxedEdges([it]) == RelaxedEdge(it)
  {
    assert [it][1..] == [];
  }

  /** On relaxed depths the loop does what the firing results alone would do. */
  lemma {:induction false} FiringPass(st: States, items: seq<Item>)
    requires ItemsInRange(items, |st|) && Bounded(st)
    ensures InRange(RelaxedEdges(Firing(st, items)), |st|)
    ensures RelaxedOf(OnePass(st, items)) == Pass(RelaxedOf(st), RelaxedEdges(Firing(st, items)))
    decreases |items|
  {
    RelaxedEdgesInRange(Firing(st, items), |st|);
    if items != [] {
      var n := |items| - 1;
      var st', it := OnePass(st, items[..n]), items[n];
      OnePassLast(st, items);
      FiringPass(st, items[..n]);
      ResolvedMeaning(st, items[..n], it.src);
      hide ResolvedBy, Step;
      if ResolvedBy(st, items[..n], it.src) {
        StepRelaxed(st', it);
        OneItemEdges(it);
        EdgesConcat(Firing(st, items[..n]), [it]);
        PassConcat(RelaxedOf(st), RelaxedEdges(Firing(st, items[..n])), RelaxedEdge(it));
      } else {
        QuietStep(st', it);
        assert Firing(st, items) == Firing(st, items[..n]);
      }
    }
  }

  lemma QuietStep(st: States, it: Item)
    requires ItemInRange(it, |st|) && st[it.src].strict == UNRESOLVED
    ensures Step(st, it) == st
  {
  }

  // ------------------------------------------------------------ the depths after any number of passes

  /** A chain of results to `v` that `k` passes meet in time, and that costs `c` from its start. */
  ghost predicate AttainedInTime(st: States, items: seq<Item>, k: nat, v: nat, c: nat) {
    AttainedInOrder(RelaxedOf(st), RelaxedEdges(Firing(st, Repeated(items, k))), v, c)
  }

  /** After `k` passes every relaxed depth is the least cost of a chain that is met in time. */
  lemma RelaxedIsLeastInTime(st: States, items: seq<Item>, k: nat, v: nat)
    requires ItemsInRange(items, |st|) && Bounded(st) && v < |st|
    ensures AttainedInTime(st, items, k, v, ManyPasses(st, items, k)[v].relaxed)
    ensures forall c :: AttainedInTime(st, items, k, v, c) ==> ManyPasses(st, items, k)[v].relaxed <= c
  {
    PassesAreOne(st, items, k);
    FiringPass(st, Repeated(items, k));
    PassIsLeastInOrder(RelaxedOf(st), RelaxedEdges(Firing(st, Repeated(items, k))), v);
    assert RelaxedOf(ManyPasses(st, items, k))[v] == ManyPasses(st, items, k)[v].relaxed;
  }

  /** After `k` passes every strict depth is the least cost of a chain in the order of the passes. */
  lemma StrictIsLeastInTime(st: States, items: seq<Item>, k: nat, v: nat)
    requires ItemsInRange(items, |st|) && Bounded(st) && v < |st|
    ensures var es := StrictEdges(Repeated(items, k));
            && AttainedInOrder(StrictOf(st), es, v, ManyPasses(st, items, k)[v].strict)
            && forall c :: AttainedInOrder(StrictOf(st), es, v, c) ==> ManyPasses(st, items, k)[v].strict <= c
  {
    PassesAreOne(st, items, k);
    PassStrict(st, Repeated(items, k));
    PassIsLeastInOrder(StrictOf(st), StrictEdges(Repeated(items, k)), v);
    assert StrictOf(ManyPasses(st, items, k))[v] == ManyPasses(st, items, k)[v].strict;
  }
}
