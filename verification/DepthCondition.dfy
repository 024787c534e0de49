/**
 Exactly when the relaxed depths come out right, for every batch, told from the states and the
 results before the loop starts.  A result is live when some chain of results gives its source a
 strict depth; the others never fire.  The depths are exact exactly when no chain through a
 result that never fires is the only cheapest one, and every cheapest chain of live results is
 met in time by the |entities| passes.
 */
module DepthCondition {
  import opened ShortestPaths
  import opened OrderedWalks
  import opened DepthLoop
  import opened DepthTimes

  // ------------------------------------------------------------ always attained, never raised

  ghost predicate RelaxedAttained(d0: seq<nat>, es: seq<Edge>, st: States) {
    |st| == |d0| && AllAttained(d0, es, RelaxedOf(st)) && Below(RelaxedOf(st), d0)
  }

  lemma StepAttained(d0: seq<nat>, es: seq<Edge>, st: States, it: Item)
    requires RelaxedAttained(d0, es, st) && ItemInRange(it, |st|) && forall e <- RelaxedEdge(it) :: e in es
    ensures RelaxedAttained(d0, es, Step(st, it))
  {
    if st[it.src].strict == UNRESOLVED {
      assert Step(st, it) == st;
    } else {
      StepRelaxed(st, it);
      PassAttained(d0, es, RelaxedOf(st), RelaxedEdge(it));
      PassBelow(RelaxedOf(st), RelaxedEdge(it));
    }
  }

  lemma {:induction false} EdgesOfItem(items: seq<Item>, it: Item)
    requires it in items
    ensures forall e <- RelaxedEdge(it) :: e in RelaxedEdges(items)
    decreases |items|
  {
    if items[0] != it {
      EdgesOfItem(items[1..], it);
    }
  }

  lemma {:induction false} ItemOfEdge(items: seq<Item>, e: Edge) returns (it: Item)
    requires e in RelaxedEdges(items)
    ensures it in items && e in RelaxedEdge(it)
    decreases |items|
  {
    if e in RelaxedEdge(items[0]) {
      it := items[0];
    } else {
      it := ItemOfEdge(items[1..], e);
    }
  }

  lemma {:induction false} OnePassAttained(d0: seq<nat>, es: seq<Edge>, st: States, todo: seq<Item>)
    requires RelaxedAttained(d0, es, st) && ItemsInRange(todo, |st|)
    requires forall it <- todo :: forall e <- RelaxedEdge(it) :: e in es
    ensures RelaxedAttained(d0, es, OnePass(st, todo))
    decreases |todo|
  {
    if todo != [] {
      assert todo[0] in todo && forall it <- todo[1..] :: it in todo;
      StepAttained(d0, es, st, todo[0]);
      OnePassAttained(d0, es, Step(st, todo[0]), todo[1..]);
    }
  }

  lemma {:induction false} PassesAttained(d0: seq<nat>, es: seq<Edge>, st: States, items: seq<Item>, k: nat)
    requires RelaxedAttained(d0, es, st) && ItemsInRange(items, |st|)
    requires forall it <- items :: forall e <- RelaxedEdge(it) :: e in es
    ensures RelaxedAttained(d0, es, ManyPasses(st, items, k))
    decreases k
  {
    if k != 0 {
      OnePassAttained(d0, es, st, items);
      PassesAttained(d0, es, OnePass(st, items), items, k - 1);
    }
  }

  // ------------------------------------------------------------ exact exactly when closed

  /** No edge could lower anything any more. */
  predicate Satisfied(d: seq<nat>, es: seq<Edge>)
    requires InRange(es, |d|)
  {
    forall e <- es :: d[e.dst] <= d[e.src] + e.w
  }

  lemma {:induction false} ClosedIsLower(d0: seq<nat>, es: seq<Edge>, d: seq<nat>, s: nat, p: seq<Edge>, v: nat)
    requires InRange(es, |d0|) && Below(d, d0) && Satisfied(d, es) && s < |d0| && v < |d0| && IsWalk(es, s, p, v)
    ensures d[v] <= d0[s] + Cost(p)
    decreases |p|
  {
    if p != [] {
      var e := p[|p| - 1];
      ClosedIsLower(d0, es, d, s, p[..|p| - 1], e.src);
    }
  }

  lemma ExactIsSatisfied(d0: seq<nat>, es: seq<Edge>, d: seq<nat>)
    requires InRange(es, |d0|) && Exact(d0, es, d)
    ensures Satisfied(d, es)
  {
    forall e | e in es ensures d[e.dst] <= d[e.src] + e.w {
      assert IsShortest(d0, es, e.dst, d[e.dst]) && IsShortest(d0, es, e.src, d[e.src]);
      WalkExtends(d0, es, e, d[e.src]);
      var s: nat, p: seq<Edge> :| s < |d0| && IsWalk(es, s, p, e.dst) && d[e.src] + e.w == d0[s] + Cost(p);
    }
  }

  lemma ExactIffSatisfied(d0: seq<nat>, es: seq<Edge>, d: seq<nat>)
    requires InRange(es, |d0|) && AllAttained(d0, es, d) && Below(d, d0)
    ensures Exact(d0, es, d) <==> Satisfied(d, es)
  {
    if Satisfied(d, es) {
      forall v: nat | v < |d| ensures IsShortest(d0, es, v, d[v]) {
        forall s: nat, p: seq<Edge> | s < |d0| && IsWalk(es, s, p, v) ensures d[v] <= d0[s] + Cost(p) {
          ClosedIsLower(d0, es, d, s, p, v);
        }
      }
    }
    if Exact(d0, es, d) {
      ExactIsSatisfied(d0, es, d);
    }
  }

  // ------------------------------------------------------------ results that never fire

  /** The result's source has no strict depth even in the end. */
  predicate Dead(final: States, it: Item)
    requires it.src < |final|
  {
    final[it.src].strict == UNRESOLVED
  }

  function LiveAt(final: States, items: seq<Item>): (r: seq<Item>)
    requires ItemsInRange(items, |final|)
    ensures forall it :: it in r <==> it in items && ItemInRange(it, |final|) && !Dead(final, it)
    decreases |items|
  {
    if items == [] then []
    else
      assert items[0] in items && forall it <- items[1..] :: it in items;
      (if Dead(final, items[0]) then [] else [items[0]]) + LiveAt(final, items[1..])
  }

  lemma {:induction false} PassOnlyLowers(st: States, items: seq<Item>, k: nat)
    requires ItemsInRange(items, |st|)
    ensures StrictBelow(ManyPasses(st, items, k), st)
    decreases k
  {
    if k != 0 {
      PassLowersStrict(st, items);
      PassOnlyLowers(OnePass(st, items), items, k - 1);
    }
  }

  lemma LiveFirst(final: States, items: seq<Item>)
    requires items != [] && ItemsInRange(items, |final|)
    ensures ItemInRange(items[0], |final|) && ItemsInRange(items[1..], |final|)
    ensures Dead(final, items[0]) ==> LiveAt(final, items) == LiveAt(final, items[1..])
    ensures !Dead(final, items[0]) ==>
              LiveAt(final, items) != [] && LiveAt(final, items)[0] == items[0]
              && LiveAt(final, items)[1..] == LiveAt(final, items[1..])
  {
    assert items[0] in items && forall it <- items[1..] :: it in items;
  }

  /** One pass over all results is one pass over the live ones, as long as strict depths stay above the final ones. */
  lemma {:induction false} PassOverLive(final: States, st: States, items: seq<Item>)
    requires ItemsInRange(items, |st|) && Bounded(st) && StrictBelow(final, OnePass(st, items)) && |final| == |st|
    ensures ItemsInRange(LiveAt(final, items), |st|) && OnePass(st, LiveAt(final, items)) == OnePass(st, items)
    decreases |items|
  {
    if items != [] {
      var it, rest := items[0], items[1..];
      LiveFirst(final, items);
      StepStrict(st, it);
      PassLowersStrict(st, items);
      assert st[it.src] in st;
      PassOverLive(final, Step(st, it), rest);
      if Dead(final, it) {
        assert st[it.src].strict == UNRESOLVED;
        assert Step(st, it) == st;
      }
    }
  }

  /** A result whose source never gets a strict depth might as well not be there. */
  lemma {:induction false} DeadNeverFire(final: States, st: States, items: seq<Item>, k: nat)
    requires ItemsInRange(items, |st|) && Bounded(st) && StrictBelow(final, ManyPasses(st, items, k)) && |final| == |st|
    ensures ItemsInRange(LiveAt(final, items), |st|)
            && ManyPasses(st, LiveAt(final, items), k) == ManyPasses(st, items, k)
    decreases k
  {
    if k != 0 {
      PassOnlyLowers(OnePass(st, items), items, k - 1);
      PassOverLive(final, st, items);
      PassStrict(st, items);
      DeadNeverFire(final, OnePass(st, items), items, k - 1);
    }
  }

  /** One that could lower something if it fired makes the relaxed depths inexact. */
  lemma DeadBreaksExactness(st: States, items: seq<Item>, k: nat, it: Item, e: Edge)
    requires ItemsInRange(items, |st|) && it in items && e in RelaxedEdge(it)
    requires ItemInRange(it, |st|) && e.src < |st| && e.dst < |st|
    requires var d := RelaxedOf(ManyPasses(st, items, k));
             d[e.src] + e.w < d[e.dst]
    ensures !Exact(RelaxedOf(st), RelaxedEdges(items), RelaxedOf(ManyPasses(st, items, k)))
  {
    var d0, es := RelaxedOf(st), RelaxedEdges(items);
    RelaxedEdgesInRange(items, |st|);
    EdgesOfItem(items, it);
    hide Exact;
    if Exact(d0, es, RelaxedOf(ManyPasses(st, items, k))) {
      ExactIsSatisfied(d0, es, RelaxedOf(ManyPasses(st, items, k)));
      assert false;
    }
  }

  // ------------------------------------------------------------ live results, told before the loop starts

  /** Some chain of results gives the result's source a strict depth. */
  ghost predicate IsLive(st: States, items: seq<Item>, it: Item) {
    exists c: nat :: c < UNRESOLVED && Attained(StrictOf(st), StrictEdges(items), it.src, c)
  }

  ghost function LiveAmong(st: States, items: seq<Item>, todo: seq<Item>): (r: seq<Item>)
    ensures forall it :: it in r <==> it in todo && IsLive(st, items, it)
    decreases |todo|
  {
    if todo == [] then []
    else (if IsLive(st, items, todo[0]) then [todo[0]] else []) + LiveAmong(st, items, todo[1..])
  }

  ghost function Live(st: States, items: seq<Item>): seq<Item> {
    LiveAmong(st, items, items)
  }

  ghost function LiveEdges(st: States, items: seq<Item>): seq<Edge> {
    RelaxedEdges(Live(st, items))
  }

  lemma {:induction false} LiveIsLiveAt(st: States, items: seq<Item>, entityCount: nat, todo: seq<Item>)
    requires ItemsInRange(items, |st|) && Bounded(st) && |st| == entityCount + 1 && ItemsInRange(todo, |st|)
    ensures LiveAmong(st, items, todo) == LiveAt(ManyPasses(st, items, entityCount), todo)
    decreases |todo|
  {
    if todo != [] {
      hide IsLive, Dead;
      assert ItemInRange(todo[0], |st|) && forall it <- todo[1..] :: it in todo;
      LiveIff(st, items, entityCount, todo[0]);
      LiveFirst(ManyPasses(st, items, entityCount), todo);
      LiveIsLiveAt(st, items, entityCount, todo[1..]);
    }
  }

  /** Which results those are is settled before the loop starts: some chain leads to the source
      from a start with a strict depth. */
  lemma LiveIff(st: States, items: seq<Item>, entityCount: nat, it: Item)
    requires ItemsInRange(items, |st|) && Bounded(st) && |st| == entityCount + 1 && it.src < |st|
    ensures IsLive(st, items, it) <==> !Dead(ManyPasses(st, items, entityCount), it)
  {
    StrictDepthsExact(st, items, entityCount);
    PassesStrict(st, items, entityCount);
    var d, es, final := StrictOf(st), StrictEdges(items), ManyPasses(st, items, entityCount);
    assert final[it.src] in final;
    assert IsShortest(d, es, it.src, StrictOf(final)[it.src]);
    if IsLive(st, items, it) {
      var c: nat :| c < UNRESOLVED && Attained(d, es, it.src, c);
      var s: nat, p: seq<Edge> :| s < |d| && IsWalk(es, s, p, it.src) && c == d[s] + Cost(p);
      assert StrictOf(final)[it.src] <= c;
    }
  }

  // ------------------------------------------------------------ what fires is live

  lemma {:induction false} StrictEdgesWithin(a: seq<Item>, b: seq<Item>)
    requires forall it <- a :: it in b
    ensures forall e <- StrictEdges(a) :: e in StrictEdges(b)
  {
    forall e | e in StrictEdges(a) ensures e in StrictEdges(b) {
      var i :| 0 <= i < |a| && e == StrictEdge(a[i]);
      assert a[i] in b;
      var j :| 0 <= j < |b| && b[j] == a[i];
      assert StrictEdges(b)[j] == e;
    }
  }

  lemma {:induction false} RelaxedEdgesWithin(a: seq<Item>, b: seq<Item>)
    requires forall it <- a :: it in b
    ensures forall e <- RelaxedEdges(a) :: e in RelaxedEdges(b)
  {
    forall e | e in RelaxedEdges(a) ensures e in RelaxedEdges(b) {
      var it := ItemOfEdge(a, e);
      EdgesOfItem(b, it);
    }
  }

  lemma ResolvedIsLive(st: States, items: seq<Item>, before: seq<Item>, it: Item)
    requires ResolvedBy(st, before, it.src) && forall x <- before :: x in items
    ensures IsLive(st, items, it)
  {
    var c: nat :| c < UNRESOLVED && AttainedInOrder(StrictOf(st), StrictEdges(before), it.src, c);
    InOrderIsAttained(StrictOf(st), StrictEdges(before), it.src, c);
    StrictEdgesWithin(before, items);
    AttainedWithin(StrictOf(st), StrictEdges(before), StrictEdges(items), it.src, c);
  }

  lemma {:induction false} FiringIsLive(st: States, items: seq<Item>, todo: seq<Item>)
    requires forall it <- todo :: it in items
    ensures forall it <- Firing(st, todo) :: it in Live(st, items)
    decreases |todo|
  {
    if todo != [] {
      hide IsLive, ResolvedBy;
      var n := |todo| - 1;
      assert forall it <- todo[..n] :: it in todo;
      FiringIsLive(st, items, todo[..n]);
      if ResolvedBy(st, todo[..n], todo[n].src) {
        ResolvedIsLive(st, items, todo[..n], todo[n]);
      }
    }
  }

  lemma InTimeIsLive(st: States, items: seq<Item>, k: nat, v: nat, c: nat)
    requires AttainedInTime(st, items, k, v, c)
    ensures Attained(RelaxedOf(st), LiveEdges(st, items), v, c)
  {
    hide IsLive, Attained, AttainedInOrder;
    var fired := Firing(st, Repeated(items, k));
    FiringIsLive(st, items, Repeated(items, k));
    RelaxedEdgesWithin(fired, Live(st, items));
    InOrderIsAttained(RelaxedOf(st), RelaxedEdges(fired), v, c);
    AttainedWithin(RelaxedOf(st), RelaxedEdges(fired), LiveEdges(st, items), v, c);
  }

  lemma LiveIsAttained(st: States, items: seq<Item>, v: nat, c: nat)
    requires Attained(RelaxedOf(st), LiveEdges(st, items), v, c)
    ensures Attained(RelaxedOf(st), RelaxedEdges(items), v, c)
  {
    hide IsLive, Attained;
    RelaxedEdgesWithin(Live(st, items), items);
    AttainedWithin(RelaxedOf(st), LiveEdges(st, items), RelaxedEdges(items), v, c);
  }

  // ------------------------------------------------------------ the exact condition

  /** No chain through a result that never fires is cheaper than every chain of live results. */
  ghost predicate DeadHarmless(st: States, items: seq<Item>) {
    forall v: nat, c: nat :: Attained(RelaxedOf(st), RelaxedEdges(items), v, c) ==>
      exists c': nat :: c' <= c && Attained(RelaxedOf(st), LiveEdges(st, items), v, c')
  }

  /** No chain of live results is cheaper than every chain that `k` passes meet in time. */
  ghost predicate InTime(st: States, items: seq<Item>, k: nat) {
    forall v: nat, c: nat :: Attained(RelaxedOf(st), LiveEdges(st, items), v, c) ==>
      exists c': nat :: c' <= c && AttainedInTime(st, items, k, v, c')
  }

  lemma AttainedInRange(d: seq<nat>, es: seq<Edge>, v: nat, c: nat)
    requires InRange(es, |d|) && Attained(d, es, v, c)
    ensures v < |d|
  {
  }

  lemma AllInRange(st: States, items: seq<Item>)
    requires ItemsInRange(items, |st|)
    ensures ItemsInRange(Live(st, items), |st|)
    ensures InRange(RelaxedEdges(items), |st|) && InRange(LiveEdges(st, items), |st|)
    ensures forall e <- LiveEdges(st, items) :: e.dst != 0
  {
    hide IsLive;
    RelaxedEdgesInRange(items, |st|);
    RelaxedEdgesInRange(Live(st, items), |st|);
  }

  /** `d` is exact over `es` when it is attained and no chain is cheaper. */
  lemma ExactMeaning(d0: seq<nat>, es: seq<Edge>, d: seq<nat>)
    requires InRange(es, |d0|) && AllAttained(d0, es, d)
    ensures Exact(d0, es, d) <==> forall v: nat, c: nat :: v < |d| && Attained(d0, es, v, c) ==> d[v] <= c
  {
    if forall v: nat, c: nat :: v < |d| && Attained(d0, es, v, c) ==> d[v] <= c {
      forall v: nat | v < |d| ensures IsShortest(d0, es, v, d[v]) {
        forall s: nat, p: seq<Edge> | s < |d0| && IsWalk(es, s, p, v) ensures d[v] <= d0[s] + Cost(p) {
          assert Attained(d0, es, v, d0[s] + Cost(p));
        }
      }
    }
    if Exact(d0, es, d) {
      forall v: nat, c: nat | v < |d| && Attained(d0, es, v, c) ensures d[v] <= c {
        assert IsShortest(d0, es, v, d[v]);
      }
    }
  }

  /** The relaxed depths after `k` passes are attained by live chains, by chains in time, and least among the latter. */
  lemma RelaxedAfter(st: States, items: seq<Item>, k: nat)
    requires ItemsInRange(items, |st|) && Bounded(st)
    ensures var d := RelaxedOf(ManyPasses(st, items, k));
            && AllAttained(RelaxedOf(st), LiveEdges(st, items), d)
            && AllAttained(RelaxedOf(st), RelaxedEdges(items), d)
            && Below(d, RelaxedOf(st))
            && (forall v: nat :: v < |d| ==> AttainedInTime(st, items, k, v, d[v]))
            && forall v: nat, c: nat :: v < |d| && AttainedInTime(st, items, k, v, c) ==> d[v] <= c
  {
    var d := RelaxedOf(ManyPasses(st, items, k));
    forall it | it in items ensures forall e <- RelaxedEdge(it) :: e in RelaxedEdges(items) {
      EdgesOfItem(items, it);
    }
    StartsAttained(RelaxedOf(st), RelaxedEdges(items));
    PassesAttained(RelaxedOf(st), RelaxedEdges(items), st, items, k);
    hide AttainedInTime, Attained, Bounded, IsLive;
    forall v: nat | v < |d|
      ensures AttainedInTime(st, items, k, v, d[v]) && Attained(RelaxedOf(st), LiveEdges(st, items), v, d[v])
      ensures forall c: nat :: AttainedInTime(st, items, k, v, c) ==> d[v] <= c
    {
      RelaxedIsLeastInTime(st, items, k, v);
      InTimeIsLive(st, items, k, v, d[v]);
    }
  }

  /** Exactness over the live results is what being in time means. */
  lemma LiveExactIff(st: States, items: seq<Item>, k: nat)
    requires ItemsInRange(items, |st|) && Bounded(st)
    ensures Exact(RelaxedOf(st), LiveEdges(st, items), RelaxedOf(ManyPasses(st, items, k))) <==> InTime(st, items, k)
  {
    hide AttainedInTime, Attained, Bounded, IsLive, Exact, LiveEdges, Below;
    var d0, es, d := RelaxedOf(st), LiveEdges(st, items), RelaxedOf(ManyPasses(st, items, k));
    AllInRange(st, items);
    RelaxedAfter(st, items, k);
    ExactMeaning(d0, es, d);
    if Exact(d0, es, d) {
      forall v: nat, c: nat | Attained(d0, es, v, c)
        ensures exists c': nat :: c' <= c && AttainedInTime(st, items, k, v, c') {
        AttainedInRange(d0, es, v, c);
        assert AttainedInTime(st, items, k, v, d[v]);
      }
    }
  }

  /** For all states and results, and any number of passes: the relaxed depths are exact exactly when
      no dead result spoils a cheapest chain and every live one is met in time. */
  lemma RelaxedExactIff(st: States, items: seq<Item>, k: nat)
    requires ItemsInRange(items, |st|) && Bounded(st)
    ensures Exact(RelaxedOf(st), RelaxedEdges(items), RelaxedOf(ManyPasses(st, items, k)))
            <==> DeadHarmless(st, items) && InTime(st, items, k)
  {
    hide AttainedInTime, Attained, Bounded, IsLive, Exact, LiveEdges, Below;
    var d0, all, live, d := RelaxedOf(st), RelaxedEdges(items), LiveEdges(st, items),
        RelaxedOf(ManyPasses(st, items, k));
    AllInRange(st, items);
    RelaxedAfter(st, items, k);
    ExactMeaning(d0, all, d);
    if Exact(d0, all, d) {
      forall v: nat, c: nat | Attained(d0, all, v, c) ensures v < |d| && d[v] <= c && Attained(d0, live, v, d[v]) {
        AttainedInRange(d0, all, v, c);
      }
      forall v: nat, c: nat | Attained(d0, live, v, c)
        ensures exists c': nat :: c' <= c && AttainedInTime(st, items, k, v, c') {
        LiveIsAttained(st, items, v, c);
        assert AttainedInTime(st, items, k, v, d[v]);
      }
    }
  }

  // ------------------------------------------------------------ when the passes come to rest

  /** One more pass would change no depth. */
  predicate AtRest(st: States, items: seq<Item>)
    requires ItemsInRange(items, |st|)
  {
    StrictOf(OnePass(st, items)) == StrictOf(st) && RelaxedOf(OnePass(st, items)) == RelaxedOf(st)
  }

  lemma {:induction false} QuietPass(d: seq<nat>, es: seq<Edge>)
    requires InRange(es, |d|)
    ensures Pass(d, es) == d <==> Satisfied(d, es)
    decreases |es|
  {
    if Pass(d, es) == d {
      forall e | e in es ensures d[e.dst] <= d[e.src] + e.w {
        PassRelaxes(d, es, e);
      }
    }
    if Satisfied(d, es) && es != [] {
      assert es[0] in es;
      QuietPass(d, es[1..]);
    }
  }

  lemma {:induction false} QuietPasses(d: seq<nat>, es: seq<Edge>, k: nat)
    requires InRange(es, |d|) && Pass(d, es) == d
    ensures Passes(d, es, k) == d
    decreases k
  {
    if k != 0 {
      QuietPasses(d, es, k - 1);
    }
  }

  /** After |entities| passes the strict depths stay as they are. */
  lemma StrictAtRest(st: States, items: seq<Item>, entityCount: nat, k: nat)
    requires ItemsInRange(items, |st|) && Bounded(st) && |st| == entityCount + 1
    ensures var final := ManyPasses(st, items, entityCount);
            Bounded(final) && StrictOf(ManyPasses(final, items, k)) == StrictOf(final)
            && StrictOf(OnePass(final, items)) == StrictOf(final)
  {
    var final := ManyPasses(st, items, entityCount);
    PassesStrict(st, items, entityCount);
    StrictDepthsExact(st, items, entityCount);
    ExactIsSatisfied(StrictOf(st), StrictEdges(items), StrictOf(final));
    QuietPass(StrictOf(final), StrictEdges(items));
    QuietPasses(StrictOf(final), StrictEdges(items), k);
    PassesStrict(final, items, k);
    PassStrict(final, items);
  }

  /** From there on, passes over all results are passes over the live ones, and none of those skips. */
  lemma LivePasses(st: States, items: seq<Item>, entityCount: nat, k: nat)
    requires ItemsInRange(items, |st|) && Bounded(st) && |st| == entityCount + 1
    ensures var final, live := ManyPasses(st, items, entityCount), Live(st, items);
            && Bounded(final) && ItemsInRange(live, |st|) && NeverSkips(final, live)
            && ManyPasses(final, items, k) == ManyPasses(final, live, k)
            && OnePass(final, items) == OnePass(final, live)
  {
    hide NeverSkips, IsLive, Dead;
    var final, live := ManyPasses(st, items, entityCount), Live(st, items);
    StrictAtRest(st, items, entityCount, k);
    LiveIsLiveAt(st, items, entityCount, items);
    StrictEqualBelow(final, ManyPasses(final, items, k));
    StrictEqualBelow(final, OnePass(final, items));
    DeadNeverFire(final, final, items, k);
    PassOverLive(final, final, items);
    LiveResolved(final, items);
    ResolvedNeverSkips(final, live);
  }

  lemma StrictEqualBelow(a: States, b: States)
    requires StrictOf(a) == StrictOf(b)
    ensures StrictBelow(a, b)
  {
    assert |StrictOf(a)| == |StrictOf(b)|;
    forall i | 0 <= i < |a| ensures a[i].strict <= b[i].strict {
      assert StrictOf(a)[i] == StrictOf(b)[i];
    }
  }

  lemma LiveResolved(final: States, items: seq<Item>)
    requires ItemsInRange(items, |final|) && Bounded(final)
    ensures ItemsInRange(LiveAt(final, items), |final|) && SourcesResolved(final, LiveAt(final, items))
  {
    forall it | it in LiveAt(final, items) ensures final[it.src].strict < UNRESOLVED {
      assert final[it.src] in final;
    }
  }

  /** The |entities| passes come to rest exactly when every live chain is met in time; the relaxed
      depths are then the least costs of live chains. */
  lemma RestIff(st: States, items: seq<Item>, entityCount: nat)
    requires ItemsInRange(items, |st|) && Bounded(st) && |st| == entityCount + 1
    ensures AtRest(ManyPasses(st, items, entityCount), items) <==> InTime(st, items, entityCount)
    ensures InTime(st, items, entityCount) <==>
              Exact(RelaxedOf(st), LiveEdges(st, items), RelaxedOf(ManyPasses(st, items, entityCount)))
  {
    hide AttainedInTime, IsLive, Exact, NeverSkips, Live, InTime;
    var final, es := ManyPasses(st, items, entityCount), LiveEdges(st, items);
    AllInRange(st, items);
    LiveExactIff(st, items, entityCount);
    RelaxedAfter(st, items, entityCount);
    StrictAtRest(st, items, entityCount, 0);
    LivePasses(st, items, entityCount, 0);
    PassRelaxed(final, Live(st, items));
    QuietPass(RelaxedOf(final), es);
    ExactIffSatisfied(RelaxedOf(st), es, RelaxedOf(final));
  }

  /** At rest, only a result that never fires can keep the relaxed depths from being exact. */
  lemma RelaxedExactAtRestIff(st: States, items: seq<Item>, entityCount: nat)
    requires ItemsInRange(items, |st|) && Bounded(st) && |st| == entityCount + 1
    requires AtRest(ManyPasses(st, items, entityCount), items)
    ensures Exact(RelaxedOf(st), RelaxedEdges(items), RelaxedOf(ManyPasses(st, items, entityCount)))
            <==> DeadHarmless(st, items)
  {
    hide InTime, DeadHarmless, Exact, AtRest;
    RestIff(st, items, entityCount);
    RelaxedExactIff(st, items, entityCount);
  }

  // ------------------------------------------------------------ enough to be in time

  lemma LiveExactStrictBelow(st: States, items: seq<Item>, entityCount: nat)
    requires ItemsInRange(items, |st|) && Bounded(st) && |st| == entityCount + 1
    ensures ItemsInRange(Live(st, items), |st|)
    ensures ManyPasses(st, Live(st, items), entityCount) == ManyPasses(st, items, entityCount)
  {
    hide IsLive, Dead;
    var final := ManyPasses(st, items, entityCount);
    LiveIsLiveAt(st, items, entityCount, items);
    DeadNeverFire(final, st, items, entityCount);
  }

  /** If the first pass gives every live result's source its strict depth before it gets there,
      |entities| passes come to rest. */
  lemma ResolvedAtOnceIsInTime(st: States, items: seq<Item>, entityCount: nat)
    requires ItemsInRange(items, |st|) && Bounded(st) && |st| == entityCount + 1
    requires ItemsInRange(Live(st, items), |st|) && NeverSkips(st, Live(st, items))
    ensures InTime(st, items, entityCount)
  {
    hide IsLive, NeverSkips, InTime, Exact;
    LiveExactStrictBelow(st, items, entityCount);
    RelaxedDepthsExact(st, Live(st, items), entityCount);
    LiveExactIff(st, items, entityCount);
  }

  lemma {:induction false} PassesAdd(st: States, items: seq<Item>, j: nat, k: nat)
    requires ItemsInRange(items, |st|)
    ensures ManyPasses(st, items, j + k) == ManyPasses(ManyPasses(st, items, j), items, k)
    decreases j
  {
    if j != 0 {
      PassesAdd(OnePass(st, items), items, j - 1, k);
    }
  }

  lemma LowerStartsAttain(d0: seq<nat>, d: seq<nat>, es: seq<Edge>, v: nat, c: nat) returns (c': nat)
    requires Below(d, d0) && Attained(d0, es, v, c)
    ensures c' <= c && Attained(d, es, v, c')
  {
    var s: nat, p: seq<Edge> :| s < |d0| && IsWalk(es, s, p, v) && c == d0[s] + Cost(p);
    c' := d[s] + Cost(p);
  }

  /** Twice as many passes always come to rest: in the second half no live result skips. */
  lemma TwiceIsInTime(st: States, items: seq<Item>, entityCount: nat)
    requires ItemsInRange(items, |st|) && Bounded(st) && |st| == entityCount + 1
    ensures InTime(st, items, 2 * entityCount)
  {
    hide IsLive, NeverSkips, Exact, AttainedInTime, Attained, Live;
    var mid, live := ManyPasses(st, items, entityCount), Live(st, items);
    var end, es := ManyPasses(mid, items, entityCount), LiveEdges(st, items);
    AllInRange(st, items);
    LivePasses(st, items, entityCount, entityCount);
    RelaxedDepthsExact(mid, live, entityCount);
    ExactAttains(RelaxedOf(mid), es, RelaxedOf(end));
    ExactMeaning(RelaxedOf(mid), es, RelaxedOf(end));
    PassesAdd(st, items, entityCount, entityCount);
    RelaxedAfter(st, items, entityCount);
    RelaxedAfter(st, items, 2 * entityCount);
    forall v: nat, c: nat | Attained(RelaxedOf(st), es, v, c)
      ensures exists c': nat :: c' <= c && AttainedInTime(st, items, 2 * entityCount, v, c')
    {
      AttainedInRange(RelaxedOf(st), es, v, c);
      var m := LowerStartsAttain(RelaxedOf(st), RelaxedOf(mid), es, v, c);
      assert RelaxedOf(end)[v] <= m;
    }
  }

  lemma ExactAttains(d0: seq<nat>, es: seq<Edge>, d: seq<nat>)
    requires Exact(d0, es, d)
    ensures AllAttained(d0, es, d)
  {
    forall v: nat | v < |d| ensures Attained(d0, es, v, d[v]) {
      assert IsShortest(d0, es, v, d[v]);
    }
  }
}
