/**
 In-place relaxation of a distance vector over a list of weighted edges, in a fixed
 order, pass after pass.  The main result, `PassesAreExact`, is that |d| - 1 passes
 compute the exact shortest distances whatever the order of the edges: every pass that
 finds an unsettled vertex settles at least one more (`PassSettlesOne`).
 */
module ShortestPaths {
  import opened Collections

  datatype Edge = Edge(src: nat, dst: nat, w: nat)

  predicate InRange(es: seq<Edge>, n: nat) {
    forall e <- es :: e.src < n && e.dst < n
  }

  function Relax(d: seq<nat>, e: Edge): (r: seq<nat>)
    requires e.src < |d| && e.dst < |d|
    ensures |r| == |d|
  {
    if d[e.src] + e.w < d[e.dst] then d[e.dst := d[e.src] + e.w] else d
  }

  function Pass(d: seq<nat>, es: seq<Edge>): (r: seq<nat>)
    requires InRange(es, |d|)
    ensures |r| == |d|
    decreases |es|
  {
    if es == [] then d else Pass(Relax(d, es[0]), es[1..])
  }

  function Passes(d: seq<nat>, es: seq<Edge>, k: nat): (r: seq<nat>)
    requires InRange(es, |d|)
    ensures |r| == |d|
    decreases k
  {
    if k == 0 then d else Passes(Pass(d, es), es, k - 1)
  }

  /** `p` is a chain of edges of `es` that leads from `s` to `v`. */
  ghost predicate IsWalk(es: seq<Edge>, s: nat, p: seq<Edge>, v: nat) {
    if p == [] then s == v
    else
      var e := p[|p| - 1];
      e in es && e.dst == v && IsWalk(es, s, p[..|p| - 1], e.src)
  }

  ghost function Cost(p: seq<Edge>): nat {
    if p == [] then 0 else Cost(p[..|p| - 1]) + p[|p| - 1].w
  }

  ghost predicate Attained(d: seq<nat>, es: seq<Edge>, v: nat, c: nat) {
    exists s: nat, p: seq<Edge> :: s < |d| && IsWalk(es, s, p, v) && c == d[s] + Cost(p)
  }

  ghost predicate LowerBound(d: seq<nat>, es: seq<Edge>, v: nat, c: nat) {
    forall s: nat, p: seq<Edge> :: s < |d| && IsWalk(es, s, p, v) ==> c <= d[s] + Cost(p)
  }

  /** `c` is the minimum, over start vertices and chains, of start value plus chain cost. */
  ghost predicate IsShortest(d: seq<nat>, es: seq<Edge>, v: nat, c: nat) {
    Attained(d, es, v, c) && LowerBound(d, es, v, c)
  }

  // ---------------------------------------------------------------- soundness

  ghost predicate AllAttained(d0: seq<nat>, es: seq<Edge>, d: seq<nat>) {
    |d| == |d0| && forall v: nat :: v < |d| ==> Attained(d0, es, v, d[v])
  }

  lemma WalkExtends(d0: seq<nat>, es: seq<Edge>, e: Edge, c: nat)
    requires e in es && Attained(d0, es, e.src, c)
    ensures Attained(d0, es, e.dst, c + e.w)
  {
    var s: nat, p: seq<Edge> :| s < |d0| && IsWalk(es, s, p, e.src) && c == d0[s] + Cost(p);
    var q := p + [e];
    assert q[..|q| - 1] == p;
    assert IsWalk(es, s, q, e.dst) && Cost(q) == Cost(p) + e.w;
  }

  lemma StartsAttained(d0: seq<nat>, es: seq<Edge>)
    ensures AllAttained(d0, es, d0)
  {
    forall v: nat | v < |d0| ensures Attained(d0, es, v, d0[v]) {
      assert IsWalk(es, v, [], v) && Cost([]) == 0;
    }
  }

  lemma {:induction false} PassAttained(d0: seq<nat>, es: seq<Edge>, d: seq<nat>, todo: seq<Edge>)
    requires AllAttained(d0, es, d) && InRange(todo, |d|)
    requires forall e <- todo :: e in es
    ensures AllAttained(d0, es, Pass(d, todo))
    decreases |todo|
  {
    if todo != [] {
      WalkExtends(d0, es, todo[0], d[todo[0].src]);
      PassAttained(d0, es, Relax(d, todo[0]), todo[1..]);
    }
  }

  // ---------------------------------------------------------------- monotonicity

  ghost predicate Below(a: seq<nat>, b: seq<nat>) {
    |a| == |b| && forall v :: 0 <= v < |a| ==> a[v] <= b[v]
  }

  lemma {:induction false} PassBelow(d: seq<nat>, es: seq<Edge>)
    requires InRange(es, |d|)
    ensures Below(Pass(d, es), d)
    decreases |es|
  {
    if es != [] {
      PassBelow(Relax(d, es[0]), es[1..]);
    }
  }

  /** A pass leaves no target above what its sources offered when the pass began. */
  lemma {:induction false} PassRelaxes(d: seq<nat>, es: seq<Edge>, e: Edge)
    requires InRange(es, |d|) && e in es
    ensures Pass(d, es)[e.dst] <= d[e.src] + e.w
    decreases |es|
  {
    var d' := Relax(d, es[0]);
    if es[0] == e {
      PassBelow(d', es[1..]);
    } else {
      PassRelaxes(d', es[1..], e);
    }
  }

  // ---------------------------------------------------------------- progress

  lemma Cheapest(d0: seq<nat>, es: seq<Edge>, v: nat, s: nat, p: seq<Edge>)
    returns (s': nat, p': seq<Edge>)
    requires s < |d0| && IsWalk(es, s, p, v)
    ensures s' < |d0| && IsWalk(es, s', p', v)
    ensures LowerBound(d0, es, v, d0[s'] + Cost(p'))
    decreases d0[s] + Cost(p)
  {
    if LowerBound(d0, es, v, d0[s] + Cost(p)) {
      s', p' := s, p;
    } else {
      var t: nat, q: seq<Edge> :| t < |d0| && IsWalk(es, t, q, v) && d0[t] + Cost(q) < d0[s] + Cost(p);
      s', p' := Cheapest(d0, es, v, t, q);
    }
  }

  /** On a cheapest chain to an unsettled vertex some edge leads from a settled vertex
      to an unsettled one and is itself part of a cheapest chain. */
  lemma {:induction false} Frontier(d0: seq<nat>, es: seq<Edge>, d: seq<nat>, v: nat, s: nat, p: seq<Edge>)
    returns (e: Edge)
    requires InRange(es, |d0|) && Approaching(d0, es, d)
    requires v < |d0| && s < |d0| && IsWalk(es, s, p, v)
    requires LowerBound(d0, es, v, d0[s] + Cost(p)) && d0[s] + Cost(p) < d[v]
    ensures e in es && LowerBound(d0, es, e.dst, d[e.src] + e.w) && d[e.src] + e.w < d[e.dst]
    decreases |p|
  {
    if p == [] {
      assert false;
    } else {
      e := p[|p| - 1];
      var p' := p[..|p| - 1];
      forall t: nat, q: seq<Edge> | t < |d0| && IsWalk(es, t, q, e.src)
        ensures d0[s] + Cost(p') <= d0[t] + Cost(q)
      {
        var r := q + [e];
        assert r[..|r| - 1] == q;
        assert IsWalk(es, t, r, v);
      }
      if d0[s] + Cost(p') < d[e.src] {
        e := Frontier(d0, es, d, e.src, s, p');
      } else {
        assert Attained(d0, es, e.src, d[e.src]);
      }
    }
  }

  ghost function Settled(d0: seq<nat>, es: seq<Edge>, d: seq<nat>): set<nat>
    requires |d| == |d0|
  {
    set v: nat | v < |d| && LowerBound(d0, es, v, d[v])
  }

  lemma PassSettlesOne(d0: seq<nat>, es: seq<Edge>, d: seq<nat>, v: nat)
    requires InRange(es, |d0|) && Approaching(d0, es, d)
    requires v < |d| && v !in Settled(d0, es, d)
    ensures Settled(d0, es, d) < Settled(d0, es, Pass(d, es))
  {
    var s: nat, p: seq<Edge> :| s < |d0| && IsWalk(es, s, p, v) && d0[s] + Cost(p) < d[v];
    s, p := Cheapest(d0, es, v, s, p);
    var e := Frontier(d0, es, d, v, s, p);
    PassBelow(d, es);
    PassRelaxes(d, es, e);
    assert e.dst in Settled(d0, es, Pass(d, es));
    assert e.dst !in Settled(d0, es, d) by {
      assert Attained(d0, es, e.src, d[e.src]);
      WalkExtends(d0, es, e, d[e.src]);
    }
    forall u | u in Settled(d0, es, d) ensures u in Settled(d0, es, Pass(d, es)) {}
  }

  ghost function Upto(n: nat): (r: set<nat>)
    ensures |r| == n && forall v: nat :: v in r <==> v < n
  {
    if n == 0 then {} else Upto(n - 1) + {n - 1}
  }

  ghost predicate Exact(d0: seq<nat>, es: seq<Edge>, d: seq<nat>) {
    |d| == |d0| && forall v: nat :: v < |d| ==> IsShortest(d0, es, v, d[v])
  }

  lemma AllSettled(d0: seq<nat>, es: seq<Edge>, d: seq<nat>)
    requires AllAttained(d0, es, d) && |d| <= |Settled(d0, es, d)|
    ensures Exact(d0, es, d)
  {
    if Settled(d0, es, d) != Upto(|d|) {
      SubsetSize(Settled(d0, es, d), Upto(|d|));
    }
    forall v: nat | v < |d| ensures IsShortest(d0, es, v, d[v]) {
      assert v in Settled(d0, es, d);
    }
  }

  lemma PassGains(d0: seq<nat>, es: seq<Edge>, d: seq<nat>, k: nat)
    requires InRange(es, |d0|) && Approaching(d0, es, d)
    requires |d0| <= k + 1 + |Settled(d0, es, d)|
    ensures |d0| <= k + |Settled(d0, es, Pass(d, es))|
  {
    var d' := Pass(d, es);
    if Settled(d0, es, d) == Upto(|d|) {
      PassBelow(d, es);
      assert Settled(d0, es, d') == Upto(|d|);
    } else {
      var v :| v in Upto(|d|) && v !in Settled(d0, es, d);
      PassSettlesOne(d0, es, d, v);
      SubsetSize(Settled(d0, es, d), Settled(d0, es, d'));
    }
  }

  ghost predicate Approaching(d0: seq<nat>, es: seq<Edge>, d: seq<nat>) {
    AllAttained(d0, es, d) && Below(d, d0)
  }

  lemma PassApproaches(d0: seq<nat>, es: seq<Edge>, d: seq<nat>)
    requires InRange(es, |d0|) && Approaching(d0, es, d)
    ensures Approaching(d0, es, Pass(d, es))
  {
    PassAttained(d0, es, d, es);
    PassBelow(d, es);
  }

  ghost predicate WithinPasses(d0: seq<nat>, es: seq<Edge>, d: seq<nat>, k: nat) {
    InRange(es, |d0|) && Approaching(d0, es, d) && |d0| <= k + |Settled(d0, es, d)|
  }

  lemma PassWithin(d0: seq<nat>, es: seq<Edge>, d: seq<nat>, k: nat)
    requires k != 0 && WithinPasses(d0, es, d, k)
    ensures WithinPasses(d0, es, Pass(d, es), k - 1)
  {
    PassApproaches(d0, es, d);
    PassGains(d0, es, d, k - 1);
  }

  lemma WithinNone(d0: seq<nat>, es: seq<Edge>, d: seq<nat>)
    requires WithinPasses(d0, es, d, 0)
    ensures Exact(d0, es, d)
  {
    AllSettled(d0, es, d);
  }

  lemma {:induction false} PassesSettle(d0: seq<nat>, es: seq<Edge>, d: seq<nat>, k: nat)
    requires InRange(es, |d|) && WithinPasses(d0, es, d, k)
    ensures Exact(d0, es, Passes(d, es, k))
    decreases k
  {
    hide WithinPasses, Exact, Settled, Approaching, LowerBound;
    if k == 0 {
      WithinNone(d0, es, d);
    } else {
      PassWithin(d0, es, d, k);
      PassesSettle(d0, es, Pass(d, es), k - 1);
    }
  }

  /** Exactness: with a vertex 0 that no edge enters, |d0| - 1 passes are enough,
      in any edge order. */
  lemma PassesAreExact(d0: seq<nat>, es: seq<Edge>, k: nat)
    requires InRange(es, |d0|) && 1 <= |d0| <= k + 1
    requires forall e <- es :: e.dst != 0
    ensures Exact(d0, es, Passes(d0, es, k))
  {
    StartsAttained(d0, es);
    assert {0} <= Settled(d0, es, d0);
    if {0} < Settled(d0, es, d0) {
      SubsetSize({0}, Settled(d0, es, d0));
    } else {
      assert Settled(d0, es, d0) == {0};
    }
    PassesSettle(d0, es, d0, k);
  }

  /** A pass over a concatenation is a pass over each part in turn. */
  lemma {:induction false} PassConcat(d: seq<nat>, a: seq<Edge>, b: seq<Edge>)
    requires InRange(a, |d|) && InRange(b, |d|)
    ensures InRange(a + b, |d|)
    ensures Pass(d, a + b) == Pass(Pass(d, a), b)
    decreases |a|
  {
    if a == [] {
      assert a + b == b;
    } else {
      assert (a + b)[0] == a[0] && (a + b)[1..] == a[1..] + b;
      PassConcat(Relax(d, a[0]), a[1..], b);
    }
  }
}
