/**
 What a single in-place pass computes, edge by edge: the minimum over the chains whose edges
 it meets in the order in which the chain takes them.
 */
module OrderedWalks {
  import opened ShortestPaths

  /** `p` is `es` with some edges left out. */
  ghost predicate Subsequence(p: seq<Edge>, es: seq<Edge>)
    decreases |es|
  {
    p == [] ||
    (es != [] &&
     var n := |es| - 1;
     Subsequence(p, es[..n]) || (p[|p| - 1] == es[n] && Subsequence(p[..|p| - 1], es[..n])))
  }

  /** A chain from `s` to `v` whose edges stand in `es` in the order in which it takes them. */
  ghost predicate OrderedWalk(es: seq<Edge>, s: nat, p: seq<Edge>, v: nat) {
    IsWalk(es, s, p, v) && Subsequence(p, es)
  }

  lemma {:induction false} WalkWithin(es: seq<Edge>, es': seq<Edge>, s: nat, p: seq<Edge>, v: nat)
    requires IsWalk(es, s, p, v) && forall e <- p :: e in es'
    ensures IsWalk(es', s, p, v)
    decreases |p|
  {
    if p != [] {
      assert p[|p| - 1] in p && forall e <- p[..|p| - 1] :: e in p;
      WalkWithin(es, es', s, p[..|p| - 1], p[|p| - 1].src);
    }
  }

  lemma {:induction false} WalkEdges(es: seq<Edge>, s: nat, p: seq<Edge>, v: nat)
    requires IsWalk(es, s, p, v)
    ensures forall e <- p :: e in es
    decreases |p|
  {
    if p != [] {
      WalkEdges(es, s, p[..|p| - 1], p[|p| - 1].src);
      assert forall e <- p :: e == p[|p| - 1] || e in p[..|p| - 1];
    }
  }

  lemma {:induction false} SubsequenceEdges(p: seq<Edge>, es: seq<Edge>)
    requires Subsequence(p, es)
    ensures forall e <- p :: e in es
    decreases |es|
  {
    if p != [] {
      var n := |es| - 1;
      if Subsequence(p, es[..n]) {
        SubsequenceEdges(p, es[..n]);
      } else {
        SubsequenceEdges(p[..|p| - 1], es[..n]);
        assert forall e <- p :: e == p[|p| - 1] || e in p[..|p| - 1];
      }
    }
  }

  /** A chain in order either never takes the last edge or takes it last. */
  lemma OrderedLast(es: seq<Edge>, s: nat, p: seq<Edge>, v: nat)
    requires es != []
    ensures var n := |es| - 1;
            OrderedWalk(es, s, p, v) <==>
              || OrderedWalk(es[..n], s, p, v)
              || (p != [] && p[|p| - 1] == es[n] && es[n].dst == v && OrderedWalk(es[..n], s, p[..|p| - 1], es[n].src))
  {
    var n := |es| - 1;
    if OrderedWalk(es[..n], s, p, v) {
      WalkEdges(es[..n], s, p, v);
      WalkWithin(es[..n], es, s, p, v);
    }
    if p != [] && OrderedWalk(es[..n], s, p[..|p| - 1], es[n].src) {
      WalkEdges(es[..n], s, p[..|p| - 1], es[n].src);
      WalkWithin(es[..n], es, s, p[..|p| - 1], es[n].src);
    }
    if OrderedWalk(es, s, p, v) {
      if Subsequence(p, es[..n]) {
        SubsequenceEdges(p, es[..n]);
        WalkWithin(es, es[..n], s, p, v);
      } else {
        SubsequenceEdges(p[..|p| - 1], es[..n]);
        WalkWithin(es, es[..n], s, p[..|p| - 1], es[n].src);
      }
    }
  }

  ghost predicate AttainedInOrder(d: seq<nat>, es: seq<Edge>, v: nat, c: nat) {
    exists s: nat, p: seq<Edge> :: s < |d| && OrderedWalk(es, s, p, v) && c == d[s] + Cost(p)
  }

  lemma {:induction false} PassLast(d: seq<nat>, es: seq<Edge>)
    requires es != [] && InRange(es, |d|)
    ensures InRange(es[..|es| - 1], |d|) && es[|es| - 1] in es
    ensures Pass(d, es) == Relax(Pass(d, es[..|es| - 1]), es[|es| - 1])
    decreases |es|
  {
    var n := |es| - 1;
    if n != 0 {
      assert es[0] in es && es[1..][..n - 1] == es[..n][1..];
      PassLast(Relax(d, es[0]), es[1..]);
    }
  }

  lemma InOrderLast(d: seq<nat>, es: seq<Edge>, v: nat, c: nat)
    requires es != [] && AttainedInOrder(d, es, v, c)
    ensures var n := |es| - 1;
            || AttainedInOrder(d, es[..n], v, c)
            || (es[n].dst == v && es[n].w <= c && AttainedInOrder(d, es[..n], es[n].src, c - es[n].w))
  {
    var s: nat, p: seq<Edge> :| s < |d| && OrderedWalk(es, s, p, v) && c == d[s] + Cost(p);
    OrderedLast(es, s, p, v);
  }

  lemma InOrderGrows(d: seq<nat>, es: seq<Edge>, v: nat, c: nat)
    requires es != []
    ensures var n := |es| - 1;
            && (AttainedInOrder(d, es[..n], v, c) ==> AttainedInOrder(d, es, v, c))
            && (AttainedInOrder(d, es[..n], es[n].src, c) ==> AttainedInOrder(d, es, es[n].dst, c + es[n].w))
  {
    var n := |es| - 1;
    if AttainedInOrder(d, es[..n], v, c) {
      var s: nat, p: seq<Edge> :| s < |d| && OrderedWalk(es[..n], s, p, v) && c == d[s] + Cost(p);
      OrderedLast(es, s, p, v);
    }
    if AttainedInOrder(d, es[..n], es[n].src, c) {
      var s: nat, p: seq<Edge> :| s < |d| && OrderedWalk(es[..n], s, p, es[n].src) && c == d[s] + Cost(p);
      var q := p + [es[n]];
      assert q[..|q| - 1] == p;
      OrderedLast(es, s, q, es[n].dst);
      assert Cost(q) == Cost(p) + es[n].w;
    }
  }

  /** The pass leaves each vertex at the least cost of a chain in order. */
  lemma {:induction false} PassIsLeastInOrder(d: seq<nat>, es: seq<Edge>, v: nat)
    requires InRange(es, |d|) && v < |d|
    ensures AttainedInOrder(d, es, v, Pass(d, es)[v])
    ensures forall c :: AttainedInOrder(d, es, v, c) ==> Pass(d, es)[v] <= c
    decreases |es|
  {
    if es == [] {
      assert OrderedWalk([], v, [], v) && Cost([]) == 0;
    } else {
      var n := |es| - 1;
      var e := es[n];
      PassLast(d, es);
      var d' := Pass(d, es[..n]);
      PassIsLeastInOrder(d, es[..n], v);
      PassIsLeastInOrder(d, es[..n], e.src);
      InOrderGrows(d, es, v, d'[v]);
      InOrderGrows(d, es, v, d'[e.src]);
      forall c | AttainedInOrder(d, es, v, c) ensures Pass(d, es)[v] <= c {
        InOrderLast(d, es, v, c);
      }
    }
  }

  lemma InOrderIsAttained(d: seq<nat>, es: seq<Edge>, v: nat, c: nat)
    requires AttainedInOrder(d, es, v, c)
    ensures Attained(d, es, v, c)
  {
    var s: nat, p: seq<Edge> :| s < |d| && OrderedWalk(es, s, p, v) && c == d[s] + Cost(p);
  }

  /** Fewer edges attain no more. */
  lemma AttainedWithin(d: seq<nat>, es: seq<Edge>, es': seq<Edge>, v: nat, c: nat)
    requires Attained(d, es, v, c) && forall e <- es :: e in es'
    ensures Attained(d, es', v, c)
  {
    var s: nat, p: seq<Edge> :| s < |d| && IsWalk(es, s, p, v) && c == d[s] + Cost(p);
    WalkEdges(es, s, p, v);
    WalkWithin(es, es', s, p, v);
  }
}
