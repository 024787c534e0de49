/**
 The breadth-first search over accepted results, from the entity a module was run on.
 */
module Reachability {
  datatype Key = Key(etype: string, value: string)

  /** Targets by source, in the order the results were read. */
  type Adjacency = map<Key, seq<Key>>

  function Next(adj: Adjacency, k: Key): seq<Key> {
    if k in adj then adj[k] else []
  }

  /** `p` leads from `a` to `b`, each step along one result. */
  ghost predicate IsChain(adj: Adjacency, a: Key, p: seq<Key>, b: Key) {
    && p != [] && p[0] == a && p[|p| - 1] == b
    && forall i :: 0 <= i < |p| - 1 ==> p[i + 1] in Next(adj, p[i])
  }

  ghost predicate Joined(adj: Adjacency, a: Key, b: Key) {
    exists p :: IsChain(adj, a, p, b)
  }

  lemma JoinedSelf(adj: Adjacency, a: Key)
    ensures Joined(adj, a, a)
  {
    assert IsChain(adj, a, [a], a);
  }

  lemma JoinedStep(adj: Adjacency, a: Key, b: Key, c: Key)
    requires Joined(adj, a, b) && c in Next(adj, b)
    ensures Joined(adj, a, c)
  {
    var p :| IsChain(adj, a, p, b);
    assert IsChain(adj, a, p + [c], c);
  }

  ghost predicate ClosedUnder(adj: Adjacency, s: set<Key>) {
    forall k, t :: k in s && t in Next(adj, k) ==> t in s
  }

  lemma {:induction false} ClosedHasChain(adj: Adjacency, s: set<Key>, a: Key, p: seq<Key>, b: Key)
    requires ClosedUnder(adj, s) && a in s && IsChain(adj, a, p, b)
    ensures b in s
    decreases |p|
  {
    if |p| > 1 {
      var q := p[..|p| - 1];
      assert IsChain(adj, a, q, q[|q| - 1]);
      ClosedHasChain(adj, s, a, q, q[|q| - 1]);
      assert p[|p| - 2 + 1] in Next(adj, p[|p| - 2]);
    }
  }

  /** Every key that can ever be marked. */
  function Universe(adj: Adjacency, a: Key): set<Key> {
    {a} + set k, t | k in adj && t in adj[k] :: t
  }

  /** Marks exactly the keys joined to `a`; ends on cyclic inputs, as each key is queued once. */
  method Search(adj: Adjacency, a: Key) returns (reachable: set<Key>)
    ensures forall k :: k in reachable <==> Joined(adj, a, k)
  {
    reachable := {a};
    var queue := [a];
    JoinedSelf(adj, a);
    while queue != []
      invariant a in reachable && reachable <= Universe(adj, a)
      invariant forall k :: k in reachable ==> Joined(adj, a, k)
      invariant forall k <- queue :: k in reachable
      invariant forall k, t :: k in reachable && k !in queue && t in Next(adj, k) ==> t in reachable
      decreases Universe(adj, a) - reachable, |queue|
    {
      var curr := queue[0];
      queue := queue[1..];
      ghost var before, rest := reachable, queue;
      var targets := Next(adj, curr);
      for i := 0 to |targets|
        invariant before <= reachable <= Universe(adj, a)
        invariant forall k :: k in reachable ==> Joined(adj, a, k)
        invariant forall k :: k in queue <==> k in rest || (k in reachable && k !in before)
        invariant forall t <- targets[..i] :: t in reachable
        invariant reachable == before ==> queue == rest
      {
        if targets[i] !in reachable {
          JoinedStep(adj, a, curr, targets[i]);
          reachable := reachable + {targets[i]};
          queue := queue + [targets[i]];
        }
      }
      assert targets[..|targets|] == targets;
    }
    forall k | Joined(adj, a, k) ensures k in reachable {
      var p :| IsChain(adj, a, p, k);
      ClosedHasChain(adj, reachable, a, p, k);
    }
  }
}
