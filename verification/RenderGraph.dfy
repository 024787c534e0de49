/**
 The graph that is rendered, its walks, and how often a node is printed in full.
 */
module RenderGraph {
  import opened Collections

  datatype Node = Node(value: string, isProperty: bool)
  datatype TreeEdge = TreeEdge(source: string, target: string)
  datatype ResultGraph = ResultGraph(nodes: map<string, Node>, edges: seq<TreeEdge>)

  /** One printed line; `seen` marks a repeated entity, which is not expanded. */
  datatype Line = NodeLine(id: string, seen: bool) | PropertyLine(id: string, seen: bool)

  predicate IsPropertyNode(g: ResultGraph, x: string) {
    x in g.nodes && g.nodes[x].isProperty
  }

  predicate HasEdge(g: ResultGraph, x: string, y: string) {
    TreeEdge(x, y) in g.edges
  }

  // ------------------------------------------------------------ walks

  ghost predicate Path(g: ResultGraph, avoid: set<string>, p: seq<string>) {
    && p != [] && (forall k :: 0 <= k < |p| ==> p[k] !in avoid)
    && forall k :: 0 <= k < |p| - 1 ==> HasEdge(g, p[k], p[k + 1])
  }

  ghost predicate PathFromTo(g: ResultGraph, avoid: set<string>, p: seq<string>, a: string, b: string) {
    Path(g, avoid, p) && p[0] == a && p[|p| - 1] == b
  }

  /** A walk leads from `a` to `b` past none of `avoid`. */
  ghost predicate WalkLeads(g: ResultGraph, avoid: set<string>, a: string, b: string) {
    exists p :: PathFromTo(g, avoid, p, a, b)
  }

  lemma LeadsSelf(g: ResultGraph, avoid: set<string>, a: string)
    requires a !in avoid
    ensures WalkLeads(g, avoid, a, a)
  {
    assert PathFromTo(g, avoid, [a], a, a);
  }

  lemma LeadsFrom(g: ResultGraph, avoid: set<string>, a: string, b: string, c: string)
    requires a !in avoid && HasEdge(g, a, b) && WalkLeads(g, avoid, b, c)
    ensures WalkLeads(g, avoid, a, c)
  {
    var p :| PathFromTo(g, avoid, p, b, c);
    assert PathFromTo(g, avoid, [a] + p, a, c);
  }

  lemma LeadsAvoidingLess(g: ResultGraph, more: set<string>, less: set<string>, a: string, b: string)
    requires WalkLeads(g, more, a, b) && less <= more
    ensures WalkLeads(g, less, a, b)
  {
    var p :| PathFromTo(g, more, p, a, b);
    assert PathFromTo(g, less, p, a, b);
  }

  /** The properties of a node from which a walk leads back to it. */
  ghost function Back(g: ResultGraph, x: string): (s: set<string>)
    ensures forall p :: p in s <==> HasEdge(g, x, p) && IsPropertyNode(g, p) && WalkLeads(g, {}, p, x)
  {
    var s := set i | 0 <= i < |g.edges| && g.edges[i].source == x && IsPropertyNode(g, g.edges[i].target)
        && WalkLeads(g, {}, g.edges[i].target, x)
               :: g.edges[i].target;
    forall p ensures p in s <==> HasEdge(g, x, p) && IsPropertyNode(g, p) && WalkLeads(g, {}, p, x) {
      if p in s {
        var i :| 0 <= i < |g.edges| && g.edges[i].source == x && g.edges[i].target == p;
        assert g.edges[i] == TreeEdge(x, p);
      }
    }
    s
  }

  /** The node leads back to itself by way of properties alone. */
  ghost predicate LoopsBack(g: ResultGraph, x: string) {
    exists p :: PropertyLoop(g, x, p)
  }

  ghost predicate PropertyLoop(g: ResultGraph, x: string, p: seq<string>) {
    && p != [] && HasEdge(g, x, p[0]) && HasEdge(g, p[|p| - 1], x)
    && (forall k :: 0 <= k < |p| ==> IsPropertyNode(g, p[k]))
    && forall k :: 0 <= k < |p| - 1 ==> HasEdge(g, p[k], p[k + 1])
  }

  /** As in every stored graph: a property has one parent, and the empty string names no entity. */
  predicate OneParent(g: ResultGraph) {
    && (forall i, j ::
          0 <= i < |g.edges| && 0 <= j < |g.edges|
          && g.edges[i].target == g.edges[j].target && IsPropertyNode(g, g.edges[i].target) ==>
            g.edges[i].source == g.edges[j].source)
    && "" !in g.nodes
  }

  // ------------------------------------------------------------ full prints

  /** How often the node is printed in full. */
  function FullPrints(id: string, ls: seq<Line>): nat {
    if ls == [] then 0
    else FullPrints(id, ls[..|ls| - 1]) + (if ls[|ls| - 1] == NodeLine(id, false) then 1 else 0)
  }

  lemma FullPrintsAppend(id: string, ls: seq<Line>, l: Line)
    ensures FullPrints(id, ls + [l]) == FullPrints(id, ls) + (if l == NodeLine(id, false) then 1 else 0)
  {
    assert (ls + [l])[..|ls|] == ls;
  }

  predicate InFull(id: string, ls: seq<Line>) {
    NodeLine(id, false) in ls || PropertyLine(id, false) in ls
  }

  /** What `x` leads to is marked. */
  predicate Done(g: ResultGraph, x: string, marked: set<string>) {
    forall i :: 0 <= i < |g.edges| && g.edges[i].source == x ==> g.edges[i].target in marked
  }

  lemma DoneMeaning(g: ResultGraph, x: string, marked: set<string>)
    ensures Done(g, x, marked) <==> forall y :: HasEdge(g, x, y) ==> y in marked
  {
    if forall y :: HasEdge(g, x, y) ==> y in marked {
      forall i | 0 <= i < |g.edges| && g.edges[i].source == x ensures g.edges[i].target in marked {
        assert g.edges[i] == TreeEdge(x, g.edges[i].target);
        assert HasEdge(g, x, g.edges[i].target);
      }
    }
  }

  ghost predicate NewDone(g: ResultGraph, before: set<string>, marked: set<string>) {
    before <= marked && forall x :: x in marked && x !in before ==> Done(g, x, marked)
  }

  /** A walk past nothing marked before ends in what is marked now, once it starts there. */
  lemma {:induction false} WalkIsMarked(g: ResultGraph, before: set<string>, marked: set<string>, p: seq<string>)
    requires NewDone(g, before, marked) && Path(g, before, p) && p[0] in marked
    ensures p[|p| - 1] in marked
    decreases |p|
  {
    if |p| > 1 {
      var q := p[..|p| - 1];
      assert Path(g, before, q);
      WalkIsMarked(g, before, marked, q);
      DoneMeaning(g, q[|q| - 1], marked);
      assert HasEdge(g, p[|p| - 2], p[|p| - 2 + 1]);
    }
  }

  /** Newly marked entities are reached from one of the starts past nothing marked before. */
  ghost predicate Reached(g: ResultGraph, before: set<string>, marked: set<string>, starts: set<string>) {
    forall x :: x in marked && x !in before ==> exists s :: s in starts && WalkLeads(g, before, s, x)
  }

  /** What a stretch of printing did to the count of one node: nothing if the node was marked before
      or is not marked yet; otherwise it was printed in full at least once, and at most once more
      for each property that leads back to it and was still open. */
  ghost predicate Counted(g: ResultGraph, x: string, before: set<string>, marked: set<string>, ls: seq<Line>,
      later: seq<Line>) {
    if x in before || x !in marked then FullPrints(x, later) == FullPrints(x, ls)
    else !IsPropertyNode(g, x) ==>
      FullPrints(x, ls) < FullPrints(x, later) <= FullPrints(x, ls) + 1 + |Back(g, x) - before|
  }

  /** Nodes that loop back and were not being printed already are printed at least twice. */
  ghost predicate Twice(g: ResultGraph, x: string, active: set<string>, before: set<string>, marked: set<string>,
      ls: seq<Line>, later: seq<Line>) {
    OneParent(g) && x in marked && x !in before && x !in active && !IsPropertyNode(g, x) && LoopsBack(g, x) ==>
      FullPrints(x, ls) + 2 <= FullPrints(x, later)
  }

  /** A stretch of printing: from the marks and lines at its start to those at its end. */
  ghost predicate Grown(g: ResultGraph, active: set<string>, before: set<string>, marked: set<string>, ls: seq<Line>,
      later: seq<Line>) {
    && NewDone(g, before, marked) && ls <= later
    && (forall x :: x in marked && x !in before ==> InFull(x, later))
    && (forall x :: Counted(g, x, before, marked, ls, later))
    && (forall x :: Twice(g, x, active, before, marked, ls, later))
  }

  lemma GrownSelf(g: ResultGraph, active: set<string>, marked: set<string>, ls: seq<Line>)
    ensures Grown(g, active, marked, marked, ls, ls)
  {
  }

  lemma FewerOpen(s: set<string>, less: set<string>, more: set<string>)
    requires less <= more
    ensures |s - more| <= |s - less|
  {
    SubsetSize(s - more, s - less);
  }

  lemma CountedTrans(g: ResultGraph, x: string, a: set<string>, b: set<string>, c: set<string>, l0: seq<Line>,
      l1: seq<Line>, l2: seq<Line>)
    requires a <= b <= c && Counted(g, x, a, b, l0, l1) && Counted(g, x, b, c, l1, l2)
    ensures Counted(g, x, a, c, l0, l2)
  {
    FewerOpen(Back(g, x), a, b);
  }

  lemma GrownTrans(g: ResultGraph, active: set<string>, a: set<string>, b: set<string>, c: set<string>, l0: seq<Line>,
      l1: seq<Line>, l2: seq<Line>)
    requires Grown(g, active, a, b, l0, l1) && Grown(g, active, b, c, l1, l2)
    ensures Grown(g, active, a, c, l0, l2)
  {
    forall x ensures Counted(g, x, a, c, l0, l2) {
      CountedTrans(g, x, a, b, c, l0, l1, l2);
    }
    forall x ensures Twice(g, x, active, a, c, l0, l2) {
      assert Counted(g, x, a, b, l0, l1) && Counted(g, x, b, c, l1, l2);
      assert Twice(g, x, active, a, b, l0, l1) && Twice(g, x, active, b, c, l1, l2);
    }
    hide Counted, Twice;
    forall x | x in c && x !in a ensures InFull(x, l2) {
      if x in b {
        assert InFull(x, l1);
      }
    }
  }

  lemma ReachedTrans(g: ResultGraph, a: set<string>, b: set<string>, c: set<string>, s: set<string>, t: set<string>)
    requires a <= b && Reached(g, a, b, s) && Reached(g, b, c, t)
    ensures Reached(g, a, c, s + t)
  {
    forall x | x in c && x !in a ensures exists y :: y in s + t && WalkLeads(g, a, y, x) {
      if x in b {
        var y :| y in s && WalkLeads(g, a, y, x);
        assert y in s + t;
      } else {
        var y :| y in t && WalkLeads(g, b, y, x);
        LeadsAvoidingLess(g, b, a, y, x);
        assert y in s + t;
      }
    }
  }

  // ------------------------------------------------------------ a property, then what it leads to

  /** Marking a property by a line and then expanding it. */
  lemma GrownOverProperty(g: ResultGraph, active: set<string>, p: string, before: set<string>, marked: set<string>,
      ls: seq<Line>, later: seq<Line>)
    requires IsPropertyNode(g, p) && p !in before
    requires Grown(g, active, before + {p}, marked, ls + [PropertyLine(p, false)], later) && Done(g, p, marked)
    ensures Grown(g, active, before, marked, ls, later)
  {
    var b1, l1 := before + {p}, ls + [PropertyLine(p, false)];
    assert l1[|ls|] == PropertyLine(p, false) && later[|ls|] == l1[|ls|];
    forall x ensures Counted(g, x, before, marked, ls, later) && Twice(g, x, active, before, marked, ls, later) {
      FullPrintsAppend(x, ls, PropertyLine(p, false));
      assert Counted(g, x, b1, marked, l1, later) && Twice(g, x, active, b1, marked, l1, later);
      FewerOpen(Back(g, x), before, b1);
    }
  }

  lemma ReachedOverProperty(g: ResultGraph, p: string, before: set<string>, marked: set<string>, starts: set<string>)
    requires p !in before && Reached(g, before + {p}, marked, starts) && forall s :: s in starts ==> HasEdge(g, p, s)
    ensures Reached(g, before, marked, {p})
  {
    forall x | x in marked && x !in before ensures WalkLeads(g, before, p, x) {
      if x == p {
        LeadsSelf(g, before, p);
      } else {
        var s :| s in starts && WalkLeads(g, before + {p}, s, x);
        LeadsAvoidingLess(g, before + {p}, before, s, x);
        LeadsFrom(g, before, p, s, x);
      }
    }
  }

  /** The owner of an open property is printed within its expansion at most once for each of its open
      properties that lead back, this one included. */
  lemma OwnerBound(g: ResultGraph, owner: string, p: string, before: set<string>, marked: set<string>, ls: seq<Line>,
      later: seq<Line>)
    requires p !in before && HasEdge(g, owner, p) && IsPropertyNode(g, p) && !IsPropertyNode(g, owner)
    requires Counted(g, owner, before + {p}, marked, ls, later) && Reached(g, before, marked, {p})
    ensures owner in marked && owner !in before ==>
              FullPrints(owner, later) <= FullPrints(owner, ls) + |Back(g, owner) - before|
  {
    if owner in marked && owner !in before {
      LeadsAvoidingLess(g, before, {}, p, owner);
      var open := Back(g, owner) - before;
      assert p in open && Back(g, owner) - (before + {p}) == open - {p};
    }
  }

  // ------------------------------------------------------------ a node: line, properties, mark, children

  /** The node's properties are marked. */
  predicate PropertiesIn(g: ResultGraph, id: string, marked: set<string>) {
    forall i :: 0 <= i < |g.edges| && g.edges[i].source == id && IsPropertyNode(g, g.edges[i].target) ==>
          g.edges[i].target in marked
  }

  /** Some property of the node leads back to it past nothing marked. */
  ghost predicate OpenReturn(g: ResultGraph, marked: set<string>, id: string) {
    exists p :: HasEdge(g, id, p) && IsPropertyNode(g, p) && WalkLeads(g, marked, p, id)
  }

  function PropertiesOf(g: ResultGraph, id: string): (s: set<string>)
    ensures forall p :: p in s <==> HasEdge(g, id, p) && IsPropertyNode(g, p)
  {
    var s := set i | 0 <= i < |g.edges| && g.edges[i].source == id
        && IsPropertyNode(g, g.edges[i].target) :: g.edges[i].target;
    assert forall p :: HasEdge(g, id, p) && IsPropertyNode(g, p) ==> p in s;
    assert forall p :: p in s ==> HasEdge(g, id, p) by {
      forall p | p in s ensures HasEdge(g, id, p) {
        var i :| 0 <= i < |g.edges| && g.edges[i].source == id && g.edges[i].target == p;
        assert g.edges[i] == TreeEdge(id, p);
      }
    }
    s
  }

  /** While its properties are printed the node itself is printed exactly when one of them leads
      back to it past nothing marked. */
  lemma ReturnsIff(g: ResultGraph, id: string, before: set<string>, marked: set<string>)
    requires id !in before && NewDone(g, before, marked) && PropertiesOf(g, id) <= marked
    requires Reached(g, before, marked, PropertiesOf(g, id))
    ensures id in marked <==> OpenReturn(g, before, id)
  {
    if OpenReturn(g, before, id) {
      var p :| HasEdge(g, id, p) && IsPropertyNode(g, p) && WalkLeads(g, before, p, id);
      var w :| PathFromTo(g, before, w, p, id);
      assert p in PropertiesOf(g, id);
      WalkIsMarked(g, before, marked, w);
    }
    if id in marked {
      var p :| p in PropertiesOf(g, id) && WalkLeads(g, before, p, id);
    }
  }

  /** A marked property's parent is marked, or being printed. */
  ghost predicate Owned(g: ResultGraph, active: set<string>, marked: set<string>) {
    OneParent(g) ==>
      && (forall a :: a in active ==> !IsPropertyNode(g, a))
      && forall x, p :: HasEdge(g, x, p) && IsPropertyNode(g, p) && p in marked ==> x in marked || x in active
  }

  lemma {:induction false} LoopIsOpen(g: ResultGraph, active: set<string>, marked: set<string>, id: string,
      p: seq<string>, k: nat)
    requires OneParent(g) && Owned(g, active, marked) && id !in marked && id !in active
    requires PropertyLoop(g, id, p) && k < |p|
    ensures p[k] !in marked
    decreases k
  {
    if k == 0 {
      assert HasEdge(g, id, p[0]);
    } else {
      LoopIsOpen(g, active, marked, id, p, k - 1);
      assert HasEdge(g, p[k - 1], p[k - 1 + 1]);
    }
  }

  /** A node that loops back and is not being printed yet will return. */
  lemma LoopReturns(g: ResultGraph, active: set<string>, marked: set<string>, id: string)
    requires OneParent(g) && Owned(g, active, marked) && id !in marked && id !in active && LoopsBack(g, id)
    ensures OpenReturn(g, marked, id)
  {
    var p :| PropertyLoop(g, id, p);
    forall k | 0 <= k < |p| ensures p[k] !in marked {
      LoopIsOpen(g, active, marked, id, p, k);
    }
    var w := p + [id];
    assert forall k :: 0 <= k < |w| - 1 ==> HasEdge(g, w[k], w[k + 1]);
    assert PathFromTo(g, marked, w, p[0], id);
    assert HasEdge(g, id, p[0]) && IsPropertyNode(g, p[0]);
  }

  /** What one call for a node does: `open` are the marks at its start, `mid` those after its
      properties, `marked` those at its end. */
  lemma GrownOverNode(
    g: ResultGraph, active: set<string>, id: string, open: set<string>, mid: set<string>, marked: set<string>,
    ls: seq<Line>, l2: seq<Line>, later: seq<Line>)
    requires id !in open && Owned(g, active, open) && (id in mid <==> OpenReturn(g, open, id))
    requires Grown(g, active + {id}, open, mid, ls + [NodeLine(id, false)], l2)
    requires Grown(g, active, mid + {id}, marked, l2, later) && Done(g, id, marked)
    requires !IsPropertyNode(g, id) && id in mid ==>
               FullPrints(id, l2) <= FullPrints(id, ls + [NodeLine(id, false)]) + |Back(g, id) - open|
    ensures Grown(g, active, open, marked, ls, later)
    ensures !IsPropertyNode(g, id) ==> (FullPrints(id, later) == FullPrints(id, ls) + 1 <==> !OpenReturn(g, open, id))
  {
    var l1 := ls + [NodeLine(id, false)];
    assert l1[|ls|] == NodeLine(id, false) && l2[|ls|] == l1[|ls|] && later[|ls|] == l2[|ls|];
    FullPrintsAppend(id, ls, NodeLine(id, false));
    assert Counted(g, id, open, mid, l1, l2) && Counted(g, id, mid + {id}, marked, l2, later);
    forall x ensures Counted(g, x, open, marked, ls, later) && Twice(g, x, active, open, marked, ls, later) {
      if x == id {
        if OneParent(g) && id !in active && LoopsBack(g, id) {
          LoopReturns(g, active, open, id);
        }
      } else {
        OtherCounts(g, active, id, x, open, mid, marked, ls, l2, later);
      }
    }
    assert forall x :: x in marked && x !in open ==> x == id || (x in mid && x !in open) || x !in mid + {id};
    forall x | x in marked && x !in open ensures InFull(x, later) && Done(g, x, marked) {
      if x in mid && x != id {
        assert InFull(x, l2) && Done(g, x, mid);
      }
    }
  }

  lemma OtherCounts(
    g: ResultGraph, active: set<string>, id: string, x: string, open: set<string>, mid: set<string>,
        marked: set<string>,
    ls: seq<Line>, l2: seq<Line>, later: seq<Line>)
    requires x != id && Grown(g, active + {id}, open, mid, ls + [NodeLine(id, false)], l2)
    requires Grown(g, active, mid + {id}, marked, l2, later)
    ensures Counted(g, x, open, marked, ls, later) && Twice(g, x, active, open, marked, ls, later)
  {
    var l1 := ls + [NodeLine(id, false)];
    FullPrintsAppend(x, ls, NodeLine(id, false));
    assert Counted(g, x, open, mid, l1, l2) && Counted(g, x, mid + {id}, marked, l2, later);
    assert Twice(g, x, active + {id}, open, mid, l1, l2) && Twice(g, x, active, mid + {id}, marked, l2, later);
    FewerOpen(Back(g, x), open, mid + {id});
  }

  lemma ReachedOverNode(
    g: ResultGraph, id: string, open: set<string>, mid: set<string>, marked: set<string>, starts: set<string>,
        children: set<string>)
    requires id !in open && open <= mid && Reached(g, open, mid, starts) && Reached(g, mid + {id}, marked, children)
    requires forall s :: s in starts || s in children ==> HasEdge(g, id, s)
    ensures Reached(g, open, marked, {id})
  {
    forall x | x in marked && x !in open ensures WalkLeads(g, open, id, x) {
      if x == id {
        LeadsSelf(g, open, id);
      } else if x in mid {
        var s :| s in starts && WalkLeads(g, open, s, x);
        LeadsFrom(g, open, id, s, x);
      } else {
        var s :| s in children && WalkLeads(g, mid + {id}, s, x);
        LeadsAvoidingLess(g, mid + {id}, open, s, x);
        LeadsFrom(g, open, id, s, x);
      }
    }
  }

  // ------------------------------------------------------------ small steps

  lemma ReachedSelf(g: ResultGraph, marked: set<string>, starts: set<string>)
    ensures Reached(g, marked, marked, starts)
  {
  }

  lemma GrownMarks(g: ResultGraph, active: set<string>, before: set<string>, marked: set<string>, ls: seq<Line>,
      later: seq<Line>)
    requires Grown(g, active, before, marked, ls, later)
    ensures before <= marked && ls <= later && NewDone(g, before, marked)
  {
  }

  lemma GrownCount(g: ResultGraph, active: set<string>, before: set<string>, marked: set<string>, ls: seq<Line>,
      later: seq<Line>, x: string)
    requires Grown(g, active, before, marked, ls, later)
    ensures Counted(g, x, before, marked, ls, later)
  {
  }

  /** A line for something already marked changes no count. */
  lemma GrownBySeen(g: ResultGraph, active: set<string>, marked: set<string>, ls: seq<Line>, l: Line)
    requires l.seen
    ensures Grown(g, active, marked, marked, ls, ls + [l])
  {
    forall x ensures Counted(g, x, marked, marked, ls, ls + [l]) {
      FullPrintsAppend(x, ls, l);
    }
  }

  lemma OwnedInside(g: ResultGraph, active: set<string>, marked: set<string>, id: string)
    requires Owned(g, active, marked) && (OneParent(g) ==> !IsPropertyNode(g, id))
    ensures Owned(g, active + {id}, marked)
  {
  }

  lemma OwnedMarked(g: ResultGraph, active: set<string>, marked: set<string>, id: string)
    requires Owned(g, active + {id}, marked)
    ensures Owned(g, active, marked + {id})
  {
  }

  lemma OwnedProperty(g: ResultGraph, active: set<string>, marked: set<string>, owner: string, p: string)
    requires Owned(g, active, marked) && HasEdge(g, owner, p) && IsPropertyNode(g, p)
             && (owner in marked || owner in active)
    ensures Owned(g, active, marked + {p})
  {
    if OneParent(g) {
      forall x, q | HasEdge(g, x, q) && IsPropertyNode(g, q) && q in marked + {p}
        ensures x in marked + {p} || x in active {
        if q == p {
          var i :| 0 <= i < |g.edges| && g.edges[i] == TreeEdge(x, p);
          var j :| 0 <= j < |g.edges| && g.edges[j] == TreeEdge(owner, p);
          assert g.edges[i].target == g.edges[j].target;
        }
      }
    }
  }

  /** One stretch after another, from starts among the same ones. */
  lemma StretchTrans(
    g: ResultGraph, active: set<string>, a: set<string>, b: set<string>, c: set<string>, l0: seq<Line>, l1: seq<Line>,
        l2: seq<Line>,
    starts: set<string>, more: set<string>)
    requires Grown(g, active, a, b, l0, l1) && Grown(g, active, b, c, l1, l2)
    requires Reached(g, a, b, starts) && Reached(g, b, c, more) && more <= starts
    ensures Grown(g, active, a, c, l0, l2) && Reached(g, a, c, starts) && a <= b <= c
  {
    GrownMarks(g, active, a, b, l0, l1);
    GrownMarks(g, active, b, c, l1, l2);
    GrownTrans(g, active, a, b, c, l0, l1, l2);
    ReachedTrans(g, a, b, c, starts, more);
    assert starts + more == starts;
  }

  /** While the properties of `id` are printed: at most once for each of them that leads back. */
  ghost predicate OwnerCounted(g: ResultGraph, id: string, before: set<string>, marked: set<string>, ls: seq<Line>,
      later: seq<Line>) {
    !IsPropertyNode(g, id) && id in marked && id !in before ==>
          FullPrints(id, later) <= FullPrints(id, ls) + |Back(g, id) - before|
  }

  lemma OwnerSelf(g: ResultGraph, id: string, marked: set<string>, ls: seq<Line>)
    ensures OwnerCounted(g, id, marked, marked, ls, ls)
  {
  }

  lemma OwnerTrans(
    g: ResultGraph, active: set<string>, id: string, a: set<string>, b: set<string>, c: set<string>, l0: seq<Line>,
        l1: seq<Line>, l2: seq<Line>)
    requires Grown(g, active, a, b, l0, l1) && Grown(g, active, b, c, l1, l2)
    requires OwnerCounted(g, id, a, b, l0, l1) && OwnerCounted(g, id, b, c, l1, l2)
    ensures OwnerCounted(g, id, a, c, l0, l2)
  {
    GrownMarks(g, active, a, b, l0, l1);
    GrownCount(g, active, a, b, l0, l1, id);
    GrownCount(g, active, b, c, l1, l2, id);
    FewerOpen(Back(g, id), a, b);
  }
}
