/**
 Rendering a cyclic graph as a tree.  Nodes, properties and children print one another; a
 node is marked only after its properties, whose children may lead back to it.  Lists that
 the program sorts are taken in any order here.
 */
module TreeRenderer {
  import opened Collections
  import opened RenderGraph

  type Lists = map<string, seq<string>>

  function Of(lists: Lists, id: string): seq<string> {
    if id in lists then lists[id] else []
  }

  // ------------------------------------------------------------ the two adjacency lists

  predicate IsTarget(g: ResultGraph, id: string, x: string, property: bool) {
    HasEdge(g, id, x) && IsPropertyNode(g, x) == property
  }

  predicate NoRepeats(ids: seq<string>) {
    forall i, j :: 0 <= i < j < |ids| ==> ids[i] != ids[j]
  }

  /** The list of an id names its targets of one kind, each once. */
  ghost predicate ListsTargets(g: ResultGraph, lists: Lists, property: bool) {
    forall id :: NoRepeats(Of(lists, id)) && forall x :: x in Of(lists, id) <==> IsTarget(g, id, x, property)
  }

  /** Every distinct edge once: to a property in one list, to a node in the other. */
  method BuildLists(g: ResultGraph) returns (adj: Lists, props: Lists)
    ensures ListsTargets(g, adj, false) && ListsTargets(g, props, true)
  {
    adj, props := map[], map[];
    for n := 0 to |g.edges|
      invariant ListsTargets(g.(edges := g.edges[..n]), adj, false)
      invariant ListsTargets(g.(edges := g.edges[..n]), props, true)
    {
      var e := g.edges[n];
      assert g.edges[..n + 1] == g.edges[..n] + [e];
      if IsPropertyNode(g, e.target) {
        props := AddOnce(g, n, props, true);
        OtherKind(g, n, adj, false);
      } else {
        adj := AddOnce(g, n, adj, false);
        OtherKind(g, n, props, true);
      }
    }
    assert g.(edges := g.edges[..|g.edges|]) == g;
  }

  method AddOnce(g: ResultGraph, n: nat, lists: Lists, property: bool) returns (r: Lists)
    requires n < |g.edges| && IsPropertyNode(g, g.edges[n].target) == property
    requires ListsTargets(g.(edges := g.edges[..n]), lists, property)
    ensures ListsTargets(g.(edges := g.edges[..n + 1]), r, property)
  {
    var e := g.edges[n];
    assert g.edges[..n + 1] == g.edges[..n] + [e];
    r := lists;
    if e.target !in Of(lists, e.source) {
      NoRepeatsAppend(Of(lists, e.source), e.target);
      r := lists[e.source := Of(lists, e.source) + [e.target]];
    }
    ghost var before, after := g.(edges := g.edges[..n]), g.(edges := g.edges[..n + 1]);
    assert e.target in Of(lists, e.source) <==> IsTarget(before, e.source, e.target, property);
    assert forall id :: Of(r, id) == if id == e.source && r != lists then Of(lists, id) + [e.target] else Of(lists, id);
    forall id ensures NoRepeats(Of(r, id)) && forall x :: x in Of(r, id) <==> IsTarget(after, id, x, property) {
      assert NoRepeats(Of(lists, id));
      forall x ensures x in Of(r, id) <==> IsTarget(after, id, x, property) {
        assert IsTarget(after, id, x, property) <==> IsTarget(before, id, x, property) || (e == TreeEdge(id, x));
      }
    }
  }

  lemma OtherKind(g: ResultGraph, n: nat, lists: Lists, property: bool)
    requires n < |g.edges| && IsPropertyNode(g, g.edges[n].target) != property
    requires ListsTargets(g.(edges := g.edges[..n]), lists, property)
    ensures ListsTargets(g.(edges := g.edges[..n + 1]), lists, property)
  {
    assert g.edges[..n + 1] == g.edges[..n] + [g.edges[n]];
    ghost var before, after := g.(edges := g.edges[..n]), g.(edges := g.edges[..n + 1]);
    forall id, x ensures IsTarget(after, id, x, property) <==> IsTarget(before, id, x, property) {
    }
  }

  lemma NoRepeatsAppend(ids: seq<string>, x: string)
    requires NoRepeats(ids) && x !in ids
    ensures NoRepeats(ids + [x])
  {
  }

  lemma TwiceInList(ids: seq<string>, i: nat, j: nat)
    requires i < j < |ids| && ids[i] == ids[j]
    ensures multiset(ids)[ids[i]] >= 2
  {
    assert ids == ids[..j] + [ids[j]] + ids[j + 1..];
    assert ids[..j][i] == ids[i];
    assert ids[i] in multiset(ids[..j]);
  }

  lemma StillNoRepeats(ids: seq<string>, xs: seq<string>)
    requires multiset(ids) == multiset(xs) && NoRepeats(xs)
    ensures NoRepeats(ids)
  {
    forall i, j | 0 <= i < j < |ids| ensures ids[i] != ids[j] {
      assert ids[i] in multiset(xs);
      OnceInList(xs, ids[i]);
      if ids[i] == ids[j] {
        TwiceInList(ids, i, j);
        assert false;
      }
    }
  }

  lemma {:induction false} OnceInList(xs: seq<string>, x: string)
    requires NoRepeats(xs) && x in xs
    ensures multiset(xs)[x] == 1
    decreases |xs|
  {
    var n := |xs| - 1;
    assert xs == xs[..n] + [xs[n]];
    if x == xs[n] {
      assert x !in xs[..n];
    } else {
      OnceInList(xs[..n], x);
    }
  }

  // ------------------------------------------------------------ every edge is shown

  /** The lines that name an entity, as a node or a property as it may be. */
  function LinesOf(g: ResultGraph, y: string, ls: seq<Line>): nat {
    if ls == [] then 0
    else
      var l := ls[|ls| - 1];
      LinesOf(g, y, ls[..|ls| - 1]) + (if l.id == y && l.PropertyLine? == IsPropertyNode(g, y) then 1 else 0)
  }

  /** The lines printed in full of entities that an edge leads from to this one. */
  function Calls(g: ResultGraph, y: string, ls: seq<Line>): nat {
    if ls == [] then 0
    else
      var l := ls[|ls| - 1];
      Calls(g, y, ls[..|ls| - 1]) + (if !l.seen && HasEdge(g, l.id, y) then 1 else 0)
  }

  /** From `before` to `after` every entity is named once for each full line that calls for it, and
      those in `more` once more. */
  ghost predicate Shows(g: ResultGraph, before: seq<Line>, after: seq<Line>, more: set<string>) {
    forall y: string ::
      LinesOf(g, y, after) + Calls(g, y, before)
      == LinesOf(g, y, before) + Calls(g, y, after) + (if y in more then 1 else 0)
  }

  lemma ShowsNothing(g: ResultGraph, ls: seq<Line>)
    ensures Shows(g, ls, ls, {})
  {
  }

  lemma LineCounts(g: ResultGraph, ls: seq<Line>, l: Line, y: string)
    ensures LinesOf(g, y, ls + [l])
            == LinesOf(g, y, ls) + (if l.id == y && l.PropertyLine? == IsPropertyNode(g, y) then 1 else 0)
    ensures Calls(g, y, ls + [l]) == Calls(g, y, ls) + (if !l.seen && HasEdge(g, l.id, y) then 1 else 0)
  {
    assert (ls + [l])[..|ls|] == ls;
  }

  lemma ShowsSeen(g: ResultGraph, ls: seq<Line>, l: Line)
    requires l.seen && l.PropertyLine? == IsPropertyNode(g, l.id)
    ensures Shows(g, ls, ls + [l], {l.id})
  {
    forall y: string
      ensures LinesOf(g, y, ls + [l]) + Calls(g, y, ls)
              == LinesOf(g, y, ls) + Calls(g, y, ls + [l]) + (if y in {l.id} then 1 else 0)
    {
      LineCounts(g, ls, l, y);
    }
  }

  lemma ShowsTrans(g: ResultGraph, a: seq<Line>, b: seq<Line>, c: seq<Line>, m: set<string>, n: set<string>)
    requires Shows(g, a, b, m) && Shows(g, b, c, n) && m !! n
    ensures Shows(g, a, c, m + n)
  {
    hide LinesOf, Calls;
  }

  lemma ShowsNext(g: ResultGraph, a: seq<Line>, b: seq<Line>, c: seq<Line>, ids: seq<string>, i: nat)
    requires i < |ids| && NoRepeats(ids) && Shows(g, a, b, Elements(ids[..i])) && Shows(g, b, c, {ids[i]})
    ensures Shows(g, a, c, Elements(ids[..i + 1]))
  {
    hide Shows;
    assert ids[..i + 1] == ids[..i] + [ids[i]];
    assert Elements(ids[..i + 1]) == Elements(ids[..i]) + {ids[i]};
    ShowsTrans(g, a, b, c, Elements(ids[..i]), {ids[i]});
  }

  /** A full line and after it one line for each edge: the line itself is all that was called for. */
  lemma ShowsExpanded(
    g: ResultGraph, before: seq<Line>, l: Line, mid: seq<Line>, after: seq<Line>, m: set<string>, n: set<string>)
    requires !l.seen && m !! n && Shows(g, before + [l], mid, m) && Shows(g, mid, after, n)
    requires forall y :: HasEdge(g, l.id, y) <==> y in m + n
    ensures Shows(g, before, after, if l.PropertyLine? == IsPropertyNode(g, l.id) then {l.id} else {})
  {
    var own := if l.PropertyLine? == IsPropertyNode(g, l.id) then {l.id} else {};
    forall y: string
      ensures LinesOf(g, y, after) + Calls(g, y, before)
              == LinesOf(g, y, before) + Calls(g, y, after) + (if y in own then 1 else 0)
    {
      LineCounts(g, before, l, y);
    }
  }

  lemma RenderedLines(g: ResultGraph, ls: seq<Line>, more: set<string>)
    requires Shows(g, [], ls, more)
    ensures forall y :: LinesOf(g, y, ls) == Calls(g, y, ls) + (if y in more then 1 else 0)
  {
    assert forall y :: LinesOf(g, y, []) == 0 && Calls(g, y, []) == 0;
  }

  // ------------------------------------------------------------ rendering

  class Renderer {
    const g: ResultGraph
    const adj: Lists
    const props: Lists
    const root: string
    var visited: set<string>
    var lines: seq<Line>

    constructor (g: ResultGraph, adj: Lists, props: Lists, root: string)
      ensures this.g == g && this.adj == adj && this.props == props && this.root == root
      ensures visited == {} && lines == []
    {
      this.g, this.adj, this.props, this.root := g, adj, props, root;
      visited, lines := {}, [];
    }

    /** Every id that can ever be marked. */
    function All(): set<string> {
      g.nodes.Keys + {root} + set i | 0 <= i < |g.edges| :: g.edges[i].target
    }

    /** The lists are the graph's, and a property is printed as new once, when it is marked. */
    ghost predicate Valid() reads this {
      && ListsTargets(g, adj, false) && ListsTargets(g, props, true)
      && visited <= All()
      && (forall i :: 0 <= i < |lines| && lines[i].PropertyLine? && !lines[i].seen ==> lines[i].id in visited)
      && PropertyOnce(lines)
    }

    lemma Target(id: string, x: string)
      requires HasEdge(g, id, x)
      ensures x in All()
    {
      var i :| 0 <= i < |g.edges| && g.edges[i] == TreeEdge(id, x);
      assert g.edges[i].target == x;
    }

    lemma ListsMeanDone(id: string, marked: set<string>)
      requires ListsTargets(g, adj, false) && ListsTargets(g, props, true)
      requires Elements(Of(adj, id)) <= marked && Elements(Of(props, id)) <= marked
      ensures Done(g, id, marked)
    {
      forall y | HasEdge(g, id, y) ensures y in marked {
        assert IsTarget(g, id, y, IsPropertyNode(g, y));
        assert y in Elements(Of(if IsPropertyNode(g, y) then props else adj, id));
      }
      DoneMeaning(g, id, marked);
    }

    lemma ListsMeanProperties(id: string)
      requires ListsTargets(g, props, true)
      ensures Elements(Of(props, id)) == PropertiesOf(g, id)
    {
      assert forall x :: IsTarget(g, id, x, true) <==> x in PropertiesOf(g, id);
    }

    /** Prints a node: `active` are the nodes whose properties are being printed around it, `walked`
        the entities whose lists of children are being walked around it.  The node is printed in
        full just once exactly when no property of it leads back to it past nothing marked. */
    method PrintNode(id: string, ghost active: set<string>, ghost walked: set<string>)
      requires Valid() && id !in visited && id in All() && Owned(g, active, visited) && walked <= visited
      requires OneParent(g) ==> !IsPropertyNode(g, id)
      modifies this
      ensures Valid() && id in visited && Owned(g, active, visited)
      ensures Grown(g, active, old(visited), visited, old(lines), lines) && Reached(g, old(visited), visited, {id})
      ensures !IsPropertyNode(g, id) ==>
                (FullPrints(id, lines) == FullPrints(id, old(lines)) + 1 <==> !OpenReturn(g, old(visited), id))
      ensures Shows(g, old(lines), lines, if IsPropertyNode(g, id) then {} else {id})
      decreases All() - visited, 1
    {
      hide Grown, Reached, Owned, ListsTargets, Shows;
      ghost var open, l0 := visited, lines;
      lines := lines + [NodeLine(id, false)];
      OwnedInside(g, active, visited, id);
      ghost var l1 := lines;
      PrintProperties(id, active + {id}, walked);
      ghost var mid, l2 := visited, lines;
      GrownMarks(g, active + {id}, open, mid, l0 + [NodeLine(id, false)], l2);
      visited := visited + {id};
      OwnedMarked(g, active, mid, id);
      PrintChildren(Of(adj, id), id, active, walked);
      EdgesOfLists(id);
      ShowsExpanded(g, l0, NodeLine(id, false), l2, lines, Elements(Of(props, id)), Elements(Of(adj, id)));
      ListsMeanDone(id, visited);
      ListsMeanProperties(id);
      ReturnsIff(g, id, open, mid);
      GrownOverNode(g, active, id, open, mid, visited, l0, l2, lines);
      TargetsAreSteps(id);
      ReachedOverNode(g, id, open, mid, visited, Elements(Of(props, id)), Elements(Of(adj, id)));
    }

    lemma TargetsAreSteps(id: string)
      requires ListsTargets(g, adj, false) && ListsTargets(g, props, true)
      ensures forall x :: x in Elements(Of(props, id)) || x in Elements(Of(adj, id)) ==> HasEdge(g, id, x)
      ensures forall x :: x in Elements(Of(props, id)) ==> IsPropertyNode(g, x)
      ensures forall x :: x in Elements(Of(adj, id)) ==> !IsPropertyNode(g, x)
    {
    }

    /** The two lists of an entity are its edges, and share nothing. */
    lemma EdgesOfLists(id: string)
      requires ListsTargets(g, adj, false) && ListsTargets(g, props, true)
      ensures Elements(Of(props, id)) !! Elements(Of(adj, id))
      ensures forall y :: HasEdge(g, id, y) <==> y in Elements(Of(props, id)) + Elements(Of(adj, id))
    {
      forall y ensures HasEdge(g, id, y) <==> y in Elements(Of(props, id)) + Elements(Of(adj, id)) {
        assert IsTarget(g, id, y, true) <==> y in Of(props, id);
        assert IsTarget(g, id, y, false) <==> y in Of(adj, id);
      }
      forall y | y in Of(props, id) ensures y !in Of(adj, id) {
        assert IsTarget(g, id, y, true);
      }
    }

    method PrintProperties(id: string, ghost active: set<string>, ghost walked: set<string>)
      requires Valid() && (id in visited || id in active) && Owned(g, active, visited) && walked <= visited
      modifies this
      ensures Valid() && Elements(Of(props, id)) <= visited && Owned(g, active, visited)
      ensures Grown(g, active, old(visited), visited, old(lines), lines)
      ensures Reached(g, old(visited), visited, Elements(Of(props, id)))
      ensures OwnerCounted(g, id, old(visited), visited, old(lines), lines)
      ensures Shows(g, old(lines), lines, Elements(Of(props, id)))
      decreases All() - visited, 0
    {
      hide Grown, Reached, Owned, OwnerCounted, PropertyOnce, Shows;
      assert NoRepeats(Of(props, id));
      hide ListsTargets;
      var ps :| multiset(ps) == multiset(Of(props, id));
      SameElements(ps, Of(props, id));
      StillNoRepeats(ps, Of(props, id));
      ShowsNothing(g, lines);
      TargetsAreSteps(id);
      GrownSelf(g, active, visited, lines);
      ReachedSelf(g, visited, Elements(Of(props, id)));
      OwnerSelf(g, id, visited, lines);
      assert ps[..0] == [] && Elements(ps[..0]) == {};
      for i := 0 to |ps|
        invariant Valid() && Owned(g, active, visited) && Grown(g, active, old(visited), visited, old(lines), lines)
        invariant Reached(g, old(visited), visited, Elements(Of(props, id))) && old(visited) <= visited
        invariant OwnerCounted(g, id, old(visited), visited, old(lines), lines)
        invariant Shows(g, old(lines), lines, Elements(ps[..i]))
        invariant forall k :: 0 <= k < i ==> ps[k] in visited
      {
        assert ps[i] in Elements(Of(props, id));
        ghost var v1, l1 := visited, lines;
        PrintProperty(ps[i], id, active, walked);
        ShowsNext(g, old(lines), l1, lines, ps, i);
        StretchTrans(g, active, old(visited), v1, visited, old(lines), l1, lines, Elements(Of(props, id)), {ps[i]});
        OwnerTrans(g, active, id, old(visited), v1, visited, old(lines), l1, lines);
      }
      assert forall x :: x in Elements(Of(props, id)) ==> x in ps;
      assert ps[..|ps|] == ps && Elements(ps) == Elements(Of(props, id));
    }

    method PrintProperty(p: string, ghost owner: string, ghost active: set<string>, ghost walked: set<string>)
      requires Valid() && Owned(g, active, visited) && (owner in visited || owner in active)
      requires HasEdge(g, owner, p) && IsPropertyNode(g, p) && walked <= visited
      modifies this
      ensures Valid() && p in visited && Owned(g, active, visited)
      ensures Grown(g, active, old(visited), visited, old(lines), lines) && Reached(g, old(visited), visited, {p})
      ensures OwnerCounted(g, owner, old(visited), visited, old(lines), lines)
      ensures Shows(g, old(lines), lines, {p})
      decreases All() - visited, 0, 0
    {
      hide Grown, Reached, Owned, ListsTargets, Shows;
      ghost var v0, l0 := visited, lines;
      var isSeen := p in visited;
      Target(owner, p);
      visited := visited + {p};
      lines := lines + [PropertyLine(p, isSeen)];
      if isSeen {
        GrownBySeen(g, active, v0, l0, PropertyLine(p, true));
        ShowsSeen(g, l0, PropertyLine(p, true));
        ReachedSelf(g, v0, {p});
        assert visited == v0;
        return;
      }
      OwnedProperty(g, active, v0, owner, p);
      ExpandProperty(p, active, walked);
      EdgesOfLists(p);
      ShowsNothing(g, lines);
      ShowsExpanded(g, l0, PropertyLine(p, false), lines, lines, Elements(Of(props, p)) + Elements(Of(adj, p)), {});
      GrownMarks(g, active, v0 + {p}, visited, l0 + [PropertyLine(p, false)], lines);
      GrownOverProperty(g, active, p, v0, visited, l0, lines);
      TargetsAreSteps(p);
      ReachedOverProperty(g, p, v0, visited, Elements(Of(props, p)) + Elements(Of(adj, p)));
      if !IsPropertyNode(g, owner) {
        GrownCount(g, active, v0 + {p}, visited, l0 + [PropertyLine(p, false)], lines, owner);
        OwnerBound(g, owner, p, v0, visited, l0 + [PropertyLine(p, false)], lines);
        FullPrintsAppend(owner, l0, PropertyLine(p, false));
      }
    }

    /** The properties of a property, then its children. */
    method ExpandProperty(p: string, ghost active: set<string>, ghost walked: set<string>)
      requires Valid() && p in visited && Owned(g, active, visited) && walked <= visited && p !in walked
      modifies this
      ensures Valid() && Owned(g, active, visited) && Done(g, p, visited)
      ensures Grown(g, active, old(visited), visited, old(lines), lines)
      ensures Reached(g, old(visited), visited, Elements(Of(props, p)) + Elements(Of(adj, p)))
      ensures Shows(g, old(lines), lines, Elements(Of(props, p)) + Elements(Of(adj, p)))
      decreases All() - visited, 3
    {
      hide Grown, Reached, Owned, ListsTargets, Shows;
      EdgesOfLists(p);
      PrintProperties(p, active, walked);
      ghost var v1, l1 := visited, lines;
      GrownMarks(g, active, old(visited), v1, old(lines), l1);
      if Of(adj, p) != [] {
        PrintChildren(Of(adj, p), p, active, walked);
      } else {
        GrownSelf(g, active, visited, lines);
        ReachedSelf(g, visited, Elements(Of(adj, p)));
        ShowsNothing(g, lines);
        assert Elements(Of(adj, p)) == {};
      }
      ShowsTrans(g, old(lines), l1, lines, Elements(Of(props, p)), Elements(Of(adj, p)));
      GrownTrans(g, active, old(visited), v1, visited, old(lines), l1, lines);
      GrownMarks(g, active, v1, visited, l1, lines);
      ReachedTrans(g, old(visited), v1, visited, Elements(Of(props, p)), Elements(Of(adj, p)));
      ListsMeanDone(p, visited);
    }

    /** A child that is marked takes one line, any other is printed as a node. */
    method PrintChild(id: string, ghost parent: string, ghost active: set<string>, ghost walked: set<string>)
      requires Valid() && Owned(g, active, visited) && HasEdge(g, parent, id) && !IsPropertyNode(g, id)
      requires parent in visited && walked <= visited
      modifies this
      ensures Valid() && id in visited && old(visited) <= visited && Owned(g, active, visited)
      ensures Grown(g, active, old(visited), visited, old(lines), lines) && Reached(g, old(visited), visited, {id})
      ensures Shows(g, old(lines), lines, {id})
      decreases All() - visited, 2, 0
    {
      hide Grown, Reached, Owned, Shows, ListsTargets;
      Target(parent, id);
      if id in visited {
        ghost var l1 := lines;
        lines := lines + [NodeLine(id, true)];
        GrownBySeen(g, active, visited, l1, NodeLine(id, true));
        ShowsSeen(g, l1, NodeLine(id, true));
        ReachedSelf(g, visited, {id});
      } else {
        ghost var v1, l1 := visited, lines;
        PrintNode(id, active, walked + {parent});
        GrownMarks(g, active, v1, visited, l1, lines);
      }
    }

    /** A list of children is never sorted again while an outer call walks it: its owner is not in `walked`. */
    method PrintChildren(
      children: seq<string>, ghost parent: string, ghost active: set<string>, ghost walked: set<string>)
      requires Valid() && Owned(g, active, visited) && children == Of(adj, parent)
      requires parent in visited && parent !in walked && walked <= visited
      modifies this
      ensures Valid() && Elements(children) <= visited && old(visited) <= visited && Owned(g, active, visited)
      ensures Grown(g, active, old(visited), visited, old(lines), lines)
      ensures Reached(g, old(visited), visited, Elements(children))
      ensures Shows(g, old(lines), lines, Elements(children))
      decreases All() - visited, 2
    {
      hide Grown, Reached, Owned, Shows;
      assert NoRepeats(children);
      hide ListsTargets;
      var cs :| multiset(cs) == multiset(children);
      SameElements(cs, children);
      StillNoRepeats(cs, children);
      ShowsNothing(g, lines);
      TargetsAreSteps(parent);
      GrownSelf(g, active, visited, lines);
      ReachedSelf(g, visited, Elements(children));
      assert cs[..0] == [] && Elements(cs[..0]) == {};
      for i := 0 to |cs|
        invariant Valid() && Owned(g, active, visited) && Grown(g, active, old(visited), visited, old(lines), lines)
        invariant Reached(g, old(visited), visited, Elements(children)) && old(visited) <= visited
        invariant forall k :: 0 <= k < i ==> cs[k] in visited
        invariant Shows(g, old(lines), lines, Elements(cs[..i]))
      {
        assert cs[i] in Elements(children);
        ghost var v1, l1 := visited, lines;
        PrintChild(cs[i], parent, active, walked);
        ShowsNext(g, old(lines), l1, lines, cs, i);
        StretchTrans(g, active, old(visited), v1, visited, old(lines), l1, lines, Elements(children), {cs[i]});
      }
      assert forall x :: x in Elements(children) ==> x in cs;
      assert cs[..|cs|] == cs && Elements(cs) == Elements(children);
    }
  }

  ghost predicate PropertyOnce(lines: seq<Line>) {
    forall i, j ::
      0 <= i < j < |lines|
      && lines[i].PropertyLine? && lines[j].PropertyLine? && !lines[i].seen && !lines[j].seen ==>
        lines[i].id != lines[j].id
  }

  // ------------------------------------------------------------ the whole tree

  /** Every entity that edges lead to from a printed one is printed, and nothing is left out. */
  ghost predicate Complete(g: ResultGraph, printed: set<string>) {
    && (forall id :: id in g.nodes && !IsPropertyNode(g, id) ==> id in printed)
    && forall x :: x in printed ==> Done(g, x, printed)
  }

  predicate IsInitial(g: ResultGraph, id: string, target: string) {
    id in g.nodes && g.nodes[id].value == target && !IsPropertyNode(g, id)
  }

  /** The tree of the initial target first, then of any node that is still missing.  A node is
      printed in full at least once, and at most once more for each of its properties that lead
      back to it; one that loops back by way of properties alone, at least twice; the first of
      all just once exactly when no property of it leads back. */
  method RenderResultsTree(g: ResultGraph, target: string) returns (lines: seq<Line>, printed: set<string>,
      first: string, ghost roots: set<string>)
    ensures g.edges == [] ==> lines == [] && printed == {}
    ensures g.edges != [] ==> Complete(g, printed) && PropertyOnce(lines)
    ensures forall x :: x in printed ==> InFull(x, lines)
    ensures forall x :: x in printed && !IsPropertyNode(g, x) ==> 1 <= FullPrints(x, lines) <= 1 + |Back(g, x)|
    ensures forall x :: x in printed && !IsPropertyNode(g, x) && OneParent(g) && LoopsBack(g, x) ==>
              2 <= FullPrints(x, lines)
    ensures (exists id :: IsInitial(g, id, target)) ==> IsInitial(g, first, target)
    ensures g.edges != [] && !IsPropertyNode(g, first) ==> (FullPrints(first, lines) == 1 <==> Back(g, first) == {})
    ensures roots <= printed && (g.edges != [] ==> first in roots)
    ensures forall y :: LinesOf(g, y, lines)
                        == Calls(g, y, lines) + (if y in roots && !IsPropertyNode(g, y) then 1 else 0)
  {
    roots := {};
    first := "";
    if exists id :: id in g.nodes && IsInitial(g, id, target) {
      first :| first in g.nodes && IsInitial(g, first, target);
    }
    if g.edges == [] {
      return [], {}, first, {};
    }
    var adj, props := BuildLists(g);
    var r := new Renderer(g, adj, props, first);
    hide Grown, Owned, Shows;
    r.PrintNode(first, {}, {});
    roots := {first};
    FirstReturns(g, first);
    OneRoot(g, first);
    ghost var v0, l0 := r.visited, r.lines;
    while exists id :: id in g.nodes && !IsPropertyNode(g, id) && id !in r.visited
      invariant r.g == g && r.Valid() && Owned(g, {}, r.visited) && v0 <= r.visited
      invariant Grown(g, {}, {}, r.visited, [], r.lines) && FullPrints(first, r.lines) == FullPrints(first, l0)
      invariant Shows(g, [], r.lines, NodesAmong(g, roots)) && first in roots && roots <= r.visited
      decreases r.All() - r.visited
    {
      var id :| id in g.nodes && !IsPropertyNode(g, id) && id !in r.visited;
      ghost var v1, l1 := r.visited, r.lines;
      r.PrintNode(id, {}, {});
      OneMoreRoot(g, [], l1, r.lines, roots, id);
      roots := roots + {id};
      GrownMarks(g, {}, v1, r.visited, l1, r.lines);
      GrownCount(g, {}, v1, r.visited, l1, r.lines, first);
      GrownTrans(g, {}, {}, v1, r.visited, [], l1, r.lines);
    }
    lines, printed := r.lines, r.visited;
    RenderedCounts(g, printed, lines);
    RenderedLines(g, lines, NodesAmong(g, roots));
  }

  /** The roots that are nodes. */
  function NodesAmong(g: ResultGraph, roots: set<string>): set<string> {
    set y | y in roots && !IsPropertyNode(g, y)
  }

  lemma OneRoot(g: ResultGraph, id: string)
    ensures NodesAmong(g, {id}) == if IsPropertyNode(g, id) then {} else {id}
  {
  }

  lemma OneMoreRoot(g: ResultGraph, a: seq<Line>, b: seq<Line>, c: seq<Line>, roots: set<string>, id: string)
    requires Shows(g, a, b, NodesAmong(g, roots)) && Shows(g, b, c, {id}) && id !in roots && !IsPropertyNode(g, id)
    ensures Shows(g, a, c, NodesAmong(g, roots + {id}))
  {
    hide Shows;
    assert NodesAmong(g, roots + {id}) == NodesAmong(g, roots) + {id};
    ShowsTrans(g, a, b, c, NodesAmong(g, roots), {id});
  }

  lemma RenderedCounts(g: ResultGraph, printed: set<string>, lines: seq<Line>)
    requires Grown(g, {}, {}, printed, [], lines)
    ensures forall x :: x in printed ==> InFull(x, lines) && Done(g, x, printed)
    ensures forall x :: x in printed && !IsPropertyNode(g, x) ==> 1 <= FullPrints(x, lines) <= 1 + |Back(g, x)|
    ensures forall x :: x in printed && !IsPropertyNode(g, x) && OneParent(g) && LoopsBack(g, x) ==>
              2 <= FullPrints(x, lines)
  {
    forall x | x in printed && !IsPropertyNode(g, x) ensures 1 <= FullPrints(x, lines) <= 1 + |Back(g, x)| {
      assert Counted(g, x, {}, printed, [], lines);
      assert Back(g, x) - {} == Back(g, x);
    }
    forall x | x in printed && !IsPropertyNode(g, x) && OneParent(g) && LoopsBack(g, x)
      ensures 2 <= FullPrints(x, lines) {
      assert Twice(g, x, {}, {}, printed, [], lines);
    }
  }

  lemma FirstReturns(g: ResultGraph, id: string)
    ensures OpenReturn(g, {}, id) <==> Back(g, id) != {}
  {
    if p :| p in Back(g, id) {
      assert HasEdge(g, id, p) && IsPropertyNode(g, p) && WalkLeads(g, {}, p, id);
    }
  }

  /** The smallest such graph: a node whose only property leads back to it is printed in full twice. */
  method PrintedTwice() returns (lines: seq<Line>)
    ensures FullPrints("1", lines) == 2
  {
    var g := ResultGraph(map["1" := Node("example.org", false), "2" := Node("banner", true)],
        [TreeEdge("1", "2"), TreeEdge("2", "1")]);
    var printed, first;
    ghost var roots;
    lines, printed, first, roots := RenderResultsTree(g, "example.org");
    assert g.edges[0] == TreeEdge("1", "2") && g.edges[1] == TreeEdge("2", "1");
    assert HasEdge(g, "1", "2") && HasEdge(g, "2", "1");
    assert PropertyLoop(g, "1", ["2"]);
    assert Back(g, "1") <= {"2"};
    SubsetSize(Back(g, "1"), {"2"});
  }
}
