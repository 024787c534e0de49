/**
 What a successful build leads to, by name and whatever the order of the groups: the same
 edges from named sources to results, and the same nodes.
 */
module BatchEdges {
  import opened Schema
  import opened StoreBatch
  import opened BatchFixpoint

  /** A placed result and the name of the entity it hangs on. */
  datatype NamedEdge = NamedEdge(source: NodeKey, result: Result)

  type Names = EntityRef -> NodeKey

  /** Results that share a local id agree on type and value. */
  ghost predicate LocalIDsAgree(all: seq<Group>) {
    forall g <- all, h <- all, r <- g.results, s <- h.results :: r.localID != 0 && r.localID == s.localID ==>
      r.etype == s.etype && r.value == s.value
  }

  ghost predicate NameFits(root: NodeKey, all: seq<Group>, source: EntityRef, name: NodeKey) {
    if source.localID != 0 then
      forall h <- all, r <- h.results :: r.localID == source.localID ==> name == NodeKey(r.etype, r.value)
    else if EntityKey(source.etype, source.value) == EntityKey(root.etype, root.value) then name == root
    else name == NodeKey(source.etype, source.value)
  }

  /** `names` says what each group's source reference stands for. */
  ghost predicate NamesFit(root: NodeKey, all: seq<Group>, names: Names) {
    forall g <- all :: NameFits(root, all, g.source, names(g.source))
  }

  ghost function NameOf(root: NodeKey, all: seq<Group>, source: EntityRef): NodeKey {
    if source.localID != 0 then
      if exists h <- all, r <- h.results :: r.localID == source.localID then
        var h, r :| h in all && r in h.results && r.localID == source.localID; NodeKey(r.etype, r.value)
      else root
    else if EntityKey(source.etype, source.value) == EntityKey(root.etype, root.value) then root
    else NodeKey(source.etype, source.value)
  }

  /** When local ids agree there is such a naming. */
  lemma NamesExist(root: NodeKey, all: seq<Group>) returns (names: Names)
    requires LocalIDsAgree(all)
    ensures NamesFit(root, all, names)
  {
    names := (source: EntityRef) => NameOf(root, all, source);
  }

  // ------------------------------------------------------------ edges by name

  function GroupEdges(name: NodeKey, rs: seq<Result>): seq<NamedEdge> {
    if rs == [] then [] else [NamedEdge(name, rs[0])] + GroupEdges(name, rs[1..])
  }

  function EdgesOf(names: Names, groups: seq<Group>): multiset<NamedEdge> {
    if groups == [] then multiset{}
    else multiset(GroupEdges(names(groups[0].source), groups[0].results)) + EdgesOf(names, groups[1..])
  }

  function NameAt(b: Batch, id: nat): NodeKey {
    if b.Has(id) then KeyOf(b.Item(id)) else NodeKey("", "")
  }

  function PlacedEdges(b: Batch, rs: seq<BatchResult>): multiset<NamedEdge> {
    if rs == [] then multiset{}
    else PlacedEdges(b, rs[..|rs| - 1]) + multiset{NamedEdge(NameAt(b, rs[|rs| - 1].sourceID), rs[|rs| - 1].result)}
  }

  lemma {:induction false} PlacedKept(b: Batch, b': Batch, rs: seq<BatchResult>)
    requires forall i :: 0 <= i < |rs| ==> NameAt(b', rs[i].sourceID) == NameAt(b, rs[i].sourceID)
    ensures PlacedEdges(b', rs) == PlacedEdges(b, rs)
    decreases |rs|
  {
    if rs != [] {
      PlacedKept(b, b', rs[..|rs| - 1]);
    }
  }

  lemma NamesKept(b: Batch, b': Batch, id: nat)
    requires b.Has(id) && Extends(b, b')
    ensures NameAt(b', id) == NameAt(b, id)
  {
    assert SameIdentity(b.Item(id), b'.Item(id));
  }

  lemma PlaceAddsEdge(b: Batch, sourceID: nat, r: Result)
    requires WellFormed(b) && b.Has(sourceID)
    ensures var b' := Place(b, sourceID, r);
            && PlacedEdges(b', b'.results) == PlacedEdges(b, b.results) + multiset{NamedEdge(NameAt(b, sourceID), r)}
            && NameAt(b', sourceID) == NameAt(b, sourceID)
  {
    var b' := Place(b, sourceID, r);
    NamesKept(b, b', sourceID);
    forall i | 0 <= i < |b.results| ensures NameAt(b', b.results[i].sourceID) == NameAt(b, b.results[i].sourceID) {
      assert ResultOK(b, b.results[i]);
      NamesKept(b, b', b.results[i].sourceID);
    }
    hide WellFormed, Extends;
    PlacedKept(b, b', b.results);
    assert b'.results[..|b.results|] == b.results;
  }

  lemma {:induction false} PlaceAllAddsEdges(b: Batch, sourceID: nat, rs: seq<Result>)
    requires WellFormed(b) && b.Has(sourceID)
    ensures var b' := PlaceAll(b, sourceID, rs);
            PlacedEdges(b', b'.results) == PlacedEdges(b, b.results) + multiset(GroupEdges(NameAt(b, sourceID), rs))
    decreases |rs|
  {
    hide WellFormed, Place, Extends, NameAt, PlacedEdges, IndexesAgree;
    if rs != [] {
      PlaceKeeps(b, sourceID, rs[0]);
      PlaceAddsEdge(b, sourceID, rs[0]);
      PlaceAllAddsEdges(Place(b, sourceID, rs[0]), sourceID, rs[1..]);
      GroupEdgesFirst(NameAt(b, sourceID), rs);
      hide GroupEdges;
    }
  }

  lemma GroupEdgesFirst(name: NodeKey, rs: seq<Result>)
    requires rs != []
    ensures multiset(GroupEdges(name, rs)) == multiset{NamedEdge(name, rs[0])} + multiset(GroupEdges(name, rs[1..]))
  {
  }

  // ------------------------------------------------------------ sources resolve to what they name

  /** Placed results come from the packet, and so do the names of its properties. */
  ghost predicate PlacedFrom(b: Batch, all: seq<Group>) {
    RefsFrom(b, all) && forall r <- b.results :: exists g <- all :: r.result in g.results
  }

  lemma ResolvesToName(b: Batch, root: NodeKey, g: Group, all: seq<Group>, names: Names)
    requires WellFormed(b) && PlacedFrom(b, all) && Definite(RootKey(b), [g], all) && g in all
    requires NameAt(b, b.rootID) == root && NamesFit(root, all, names)
    requires Resolve(b, RootKey(b), g.source).Resolved?
    ensures b.Has(Resolve(b, RootKey(b), g.source).id)
            && NameAt(b, Resolve(b, RootKey(b), g.source).id) == names(g.source)
  {
    ResolveMeaning(b, g.source);
    ResolveDefinite(b, g, all);
    assert g in [g] && NameFits(root, all, g.source, names(g.source));
    var id := Resolve(b, RootKey(b), g.source).id;
    assert RootKey(b) == EntityKey(root.etype, root.value);
    if g.source.localID != 0 {
      var r :| r in b.results && r.result.localID == g.source.localID && r.targetID == id;
      assert ResultOK(b, r);
      var h :| h in all && r.result in h.results;
    } else if EntityKey(g.source.etype, g.source.value) != RootKey(b)
        && NodeKey(g.source.etype, g.source.value) in b.nodeIndex {
      NodeLookup(b, NodeKey(g.source.etype, g.source.value));
    }
  }

  lemma PlaceFrom(b: Batch, sourceID: nat, r: Result, all: seq<Group>, g: Group)
    requires WellFormed(b) && b.Has(sourceID) && PlacedFrom(b, all) && g in all && r in g.results
    ensures PlacedFrom(Place(b, sourceID, r), all) && NameAt(Place(b, sourceID, r), b.rootID) == NameAt(b, b.rootID)
  {
    PlaceKnown(b, sourceID, r);
    assert b.Has(b.rootID);
    NamesKept(b, Place(b, sourceID, r), b.rootID);
    hide WellFormed, Extends;
    var b' := Place(b, sourceID, r);
    forall key | key in b'.propertyRefs ensures NamesProperty(key, all) {
      assert key in b'.propertyRefs.Keys;
    }
  }

  lemma {:induction false} PlaceAllFrom(b: Batch, sourceID: nat, rs: seq<Result>, all: seq<Group>, g: Group)
    requires WellFormed(b) && b.Has(sourceID) && PlacedFrom(b, all) && g in all && forall r <- rs :: r in g.results
    ensures PlacedFrom(PlaceAll(b, sourceID, rs), all)
            && NameAt(PlaceAll(b, sourceID, rs), b.rootID) == NameAt(b, b.rootID)
    decreases |rs|
  {
    if rs != [] {
      hide WellFormed, Place, PlacedFrom, Extends, NameAt;
      assert rs[0] in rs && forall r <- rs[1..] :: r in rs;
      PlaceKeeps(b, sourceID, rs[0]);
      PlaceFrom(b, sourceID, rs[0], all, g);
      SameRootID(b, sourceID, rs[0]);
      PlaceAllFrom(Place(b, sourceID, rs[0]), sourceID, rs[1..], all, g);
    }
  }

  lemma SameRootID(b: Batch, sourceID: nat, r: Result)
    requires WellFormed(b) && b.Has(sourceID)
    ensures Place(b, sourceID, r).rootID == b.rootID
  {
  }

  // ------------------------------------------------------------ rounds

  /** The edges placed so far together with those of the pending groups. */
  ghost function AllEdges(b: Batch, names: Names, pending: seq<Group>): multiset<NamedEdge> {
    PlacedEdges(b, b.results) + EdgesOf(names, pending)
  }

  ghost predicate Naming(b: Batch, root: NodeKey, all: seq<Group>, names: Names) {
    PlacedFrom(b, all) && NameAt(b, b.rootID) == root && NamesFit(root, all, names)
  }

  lemma PlacedGroupNames(b: Batch, root: NodeKey, g: Group, all: seq<Group>, names: Names)
    requires WellFormed(b) && Naming(b, root, all, names) && g in all
    requires Definite(RootKey(b), [g], all) && Resolve(b, RootKey(b), g.source).Resolved?
    ensures var id := Resolve(b, RootKey(b), g.source).id;
            && b.Has(id) && NameAt(b, id) == names(g.source) && Naming(PlaceAll(b, id, g.results), root, all, names)
  {
    ResolvesToName(b, root, g, all, names);
    var id := Resolve(b, RootKey(b), g.source).id;
    PlaceAllFrom(b, id, g.results, all, g);
    SameRootAll(b, id, g.results);
    hide WellFormed, Resolve, NameAt, PlacedFrom, NamesFit, PlaceAll, Definite;
  }

  lemma SameRootAll(b: Batch, id: nat, rs: seq<Result>)
    requires WellFormed(b) && b.Has(id)
    ensures PlaceAll(b, id, rs).rootID == b.rootID
  {
  }

  lemma FirstGroupEdges(names: Names, pending: seq<Group>)
    requires pending != []
    ensures EdgesOf(names, pending)
            == multiset(GroupEdges(names(pending[0].source), pending[0].results)) + EdgesOf(names, pending[1..])
  {
  }

  lemma PlacedGroupEdges(b: Batch, id: nat, pending: seq<Group>, names: Names)
    requires WellFormed(b) && b.Has(id) && pending != [] && NameAt(b, id) == names(pending[0].source)
    ensures AllEdges(PlaceAll(b, id, pending[0].results), names, pending[1..]) == AllEdges(b, names, pending)
  {
    hide WellFormed, NameAt, PlaceAll, PlacedEdges, EdgesOf, GroupEdges;
    PlaceAllAddsEdges(b, id, pending[0].results);
    FirstGroupEdges(names, pending);
  }

  lemma KeptGroupEdges(b: Batch, names: Names, g: Group, next: seq<Group>)
    ensures AllEdges(b, names, [g] + next)
            == AllEdges(b, names, next) + multiset(GroupEdges(names(g.source), g.results))
  {
    FirstGroupEdges(names, [g] + next);
    assert ([g] + next)[1..] == next;
  }

  /** The first pending group's source, once it resolves, is what it names. */
  lemma FirstResolves(b: Batch, root: NodeKey, pending: seq<Group>, all: seq<Group>, names: Names)
    requires WellFormed(b) && Naming(b, root, all, names) && Definite(RootKey(b), pending, all)
             && forall g <- pending :: g in all
    requires pending != []
    ensures !Resolve(b, RootKey(b), pending[0].source).Ambiguous? && Definite(RootKey(b), pending[1..], all)
    ensures Resolve(b, RootKey(b), pending[0].source).Resolved? ==>
              var id := Resolve(b, RootKey(b), pending[0].source).id;
              && b.Has(id) && NameAt(b, id) == names(pending[0].source)
              && Naming(PlaceAll(b, id, pending[0].results), root, all, names)
  {
    var g := pending[0];
    assert g in pending && forall x <- pending[1..] :: x in pending;
    assert Definite(RootKey(b), [g], all);
    NamingMeansRefs(b, root, all, names);
    ResolveDefinite(b, g, all);
    hide WellFormed, Resolve, Naming, PlaceAll, Definite, NameAt;
    if Resolve(b, RootKey(b), g.source).Resolved? {
      PlacedGroupNames(b, root, g, all, names);
    }
  }

  lemma {:induction false} RoundNames(b: Batch, root: NodeKey, pending: seq<Group>, all: seq<Group>, names: Names)
    requires WellFormed(b) && Naming(b, root, all, names) && Definite(RootKey(b), pending, all)
             && forall g <- pending :: g in all
    ensures var out := Round(b, pending);
            out.RoundDone? && Naming(out.batch, root, all, names) && forall g <- out.next :: g in pending
    decreases |pending|
  {
    hide WellFormed, Resolve, Naming, PlaceAll, Definite, NameAt;
    if pending != [] {
      FirstResolves(b, root, pending, all, names);
      assert forall x <- pending[1..] :: x in pending;
      ResolveMeaning(b, pending[0].source);
      match Resolve(b, RootKey(b), pending[0].source)
      case Resolved(id) => RoundNames(PlaceAll(b, id, pending[0].results), root, pending[1..], all, names);
      case Unresolved => RoundNames(b, root, pending[1..], all, names);
    }
  }

  lemma {:induction false} RoundEdges(b: Batch, root: NodeKey, pending: seq<Group>, all: seq<Group>, names: Names)
    requires WellFormed(b) && Naming(b, root, all, names) && Definite(RootKey(b), pending, all)
             && forall g <- pending :: g in all
    ensures var out := Round(b, pending);
            out.RoundDone? ==> AllEdges(out.batch, names, out.next) == AllEdges(b, names, pending)
    decreases |pending|
  {
    hide WellFormed, Resolve, Naming, PlaceAll, Definite, NameAt, AllEdges;
    if pending != [] {
      FirstResolves(b, root, pending, all, names);
      assert forall x <- pending[1..] :: x in pending;
      ResolveMeaning(b, pending[0].source);
      match Resolve(b, RootKey(b), pending[0].source)
      case Resolved(id) =>
        PlacedGroupEdges(b, id, pending, names);
        RoundEdges(PlaceAll(b, id, pending[0].results), root, pending[1..], all, names);
      case Unresolved =>
        RoundEdges(b, root, pending[1..], all, names);
        KeptEdges(b, names, pending);
    }
  }

  lemma KeptEdges(b: Batch, names: Names, pending: seq<Group>)
    requires WellFormed(b) && pending != [] && Resolve(b, RootKey(b), pending[0].source).Unresolved?
    requires var out := Round(b, pending[1..]);
             out.RoundDone? ==> AllEdges(out.batch, names, out.next) == AllEdges(b, names, pending[1..])
    ensures var out := Round(b, pending);
            out.RoundDone? ==> AllEdges(out.batch, names, out.next) == AllEdges(b, names, pending)
  {
    hide WellFormed, Resolve, PlaceAll, AllEdges;
    ResolveMeaning(b, pending[0].source);
    var out := Round(b, pending[1..]);
    if out.RoundDone? {
      KeptGroupEdges(out.batch, names, pending[0], out.next);
      KeptGroupEdges(b, names, pending[0], pending[1..]);
      assert [pending[0]] + pending[1..] == pending;
    }
  }

  lemma NamingMeansRefs(b: Batch, root: NodeKey, all: seq<Group>, names: Names)
    requires Naming(b, root, all, names)
    ensures RefsFrom(b, all)
  {
  }

  lemma {:induction false} RoundsEdges(b: Batch, root: NodeKey, pending: seq<Group>, all: seq<Group>, names: Names)
    requires WellFormed(b) && Naming(b, root, all, names) && Definite(RootKey(b), pending, all)
             && forall g <- pending :: g in all
    ensures var out := Rounds(b, pending);
            out.Built? ==> PlacedEdges(out.batch, out.batch.results) == AllEdges(b, names, pending)
    decreases |pending|
  {
    hide WellFormed, Naming, PlacedEdges;
    if pending != [] {
      RoundNames(b, root, pending, all, names);
      RoundEdges(b, root, pending, all, names);
      var out := Round(b, pending);
      if |out.next| != |pending| {
        RoundsEdges(out.batch, root, out.next, all, names);
      }
    }
  }

  /** A successful build has exactly the packet's edges: every result once, hanging on the entity
      that its group's source names. */
  lemma BuildHasNamedEdges(source: EntityFields, groups: seq<Group>, names: Names)
    requires Definite(EntityKey(source.etype, source.value), groups, groups)
    requires NamesFit(NodeKey(source.etype, source.value), groups, names)
    ensures var out := Build(source, groups);
            out.Built? ==> PlacedEdges(out.batch, out.batch.results) == EdgesOf(names, groups)
  {
    NewBatchWellFormed(source);
    var b := NewBatch(source);
    assert Naming(b, NodeKey(source.etype, source.value), groups, names);
    RoundsEdges(b, NodeKey(source.etype, source.value), groups, groups, names);
    assert PlacedEdges(b, []) == multiset{};
  }

  // ------------------------------------------------------------ order

  lemma {:induction false} EdgesRemove(names: Names, groups: seq<Group>, i: nat)
    requires i < |groups|
    ensures EdgesOf(names, groups)
            == multiset(GroupEdges(names(groups[i].source), groups[i].results))
               + EdgesOf(names, groups[..i] + groups[i + 1..])
    decreases i
  {
    var rest := groups[..i] + groups[i + 1..];
    if i == 0 {
      assert rest == groups[1..];
    } else {
      EdgesRemove(names, groups[1..], i - 1);
      assert groups[1..][..i - 1] + groups[1..][i..] == rest[1..];
    }
  }

  lemma {:induction false} EdgesPermuted(names: Names, groups: seq<Group>, permuted: seq<Group>)
    requires multiset(groups) == multiset(permuted)
    ensures EdgesOf(names, groups) == EdgesOf(names, permuted)
    decreases |groups|
  {
    if groups == [] {
      assert |multiset(permuted)| == 0;
    } else {
      var g := groups[0];
      assert groups == [g] + groups[1..];
      assert g in multiset(permuted);
      var i :| 0 <= i < |permuted| && permuted[i] == g;
      var rest := permuted[..i] + permuted[i + 1..];
      assert permuted == permuted[..i] + [g] + permuted[i + 1..];
      EdgesRemove(names, permuted, i);
      assert multiset(groups[1..]) == multiset(groups) - multiset{g};
      assert multiset(rest) == multiset(permuted) - multiset{g};
      EdgesPermuted(names, groups[1..], rest);
    }
  }

  lemma DefinitePermuted(rootKey: string, groups: seq<Group>, permuted: seq<Group>)
    requires Definite(rootKey, groups, groups) && forall g :: g in groups <==> g in permuted
    ensures Definite(rootKey, permuted, permuted)
  {
    forall key ensures NamesProperty(key, groups) <==> NamesProperty(key, permuted) {
    }
  }

  /** Whatever the order of the groups, a successful build leads to the same edges by name: each
      from the entity its group's source names to the type and value of the result. */
  lemma EdgesOrderIndependent(source: EntityFields, groups: seq<Group>, permuted: seq<Group>)
    requires Definite(EntityKey(source.etype, source.value), groups, groups) && LocalIDsAgree(groups)
    requires multiset(groups) == multiset(permuted)
    ensures Build(source, groups).Built? <==> Build(source, permuted).Built?
    ensures var a, b := Build(source, groups), Build(source, permuted);
            a.Built? ==> PlacedEdges(a.batch, a.batch.results) == PlacedEdges(b.batch, b.batch.results)
  {
    var root := NodeKey(source.etype, source.value);
    BuildOrderIndependent(source, groups, permuted);
    assert forall g :: g in groups <==> g in multiset(groups);
    assert forall g :: g in permuted <==> g in multiset(permuted);
    var names := NamesExist(root, groups);
    DefinitePermuted(EntityKey(source.etype, source.value), groups, permuted);
    forall g | g in permuted ensures NameFits(root, permuted, g.source, names(g.source)) {
      assert NameFits(root, groups, g.source, names(g.source));
    }
    hide Build, Definite, LocalIDsAgree;
    BuildHasNamedEdges(source, groups, names);
    BuildHasNamedEdges(source, permuted, names);
    EdgesPermuted(names, groups, permuted);
  }

  // ------------------------------------------------------------ nodes by name

  /** The result brings the node with it, as its target or as its anchor. */
  predicate Brings(r: Result, k: NodeKey) {
    (IsNodeResult(r) && k == NodeKey(r.etype, r.value)) || (r.anchor != "" && k == NodeKey(ANCHOR_TYPE, r.anchor))
  }

  predicate IsBrought(rs: seq<BatchResult>, k: NodeKey) {
    exists i :: 0 <= i < |rs| && Brings(rs[i].result, k)
  }

  /** The nodes of a batch are the root, if it is one, and what its results bring. */
  lemma NodesByName(b: Batch, k: NodeKey)
    requires WellFormed(b) && b.Has(b.rootID)
    ensures k in b.nodeIndex <==> (IsNode(b.Item(b.rootID)) && k == KeyOf(b.Item(b.rootID))) || IsBrought(b.results, k)
  {
    NodeIndexMeaning(b.entities);
    if k in b.nodeIndex {
      NodeIsBrought(b, k);
    }
    hide Ordered, EntitiesOK, Unique, PlainScan;
    forall i | 0 <= i < |b.results| && Brings(b.results[i].result, k) ensures k in b.nodeIndex {
      assert ResultOK(b, b.results[i]);
    }
  }

  lemma NodeIsBrought(b: Batch, k: NodeKey)
    requires WellFormed(b) && k in b.nodeIndex && b.Has(b.rootID)
    ensures (IsNode(b.Item(b.rootID)) && k == KeyOf(b.Item(b.rootID))) || IsBrought(b.results, k)
  {
    NodeLookup(b, k);
    var id := b.nodeIndex[k];
    assert Introduced(b, id, |b.results|);
    hide IndexesAgree;
    if id != b.rootID {
      var j :| 0 <= j < |b.results| && (b.results[j].targetID == id || Anchors(b, b.results[j], id));
      assert ResultOK(b, b.results[j]);
      assert Brings(b.results[j].result, k);
    }
  }

  lemma {:induction false} PayloadOf(rs: seq<BatchResult>, r: Result)
    ensures r in multiset(Payload(rs)) <==> exists i :: 0 <= i < |rs| && rs[i].result == r
    decreases |rs|
  {
    if rs != [] {
      var n := |rs| - 1;
      PayloadOf(rs[..n], r);
      assert r in multiset(Payload(rs)) <==> r in multiset(Payload(rs[..n])) || r == rs[n].result;
      hide Payload;
      assert forall i :: 0 <= i < n ==> rs[..n][i] == rs[i];
    }
  }

  lemma BroughtByPayload(a: seq<BatchResult>, b: seq<BatchResult>, k: NodeKey)
    requires multiset(Payload(a)) == multiset(Payload(b)) && IsBrought(a, k)
    ensures IsBrought(b, k)
  {
    var i :| 0 <= i < |a| && Brings(a[i].result, k);
    PayloadOf(a, a[i].result);
    PayloadOf(b, a[i].result);
  }

  /** Whatever the order of the groups, a successful build has the same nodes. */
  lemma NodesOrderIndependent(source: EntityFields, groups: seq<Group>, permuted: seq<Group>)
    requires Definite(EntityKey(source.etype, source.value), groups, groups)
    requires multiset(groups) == multiset(permuted)
    ensures var a, b := Build(source, groups), Build(source, permuted);
            a.Built? ==> b.Built? && a.batch.nodeIndex.Keys == b.batch.nodeIndex.Keys
  {
    BuildOrderIndependent(source, groups, permuted);
    var a, b := Build(source, groups), Build(source, permuted);
    if a.Built? {
      hide Build, WellFormed;
      SameNodes(a.batch, b.batch, source);
    }
  }

  lemma SameNodes(a: Batch, b: Batch, source: EntityFields)
    requires WellFormed(a) && WellFormed(b) && SameRoot(NewBatch(source), a) && SameRoot(NewBatch(source), b)
    requires multiset(Payload(a.results)) == multiset(Payload(b.results))
    ensures a.nodeIndex.Keys == b.nodeIndex.Keys
  {
    hide WellFormed;
    forall k ensures k in a.nodeIndex <==> k in b.nodeIndex {
      NodesByName(a, k);
      NodesByName(b, k);
      if IsBrought(a.results, k) {
        BroughtByPayload(a.results, b.results, k);
      }
      if IsBrought(b.results, k) {
        BroughtByPayload(b.results, a.results, k);
      }
    }
  }
}
