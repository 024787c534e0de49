/**
 The build for packets that report nodes alone: the batch is the list of their names in the
 order in which they turn up, and each step of the build is a step on that list.
 */
module NodeBatches {
  import opened Schema
  import opened StoreBatch

  function FreshNode(k: NodeKey): BatchEntity {
    BatchEntity(0, EntityFields(k.etype, k.value, "node"), "", false, [])
  }

  function FreshNodes(keys: seq<NodeKey>): (es: seq<BatchEntity>)
    ensures |es| == |keys|
    ensures forall i :: 0 <= i < |keys| ==> es[i] == FreshNode(keys[i])
  {
    seq(|keys|, i requires 0 <= i < |keys| => FreshNode(keys[i]))
  }

  function IndexOf(keys: seq<NodeKey>): map<NodeKey, nat> {
    if keys == [] then map[] else IndexOf(keys[..|keys| - 1])[keys[|keys| - 1] := |keys|]
  }

  function UpTo(n: nat): seq<nat> {
    if n == 0 then [] else UpTo(n - 1) + [n]
  }

  predicate DistinctKeys(keys: seq<NodeKey>) {
    forall i, j :: 0 <= i < j < |keys| ==> keys[i] != keys[j]
  }

  /** The batch of the first `n` names. */
  function NodeBatch(keys: seq<NodeKey>, n: nat, results: seq<BatchResult>): Batch
    requires n <= |keys|
  {
    Batch(1, FreshNodes(keys[..n]), IndexOf(keys[..n]), UpTo(n), map[], map[], [], results, map[])
  }

  lemma {:induction false} IndexOfMeaning(keys: seq<NodeKey>, n: nat, i: nat)
    requires DistinctKeys(keys) && n <= |keys| && i < |keys|
    ensures keys[i] in IndexOf(keys[..n]) <==> i < n
    ensures i < n ==> IndexOf(keys[..n])[keys[i]] == i + 1
    decreases n
  {
    if n != 0 {
      assert keys[..n][..n - 1] == keys[..n - 1];
      IndexOfMeaning(keys, n - 1, i);
    }
  }

  /** The result reports the `i`th name as a node. */
  predicate NamesNode(r: Result, k: NodeKey) {
    r.etype == k.etype && r.value == k.value && r.category == "node" && r.localID == 0
  }

  lemma AddName(keys: seq<NodeKey>, n: nat, rs: seq<BatchResult>, i: nat)
    requires DistinctKeys(keys) && i <= n <= |keys| && i < |keys|
    ensures NodeID(NodeBatch(keys, n, rs), keys[i]) == i + 1
    ensures var b := NodeBatch(keys, n, rs);
            && (keys[i] in b.nodeIndex ==> b.Has(b.nodeIndex[keys[i]]))
            && AddNode(b, keys[i], "node", 0) == NodeBatch(keys, if i < n then n else n + 1, rs)
  {
    var b := NodeBatch(keys, n, rs);
    IndexOfMeaning(keys, n, i);
    if i < n {
      assert b.entities[i] == FreshNode(keys[i]);
      assert b.entities[i := b.entities[i]] == b.entities;
    } else {
      assert keys[..n + 1][..n] == keys[..n];
      assert FreshNodes(keys[..n + 1]) == FreshNodes(keys[..n]) + [FreshNode(keys[n])];
    }
  }

  lemma PlaceName(keys: seq<NodeKey>, n: nat, rs: seq<BatchResult>, src: nat, r: Result, i: nat)
    requires DistinctKeys(keys) && i <= n <= |keys| && i < |keys| && 1 <= src <= n
    requires NamesNode(r, keys[i]) && r.anchor == "" && WellFormed(NodeBatch(keys, n, rs))
    ensures Place(NodeBatch(keys, n, rs), src, r)
            == NodeBatch(keys, if i < n then n else n + 1, rs + [BatchResult(src, i + 1, r)])
  {
    AddName(keys, n, rs, i);
    hide WellFormed, IndexesAgree, AddNode, IndexOf, FreshNodes, UpTo, Extends;
    var b := NodeBatch(keys, n, rs);
    assert b.Has(src);
    NodeTarget(b, src, r, keys[i]);
  }

  lemma NodeTarget(b: Batch, src: nat, r: Result, k: NodeKey)
    requires WellFormed(b) && b.Has(src) && NamesNode(r, k)
    ensures k in b.nodeIndex ==> b.Has(b.nodeIndex[k])
    ensures AddTarget(b, src, r) == AddNode(b, k, "node", 0) && TargetID(b, src, r) == NodeID(b, k)
  {
    hide IndexesAgree, AddNode, Extends;
    AddNodeKeeps(b, k, "node", 0);
  }

  /** A new name with a new anchor. */
  lemma PlaceAnchored(keys: seq<NodeKey>, n: nat, rs: seq<BatchResult>, src: nat, r: Result)
    requires DistinctKeys(keys) && n + 2 <= |keys| && 1 <= src <= n
    requires NamesNode(r, keys[n]) && r.anchor != "" && keys[n + 1] == NodeKey(ANCHOR_TYPE, r.anchor)
             && WellFormed(NodeBatch(keys, n, rs))
    ensures Place(NodeBatch(keys, n, rs), src, r) == NodeBatch(keys, n + 2, rs + [BatchResult(src, n + 1, r)])
  {
    AddName(keys, n, rs, n);
    AddName(keys, n + 1, rs, n + 1);
    hide WellFormed, IndexesAgree, AddNode, IndexOf, FreshNodes, UpTo, Extends;
    var b := NodeBatch(keys, n, rs);
    assert b.Has(src);
    NodeTarget(b, src, r, keys[n]);
    assert AddTarget(b, src, r) == NodeBatch(keys, n + 1, rs);
  }

  /** A name that is in the batch is found; only the first is the root's. */
  lemma ResolveName(keys: seq<NodeKey>, n: nat, rs: seq<BatchResult>, source: EntityRef, i: nat)
    requires DistinctKeys(keys) && i < n <= |keys| && WellFormed(NodeBatch(keys, n, rs))
    requires source.localID == 0 && NodeKey(source.etype, source.value) == keys[i]
    requires i != 0 ==> EntityKey(source.etype, source.value) != EntityKey(keys[0].etype, keys[0].value)
    ensures Resolve(NodeBatch(keys, n, rs), RootKey(NodeBatch(keys, n, rs)), source) == Resolved(i + 1)
  {
    hide WellFormed, IndexOf, UpTo;
    var b := NodeBatch(keys, n, rs);
    assert b.Has(1) && b.Item(1) == FreshNode(keys[0]);
    assert RootKey(b) == EntityKey(keys[0].etype, keys[0].value);
    IndexOfMeaning(keys, n, i);
  }

  lemma BatchHas(keys: seq<NodeKey>, n: nat, rs: seq<BatchResult>, id: nat)
    requires 1 <= id <= n <= |keys|
    ensures NodeBatch(keys, n, rs).Has(id)
  {
  }

  lemma SourceBatch(keys: seq<NodeKey>)
    requires keys != []
    ensures NewBatch(EntityFields(keys[0].etype, keys[0].value, "node")) == NodeBatch(keys, 1, [])
  {
    assert "node" != "property" by { assert "node"[0] == 'n'; }
    assert keys[..1] == [keys[0]] && keys[..1][..0] == [];
    assert IndexOf([]) == map[] && UpTo(0) == [];
    assert map[keys[0] := 1] == map[][keys[0] := 1];
    assert FreshNodes(keys[..1]) == [FreshNode(keys[0])];
  }

  // ------------------------------------------------------------ groups

  lemma OneResult(b: Batch, id: nat, r: Result)
    requires WellFormed(b) && b.Has(id)
    ensures PlaceAll(b, id, [r]) == Place(b, id, r) && WellFormed(Place(b, id, r)) && Place(b, id, r).Has(id)
  {
    hide WellFormed;
    PlaceKeeps(b, id, r);
    assert [r][1..] == [];
    assert PlaceAll(Place(b, id, r), id, []) == Place(b, id, r);
  }

  lemma TwoResults(b: Batch, id: nat, r: Result, r': Result)
    requires WellFormed(b) && b.Has(id)
    ensures WellFormed(Place(b, id, r)) && Place(b, id, r).Has(id)
    ensures PlaceAll(b, id, [r, r']) == Place(Place(b, id, r), id, r')
  {
    hide WellFormed;
    PlaceKeeps(b, id, r);
    assert [r, r'][1..] == [r'];
    OneResult(Place(b, id, r), id, r');
  }

  /** A group whose source is found is placed, and the round goes on with the rest. */
  lemma RoundPlaces(b: Batch, gs: seq<Group>, id: nat)
    requires WellFormed(b) && gs != [] && Resolve(b, RootKey(b), gs[0].source) == Resolved(id)
    ensures b.Has(id) && Round(b, gs) == Round(PlaceAll(b, id, gs[0].results), gs[1..])
  {
    hide WellFormed, Resolve, PlaceAll;
    ResolveMeaning(b, gs[0].source);
  }

  lemma OneRound(b: Batch, gs: seq<Group>, end: Batch)
    requires WellFormed(b) && WellFormed(end) && gs != [] && Round(b, gs) == RoundDone(end, [])
    ensures Rounds(b, gs) == Built(end)
  {
    hide WellFormed, Round;
    assert Rounds(end, []) == Built(end);
  }

  lemma NoneLeft(b: Batch)
    requires WellFormed(b)
    ensures Round(b, []) == RoundDone(b, [])
  {
  }
}
