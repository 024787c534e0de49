/**
 The two ancestor walks of the graph export.  The first marks the log rows that an edge may
 take its raw data from, the second takes the nearest one.  Both follow property parents,
 and end because a parent's row is older than its property's.
 */
module AncestorWalk {
  import opened Schema
  import opened Database

  /** One observed relation. */
  datatype GraphEdge = GraphEdge(source: nat, target: nat, moduleName: string, function_: string)

  type Parents = map<nat, nat>

  ghost predicate ListsEdges(db: Db, edges: seq<GraphEdge>) {
    forall i :: 0 <= i < |edges| ==> (edges[i].source, edges[i].target) in db.relations
  }

  predicate Descending(parents: Parents) {
    forall t :: t in parents ==> parents[t] < t
  }

  /** Exactly the properties that some edge leads to, each with its one parent; the order of
      the edges does not matter. */
  method CollectParents(db: Db, edges: seq<GraphEdge>) returns (parents: Parents)
    requires TableOK(db) && RelationsOK(db) && ListsEdges(db, edges)
    ensures Descending(parents)
    ensures forall t :: t in parents ==> t in db.rows && db.rows[t].parent == Some(parents[t])
    ensures forall t :: t in parents <==>
              t in db.rows && db.rows[t].category == "property"
              && exists i :: 0 <= i < |edges| && edges[i].target == t
  {
    parents := map[];
    for n := 0 to |edges|
      invariant forall t :: t in parents ==> t in db.rows && db.rows[t].parent == Some(parents[t])
      invariant forall t :: t in parents <==>
                  t in db.rows && db.rows[t].category == "property" && exists i :: 0 <= i < n && edges[i].target == t
    {
      if db.rows[edges[n].target].category == "property" {
        parents := parents[edges[n].target := edges[n].source];
      }
    }
    forall t | t in parents ensures parents[t] < t {
      assert RowOK(db, t, db.rows[t]);
    }
  }

  /** An entity, its parent, its parent's parent, up to a node. */
  function Chain(parents: Parents, id: nat): (c: seq<nat>)
    requires Descending(parents)
    ensures c != [] && c[0] == id
    decreases id
  {
    if id in parents then [id] + Chain(parents, parents[id]) else [id]
  }

  function ChainKeys(parents: Parents, id: nat, e: GraphEdge): set<LogKey>
    requires Descending(parents)
  {
    set x | x in Chain(parents, id) :: LogKey(x, e.moduleName, e.function_)
  }

  method MarkChain(parents: Parents, id: nat, e: GraphEdge, needed: set<LogKey>) returns (r: set<LogKey>)
    requires Descending(parents)
    ensures r == needed + ChainKeys(parents, id, e)
  {
    r := needed;
    var curr := id;
    while true
      invariant r + ChainKeys(parents, curr, e) == needed + ChainKeys(parents, id, e)
      decreases curr
    {
      r := r + {LogKey(curr, e.moduleName, e.function_)};
      if curr !in parents {
        assert Chain(parents, curr) == [curr];
        break;
      }
      assert ChainKeys(parents, curr, e)
             == {LogKey(curr, e.moduleName, e.function_)} + ChainKeys(parents, parents[curr], e) by {
        assert forall x :: x in Chain(parents, curr) <==> x == curr || x in Chain(parents, parents[curr]);
      }
      curr := parents[curr];
    }
  }

  predicate OnEdge(parents: Parents, e: GraphEdge, key: LogKey)
    requires Descending(parents)
  {
    key in ChainKeys(parents, e.source, e) || key in ChainKeys(parents, e.target, e)
  }

  method MarkNeeded(parents: Parents, edges: seq<GraphEdge>) returns (needed: set<LogKey>)
    requires Descending(parents)
    ensures forall i :: 0 <= i < |edges| ==>
              ChainKeys(parents, edges[i].source, edges[i]) + ChainKeys(parents, edges[i].target, edges[i]) <= needed
    ensures forall key :: key in needed ==> exists i :: 0 <= i < |edges| && OnEdge(parents, edges[i], key)
  {
    needed := {};
    for n := 0 to |edges|
      invariant forall i :: 0 <= i < n ==>
                  ChainKeys(parents, edges[i].source, edges[i])
                  + ChainKeys(parents, edges[i].target, edges[i]) <= needed
      invariant forall key :: key in needed ==> exists i :: 0 <= i < n && OnEdge(parents, edges[i], key)
    {
      needed := MarkChain(parents, edges[n].source, edges[n], needed);
      needed := MarkChain(parents, edges[n].target, edges[n], needed);
    }
  }

  /** The nearest member of the chain that has raw data. */
  function Nearest(raw: map<LogKey, nat>, chain: seq<nat>, e: GraphEdge): Option<nat> {
    if chain == [] then None
    else
      var key := LogKey(chain[0], e.moduleName, e.function_);
      if key in raw then Some(raw[key]) else Nearest(raw, chain[1..], e)
  }

  /** The target's chain is asked first, then the source's. */
  function RawDataOf(raw: map<LogKey, nat>, parents: Parents, e: GraphEdge): Option<nat>
    requires Descending(parents)
  {
    var t := Nearest(raw, Chain(parents, e.target), e);
    if t.Some? then t else Nearest(raw, Chain(parents, e.source), e)
  }

  method FindOnChain(raw: map<LogKey, nat>, parents: Parents, id: nat, e: GraphEdge) returns (found: Option<nat>)
    requires Descending(parents)
    ensures found == Nearest(raw, Chain(parents, id), e)
  {
    var curr := id;
    while true
      invariant Nearest(raw, Chain(parents, curr), e) == Nearest(raw, Chain(parents, id), e)
      decreases curr
    {
      var key := LogKey(curr, e.moduleName, e.function_);
      if key in raw {
        return Some(raw[key]);
      }
      if curr !in parents {
        assert Chain(parents, curr)[1..] == [];
        return None;
      }
      assert Chain(parents, curr)[1..] == Chain(parents, parents[curr]);
      curr := parents[curr];
    }
  }

  method FindRawData(raw: map<LogKey, nat>, parents: Parents, e: GraphEdge) returns (found: Option<nat>)
    requires Descending(parents)
    ensures found == RawDataOf(raw, parents, e)
  {
    found := FindOnChain(raw, parents, e.target, e);
    if found.None? {
      found := FindOnChain(raw, parents, e.source, e);
    }
  }

  function Restricted(raw: map<LogKey, nat>, needed: set<LogKey>): map<LogKey, nat> {
    map k | k in raw && k in needed :: raw[k]
  }

  lemma {:induction false} NearestRestricted(raw: map<LogKey, nat>, needed: set<LogKey>, chain: seq<nat>, e: GraphEdge)
    requires forall x <- chain :: LogKey(x, e.moduleName, e.function_) in needed
    ensures Nearest(Restricted(raw, needed), chain, e) == Nearest(raw, chain, e)
    decreases |chain|
  {
    if chain != [] {
      NearestRestricted(raw, needed, chain[1..], e);
    }
  }

  /** The marked rows suffice: loading only them gives every edge the same raw data. */
  lemma MarkedRowsSuffice(raw: map<LogKey, nat>, needed: set<LogKey>, parents: Parents, e: GraphEdge)
    requires Descending(parents)
    requires ChainKeys(parents, e.source, e) + ChainKeys(parents, e.target, e) <= needed
    ensures RawDataOf(Restricted(raw, needed), parents, e) == RawDataOf(raw, parents, e)
  {
    forall x | x in Chain(parents, e.target) ensures LogKey(x, e.moduleName, e.function_) in needed {
      assert LogKey(x, e.moduleName, e.function_) in ChainKeys(parents, e.target, e);
    }
    forall x | x in Chain(parents, e.source) ensures LogKey(x, e.moduleName, e.function_) in needed {
      assert LogKey(x, e.moduleName, e.function_) in ChainKeys(parents, e.source, e);
    }
    NearestRestricted(raw, needed, Chain(parents, e.target), e);
    NearestRestricted(raw, needed, Chain(parents, e.source), e);
  }

  // ------------------------------------------------------------ what an edge is given

  /** The `n`th ancestor: the parent's parent, `n` times. */
  function Ancestor(parents: Parents, id: nat, n: nat): Option<nat>
    decreases n
  {
    if n == 0 then Some(id)
    else if id in parents then Ancestor(parents, parents[id], n - 1)
    else None
  }

  lemma {:induction false} ChainIsAncestors(parents: Parents, id: nat, n: nat)
    requires Descending(parents)
    ensures n < |Chain(parents, id)| <==> Ancestor(parents, id, n).Some?
    ensures n < |Chain(parents, id)| ==> Ancestor(parents, id, n) == Some(Chain(parents, id)[n])
    decreases n
  {
    if n > 0 && id in parents {
      ChainIsAncestors(parents, parents[id], n - 1);
    }
  }

  /** The `n`th ancestor has a log row of the edge's function with raw data `x`, and no nearer one has any. */
  predicate NearestAt(raw: map<LogKey, nat>, parents: Parents, id: nat, e: GraphEdge, n: nat, x: nat) {
    && HasRawAt(raw, parents, id, e, n) && raw[LogKey(Ancestor(parents, id, n).value, e.moduleName, e.function_)] == x
    && forall k :: 0 <= k < n ==> !HasRawAt(raw, parents, id, e, k)
  }

  predicate HasRawAt(raw: map<LogKey, nat>, parents: Parents, id: nat, e: GraphEdge, n: nat) {
    var a := Ancestor(parents, id, n);
    a.Some? && LogKey(a.value, e.moduleName, e.function_) in raw
  }

  ghost predicate NoneHasRaw(raw: map<LogKey, nat>, parents: Parents, id: nat, e: GraphEdge) {
    forall n: nat :: !HasRawAt(raw, parents, id, e, n)
  }

  lemma {:induction false} NearestIndex(raw: map<LogKey, nat>, chain: seq<nat>, e: GraphEdge)
    ensures match Nearest(raw, chain, e)
            case Some(x) =>
              exists n :: 0 <= n < |chain| && LogKey(chain[n], e.moduleName, e.function_) in raw
                          && raw[LogKey(chain[n], e.moduleName, e.function_)] == x
                          && forall k :: 0 <= k < n ==> LogKey(chain[k], e.moduleName, e.function_) !in raw
            case None => forall n :: 0 <= n < |chain| ==> LogKey(chain[n], e.moduleName, e.function_) !in raw
    decreases |chain|
  {
    if chain != [] && LogKey(chain[0], e.moduleName, e.function_) !in raw {
      var rest := chain[1..];
      NearestIndex(raw, rest, e);
      assert forall k :: 0 <= k < |rest| ==> rest[k] == chain[k + 1];
      if Nearest(raw, rest, e).Some? {
        var n :| 0 <= n < |rest| && LogKey(rest[n], e.moduleName, e.function_) in raw
            && raw[LogKey(rest[n], e.moduleName, e.function_)] == Nearest(raw, rest, e).value
            && forall k :: 0 <= k < n ==> LogKey(rest[k], e.moduleName, e.function_) !in raw;
        assert chain[n + 1] == rest[n];
        forall k | 0 <= k < n + 1 ensures LogKey(chain[k], e.moduleName, e.function_) !in raw {
          assert k > 0 ==> chain[k] == rest[k - 1];
        }
      }
    }
  }

  lemma RawOnChain(raw: map<LogKey, nat>, parents: Parents, id: nat, e: GraphEdge, n: nat)
    requires Descending(parents)
    ensures var chain := Chain(parents, id);
            && (HasRawAt(raw, parents, id, e, n) <==> n < |chain| && LogKey(chain[n], e.moduleName, e.function_) in raw)
            && (n < |chain| ==> Ancestor(parents, id, n) == Some(chain[n]))
  {
    ChainIsAncestors(parents, id, n);
    hide Chain, Ancestor;
  }

  /** The first member of the chain that has raw data is the nearest ancestor that has. */
  lemma FirstIsNearest(raw: map<LogKey, nat>, parents: Parents, id: nat, e: GraphEdge, n: nat, x: nat)
    requires Descending(parents) && n < |Chain(parents, id)|
    requires var chain := Chain(parents, id);
             && LogKey(chain[n], e.moduleName, e.function_) in raw
                && raw[LogKey(chain[n], e.moduleName, e.function_)] == x
             && forall k :: 0 <= k < n ==> LogKey(chain[k], e.moduleName, e.function_) !in raw
    ensures NearestAt(raw, parents, id, e, n, x)
  {
    hide Chain, Ancestor, HasRawAt;
    RawOnChain(raw, parents, id, e, n);
    forall k | 0 <= k < n ensures !HasRawAt(raw, parents, id, e, k) {
      RawOnChain(raw, parents, id, e, k);
    }
  }

  lemma ChainMeaning(raw: map<LogKey, nat>, parents: Parents, id: nat, e: GraphEdge)
    requires Descending(parents)
    ensures match Nearest(raw, Chain(parents, id), e)
            case Some(x) => exists n: nat :: NearestAt(raw, parents, id, e, n, x)
            case None => NoneHasRaw(raw, parents, id, e)
  {
    var chain := Chain(parents, id);
    NearestIndex(raw, chain, e);
    hide Chain, Ancestor, Nearest, NearestAt, HasRawAt;
    match Nearest(raw, chain, e)
    case Some(x) =>
      var n: nat :| n < |chain| && LogKey(chain[n], e.moduleName, e.function_) in raw
          && raw[LogKey(chain[n], e.moduleName, e.function_)] == x
          && forall k :: 0 <= k < n ==> LogKey(chain[k], e.moduleName, e.function_) !in raw;
      FirstIsNearest(raw, parents, id, e, n, x);
    case None =>
      forall n: nat ensures !HasRawAt(raw, parents, id, e, n) {
        RawOnChain(raw, parents, id, e, n);
      }
  }

  /** An edge is given the raw data of the target or its nearest ancestor that has any of the edge's
      function; only if none has, that of the source or its nearest; and none if there is none. */
  lemma RawDataMeaning(raw: map<LogKey, nat>, parents: Parents, e: GraphEdge)
    requires Descending(parents)
    ensures match RawDataOf(raw, parents, e)
            case Some(x) =>
              || (exists n: nat :: NearestAt(raw, parents, e.target, e, n, x))
              || (NoneHasRaw(raw, parents, e.target, e) && exists n: nat :: NearestAt(raw, parents, e.source, e, n, x))
            case None => NoneHasRaw(raw, parents, e.target, e) && NoneHasRaw(raw, parents, e.source, e)
  {
    ChainMeaning(raw, parents, e.target, e);
    ChainMeaning(raw, parents, e.source, e);
    hide NearestAt, NoneHasRaw, Nearest, Chain;
  }
}
