/**
 The layer loop of `Store`: properties are inserted in layers, each layer holding the
 pending properties whose parent already has a row.  The loop never runs dry, ends, and
 inserts every property once, after its parent.
 */
module PropertyLayers {
  import opened Collections
  import opened StoreBatch
  import opened StoreDb

  /** One layer, collected in whatever order the map of pending ids is walked. */
  method NextLayer(b: Batch, pending: set<nat>, resolved: set<nat>) returns (layer: seq<nat>, rest: set<nat>)
    requires forall v :: v in pending ==> b.Has(v)
    ensures Elements(layer) == set v | v in pending && b.Item(v).parentID in resolved
    ensures forall i, j :: 0 <= i < j < |layer| ==> layer[i] != layer[j]
    ensures rest == pending - Elements(layer)
  {
    layer, rest := [], pending;
    var todo := pending;
    while todo != {}
      invariant todo <= pending
      invariant Elements(layer) == set v | v in pending - todo && b.Item(v).parentID in resolved
      invariant forall i, j :: 0 <= i < j < |layer| ==> layer[i] != layer[j]
      invariant rest == pending - Elements(layer)
      decreases |todo|
    {
      var v :| v in todo;
      todo := todo - {v};
      if b.Item(v).parentID in resolved {
        assert v !in Elements(layer) && Elements(layer + [v]) == Elements(layer) + {v};
        layer := layer + [v];
        rest := rest - {v};
      }
    }
  }

  /** In a batch every parent comes before its properties, so the least pending one is ready. */
  lemma LeastIsReady(b: Batch, pending: set<nat>, resolved: set<nat>) returns (least: nat)
    requires WellFormed(b) && pending != {}
    requires forall v: nat :: b.Has(v) && !IsProperty(b.Item(v)) ==> v in resolved
    requires forall v :: v in pending ==> b.Has(v) && IsProperty(b.Item(v))
    requires forall v: nat :: b.Has(v) && IsProperty(b.Item(v)) ==> v in pending || v in resolved
    ensures least in pending && b.Item(least).parentID in resolved
  {
    least := Least(pending);
    assert b.entities[least - 1].parentID <= least - 1;
  }

  lemma Least(s: set<nat>) returns (m: nat)
    requires s != {}
    ensures m in s && forall v :: v in s ==> m <= v
    decreases |s|
  {
    m :| m in s;
    var rest := s - {m};
    if rest != {} {
      var m0 := m;
      var m' := Least(rest);
      m := if m' < m0 then m' else m0;
      forall v | v in s ensures m <= v {
        assert v == m0 || v in rest;
      }
    }
  }

  /** The properties in `order` have rows, each once and after its parent; the others are pending. */
  ghost predicate Inserted(b: Batch, start: set<nat>, pending: set<nat>, order: seq<nat>) {
    && pending + Elements(order) == Elements(b.propertyIDs) && pending !! Elements(order)
    && (forall i, j :: 0 <= i < j < |order| ==> order[i] != order[j])
    && (forall i :: 0 <= i < |order| ==> b.Has(order[i]))
    && (forall i :: 0 <= i < |order| ==> b.Item(order[i]).parentID in start || b.Item(order[i]).parentID in order[..i])
  }

  ghost predicate AreRows(b: Batch, start: set<nat>) {
    forall v: nat :: v in start <==> b.Has(v) && !IsProperty(b.Item(v))
  }

  lemma PendingReady(b: Batch, start: set<nat>, pending: set<nat>, order: seq<nat>) returns (least: nat)
    requires WellFormed(b) && AreRows(b, start) && Inserted(b, start, pending, order) && pending != {}
    ensures least in pending && b.Has(least) && b.Item(least).parentID in start + Elements(order)
  {
    NodeIDsOK(b);
    forall v: nat | b.Has(v) && IsProperty(b.Item(v)) ensures v in pending || v in start + Elements(order) {
      assert v in Elements(b.propertyIDs);
    }
    forall v | v in pending ensures b.Has(v) && IsProperty(b.Item(v)) {
      assert v in Elements(b.propertyIDs);
    }
    least := LeastIsReady(b, pending, start + Elements(order));
  }

  lemma PendingHas(b: Batch, start: set<nat>, pending: set<nat>, order: seq<nat>)
    requires WellFormed(b) && Inserted(b, start, pending, order)
    ensures forall v :: v in pending ==> b.Has(v) && IsProperty(b.Item(v))
  {
    NodeIDsOK(b);
    forall v | v in pending ensures b.Has(v) && IsProperty(b.Item(v)) {
      assert v in Elements(b.propertyIDs);
    }
  }

  lemma PropertiesHaveNoRow(b: Batch, start: set<nat>)
    requires AreRows(b, start) && forall v: nat :: v in b.propertyIDs <==> b.Has(v) && IsProperty(b.Item(v))
    ensures forall v: nat :: v in b.propertyIDs ==> v !in start
  {
  }

  lemma AllInserted(b: Batch, start: set<nat>, order: seq<nat>)
    requires WellFormed(b) && AreRows(b, start) && Inserted(b, start, {}, order)
    ensures LayerOrder(b, order)
  {
    NodeIDsOK(b);
    hide WellFormed, NodesInRange;
    assert Elements(order) == Elements(b.propertyIDs);
    forall v: nat ensures v in order <==> v in b.propertyIDs {
      assert v in Elements(order) <==> v in Elements(b.propertyIDs);
    }
    PropertiesHaveNoRow(b, start);
    hide AreRows;
    forall i | 0 <= i < |order| ensures IsProperty(b.Item(order[i])) {
      assert order[i] in b.propertyIDs;
    }
    forall i | 0 <= i < |order| && b.Item(order[i]).parentID in b.propertyIDs
      ensures b.Item(order[i]).parentID in order[..i] {
      assert b.Item(order[i]).parentID !in start;
    }
  }

  lemma LayerAppends(b: Batch, start: set<nat>, order: seq<nat>, layer: seq<nat>, pending: set<nat>)
    requires Inserted(b, start, pending, order)
    requires forall v :: v in Elements(layer) ==>
               v in pending && b.Has(v) && b.Item(v).parentID in start + Elements(order)
    requires forall i, j :: 0 <= i < j < |layer| ==> layer[i] != layer[j]
    ensures Inserted(b, start, pending - Elements(layer), order + layer)
  {
    var all := order + layer;
    forall i | 0 <= i < |all|
      ensures b.Has(all[i]) && (b.Item(all[i]).parentID in start || b.Item(all[i]).parentID in all[..i]) {
      if i < |order| {
        assert all[..i] == order[..i];
      } else {
        assert layer[i - |order|] in Elements(layer);
        assert all[..i] == order + layer[..i - |order|];
      }
    }
    forall i, j | 0 <= i < j < |all| ensures all[i] != all[j] {
      if i < |order| <= j {
        assert order[i] in Elements(order) && layer[j - |order|] in Elements(layer);
      }
    }
    assert Elements(all) == Elements(order) + Elements(layer);
  }
}
