/**
 Which result gives an entry of the packet its function, its category and its anchor: the first
 one, in the module's own order, that lands on it.
 */
module FirstLanding {
  import opened Schema
  import opened Reachability
  import opened Processor
  import opened Processing
  import opened Aggregation
  import M = ProcessMeaning

  // ------------------------------------------------------------ where hits come from

  /** The place of a result in the module's output. */
  datatype Place = Place(i: nat, j: nat)

  predicate Before(a: Place, b: Place) {
    a.i < b.i || (a.i == b.i && a.j < b.j)
  }

  function PlacesIn(d: Run, refs: Refs, rs: seq<Finding>, i: nat): seq<Place>
    requires AllHaveRefs(d, refs, rs)
  {
    if rs == [] then []
    else
      var n := |rs| - 1;
      PlacesIn(d, refs, rs[..n], i) + (if FateOf(d, refs, rs[n]).Usable? then [Place(i, n)] else [])
  }

  function AllPlaces(d: Run, refs: Refs, es: seq<Execution>): seq<Place>
    requires RefsCover(d, refs, es)
  {
    if es == [] then []
    else
      var n := |es| - 1;
      assert RefsCover(d, refs, es[..n]);
      AllPlaces(d, refs, es[..n]) + (if Effective(d, es, n) then PlacesIn(d, refs, es[n].results, n) else [])
  }

  predicate Ascending(ps: seq<Place>) {
    forall k, l :: 0 <= k < l < |ps| ==> Before(ps[k], ps[l])
  }

  lemma {:induction false} PlacesMatch(rules: Rules, d: Run, refs: Refs, fn: string, rs: seq<Finding>, i: nat)
    requires AllHaveRefs(d, refs, rs)
    ensures var hits, ps := HitsOf(rules, d, refs, fn, rs), PlacesIn(d, refs, rs, i);
            && |hits| == |ps| && Ascending(ps)
            && (forall k :: 0 <= k < |ps| ==>
                  ps[k].i == i && ps[k].j < |rs| && hits[k] == HitOf(rules, d, refs, fn, rs[ps[k].j])
                  && FateOf(d, refs, rs[ps[k].j]).Usable?)
    decreases |rs|
  {
    if rs != [] {
      hide FateOf, HitOf;
      PlacesMatch(rules, d, refs, fn, rs[..|rs| - 1], i);
    }
  }

  ghost predicate PlacedHit(rules: Rules, d: Run, refs: Refs, es: seq<Execution>, h: Hit, p: Place)
    requires RefsCover(d, refs, es)
  {
    && p.i < |es| && Effective(d, es, p.i) && p.j < |es[p.i].results|
    && FateOf(d, refs, es[p.i].results[p.j]).Usable?
    && h == HitOf(rules, d, refs, es[p.i].function_, es[p.i].results[p.j])
  }

  lemma {:induction false} AllPlacesMatch(rules: Rules, d: Run, refs: Refs, es: seq<Execution>)
    requires RefsCover(d, refs, es)
    ensures var hits, ps := AllHits(rules, d, refs, es), AllPlaces(d, refs, es);
            && |hits| == |ps| && Ascending(ps)
            && forall k :: 0 <= k < |ps| ==> PlacedHit(rules, d, refs, es, hits[k], ps[k])
    decreases |es|
  {
    if es != [] {
      var n := |es| - 1;
      assert RefsCover(d, refs, es[..n]);
      AllPlacesMatch(rules, d, refs, es[..n]);
      assert forall i :: 0 <= i < n ==> es[..n][i] == es[i] && Effective(d, es[..n], i) == Effective(d, es, i);
      if Effective(d, es, n) {
        PlacesMatch(rules, d, refs, es[n].function_, es[n].results, n);
      }
      hide FateOf, HitOf, Effective;
      var hits, ps := AllHits(rules, d, refs, es[..n]), AllPlaces(d, refs, es[..n]);
      forall k | 0 <= k < |ps| ensures ps[k].i < n && PlacedHit(rules, d, refs, es, hits[k], ps[k]) {
        assert PlacedHit(rules, d, refs, es[..n], hits[k], ps[k]);
      }
    }
  }

  // ------------------------------------------------------------ the first hit gives the fields

  /** What an entry takes from the first result that lands on it. */
  predicate SameFields(a: Result, b: Result) {
    a.function_ == b.function_ && a.category == b.category && a.anchor == b.anchor
  }

  ghost predicate FieldsOfFirst(hits: seq<Hit>, agg: Aggregate, src: EntityRef, key: ResultKey) {
    key in Grouped(agg, src) ==>
      exists i :: 0 <= i < |hits| && FirstOn(hits, i, src, key) && SameFields(Grouped(agg, src)[key], hits[i].result)
  }

  lemma {:induction false} FirstGivesFields(rules: Rules, hits: seq<Hit>, src: EntityRef, key: ResultKey)
    ensures FieldsOfFirst(hits, InsertAll(rules, map[], hits), src, key)
    decreases |hits|
  {
    if hits != [] {
      var n := |hits| - 1;
      var agg := InsertAll(rules, map[], hits[..n]);
      FirstGivesFields(rules, hits[..n], src, key);
      AggregateMeaning(rules, hits[..n], src, key);
      assert forall k :: 0 <= k < n ==> hits[..n][k] == hits[k];
      if key in Grouped(agg, src) {
        var i :| 0 <= i < n && FirstOn(hits[..n], i, src, key)
            && SameFields(Grouped(agg, src)[key], hits[..n][i].result);
        assert FirstOn(hits, i, src, key);
      } else if Aggregation.Lands(hits[n], src, key) {
        assert FirstOn(hits, n, src, key);
      }
    }
  }

  // ------------------------------------------------------------ the first landing

  ghost predicate IsFirstLanding(rules: Rules, d: Run, i: nat, j: nat, src: EntityRef, key: ResultKey) {
    && M.Lands(rules, d, i, j, src, key)
    && forall a: nat, b: nat :: Before(Place(a, b), Place(i, j)) ==> !M.Lands(rules, d, a, b, src, key)
  }

  lemma PlaceOf(rules: Rules, d: Run, a: nat, b: nat, src: EntityRef, key: ResultKey) returns (k: nat)
    requires RefsCover(d, RefsOf(rules, d), d.executions) && M.Lands(rules, d, a, b, src, key)
    ensures var hits, ps := AllHits(rules, d, RefsOf(rules, d), d.executions),
            AllPlaces(d, RefsOf(rules, d), d.executions);
            k < |hits| && k < |ps| && ps[k] == Place(a, b) && Aggregation.Lands(hits[k], src, key)
  {
    var refs, es := RefsOf(rules, d), d.executions;
    M.CountsMeaning(d, a);
    assert Effective(d, es, a) && Linked(d, es[a]) && HasRefs(d, refs, es[a].results[b]);
    M.FateMeaning(rules, d, es[a].results[b]);
    M.LandingMeaning(rules, d, a, b, src, key);
    AllPlacesMatch(rules, d, refs, es);
    hide RefsOf, FateOf, HitOf, AllHits, M.Lands, Effective, M.SourceName, M.TargetName, M.Repeats, M.WellTagged,
         M.HalfNamed;
    k := PlaceIndex(d, refs, es, a, b);
  }

  lemma {:induction false} PlaceIndex(d: Run, refs: Refs, es: seq<Execution>, a: nat, b: nat) returns (k: nat)
    requires RefsCover(d, refs, es) && a < |es| && b < |es[a].results| && Effective(d, es, a)
    requires FateOf(d, refs, es[a].results[b]).Usable?
    ensures k < |AllPlaces(d, refs, es)| && AllPlaces(d, refs, es)[k] == Place(a, b)
    decreases |es|
  {
    var n := |es| - 1;
    assert RefsCover(d, refs, es[..n]);
    hide FateOf;
    if a < n {
      assert es[..n][a] == es[a] && forall i :: 0 <= i < a ==> es[..n][i] == es[i];
      k := PlaceIndex(d, refs, es[..n], a, b);
    } else {
      k := InIndex(d, refs, es[n].results, n, b);
      k := k + |AllPlaces(d, refs, es[..n])|;
    }
  }

  lemma {:induction false} InIndex(d: Run, refs: Refs, rs: seq<Finding>, i: nat, b: nat) returns (k: nat)
    requires AllHaveRefs(d, refs, rs) && b < |rs| && FateOf(d, refs, rs[b]).Usable?
    ensures k < |PlacesIn(d, refs, rs, i)| && PlacesIn(d, refs, rs, i)[k] == Place(i, b)
    decreases |rs|
  {
    hide FateOf;
    var n := |rs| - 1;
    if b < n {
      k := InIndex(d, refs, rs[..n], i, b);
    } else {
      k := |PlacesIn(d, refs, rs[..n], i)|;
    }
  }

  /** The first hit on an entry is that of the first result that lands there. */
  lemma FirstHitIsFirst(rules: Rules, d: Run, k: nat, src: EntityRef, key: ResultKey) returns (i: nat, j: nat)
    requires RefsCover(d, RefsOf(rules, d), d.executions)
    requires k < |AllHits(rules, d, RefsOf(rules, d), d.executions)|
    requires FirstOn(AllHits(rules, d, RefsOf(rules, d), d.executions), k, src, key)
    ensures IsFirstLanding(rules, d, i, j, src, key)
    ensures var f, r := d.executions[i].results[j], AllHits(rules, d, RefsOf(rules, d), d.executions)[k].result;
            && r.function_ == d.executions[i].function_ && r.anchor == M.TargetName(rules, d, f).anchor
            && r.category == (if f.category == "" then "node" else f.category)
  {
    var refs, es := RefsOf(rules, d), d.executions;
    var hits, ps := AllHits(rules, d, refs, es), AllPlaces(d, refs, es);
    AllPlacesMatch(rules, d, refs, es);
    assert PlacedHit(rules, d, refs, es, hits[k], ps[k]);
    i, j := ps[k].i, ps[k].j;
    assert Linked(d, es[i]) && HasRefs(d, refs, es[i].results[j]);
    M.LandingMeaning(rules, d, i, j, src, key);
    hide RefsOf, FateOf, HitOf, AllHits, AllPlaces, M.Lands, M.TargetName;
    assert M.HitAt(rules, d, i, j, hits[k]);
    forall a: nat, b: nat | Before(Place(a, b), Place(i, j)) ensures !M.Lands(rules, d, a, b, src, key) {
      if M.Lands(rules, d, a, b, src, key) {
        var l := PlaceOf(rules, d, a, b, src, key);
        EarlierIndex(ps, l, k);
        assert false;
      }
    }
  }

  lemma EarlierIndex(ps: seq<Place>, l: nat, k: nat)
    requires Ascending(ps) && l < |ps| && k < |ps| && Before(ps[l], ps[k])
    ensures l < k
  {
  }

  /** For every run and its packet: a result's function, category and anchor are those of the first
      result, in the module's order, that lands on it. */
  lemma FirstLandingNames(rules: Rules, d: Run, p: Packet, src: EntityRef, r: Result)
    requires IsPacket(rules, d, p) && M.Brings(p, src, r)
    ensures exists i: nat, j: nat ::
              && IsFirstLanding(rules, d, i, j, src, KeyOfResult(r))
              && r.function_ == d.executions[i].function_
              && r.anchor == M.TargetName(rules, d, d.executions[i].results[j]).anchor
              && r.category == (if d.executions[i].results[j].category == "" then "node"
                                 else d.executions[i].results[j].category)
  {
    var key := KeyOfResult(r);
    M.BroughtIsEntry(rules, d, p, src, r);
    RefsExist(rules, d);
    var hits := AllHits(rules, d, RefsOf(rules, d), d.executions);
    ExecutionsInsert(rules, d, RefsOf(rules, d), d.executions);
    FirstGivesFields(rules, hits, src, key);
    hide RefsOf, AllHits, InsertAll, IsPacket, M.Lands, M.TargetName, FirstOn, IsFirstLanding;
    var k: nat :| k < |hits| && FirstOn(hits, k, src, key)
        && SameFields(Grouped(Tallied(rules, d).groups, src)[key], hits[k].result);
    var i, j := FirstHitIsFirst(rules, d, k, src, key);
  }
}
