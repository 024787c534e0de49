/**
 What a packet says, told from the module's output field by field: which results become entries,
 under which source and name, what an entry's tags and marks are, which errors are reported, and
 which raw data.  Nothing here goes by way of the processor's working maps.
 */
module ProcessMeaning {
  import opened Schema
  import opened Tags
  import opened Reachability
  import opened Processor
  import opened Processing
  import opened Aggregation

  // ------------------------------------------------------------ which executions and results count

  predicate Asked(d: Run, fn: string) {
    d.requested == [] || fn in d.requested
  }

  /** The module kept its contract: it ran nothing that was not asked for. */
  predicate KeptContract(d: Run) {
    forall k :: 0 <= k < |d.executions| ==> Asked(d, d.executions[k].function_)
  }

  /** The `i`th execution counts: no contract is broken, it did not fail, and it is the first of its function. */
  predicate Counts(d: Run, i: nat) {
    && i < |d.executions| && d.executions[i].error == "" && KeptContract(d)
    && forall k :: 0 <= k < i ==> d.executions[k].function_ != d.executions[i].function_
  }

  /** The name that a pair ends up with: as the syntax check has it, if a chain of accepted results
      leads there and the check accepts it, and "invalid" otherwise; domains have no anchor. */
  ghost function NameOf(rules: Rules, d: Run, k: Key): EntityRef {
    var v := rules.validate(k.etype, k.value);
    if Found(d, k) && v.Accepted? then EntityRef(v.etype, v.value, if v.etype == "domain" then "" else v.anchor, 0)
    else EntityRef("invalid", k.value, "", 0)
  }

  ghost function SourceName(rules: Rules, d: Run, f: Finding): EntityRef {
    match f.source
    case NoSource => NameOf(rules, d, Key(d.etype, d.value))
    case SourceRef(etype, value, localID) => NameOf(rules, d, Key(etype, value)).(localID := localID)
  }

  ghost function TargetName(rules: Rules, d: Run, f: Finding): EntityRef {
    NameOf(rules, d, Key(f.etype, f.value))
  }

  predicate WellTagged(f: Finding) {
    forall t :: 0 <= t < |f.tags| ==> ValidTag(f.tags[t])
  }

  /** It repeats its own source and adds no tag. */
  ghost predicate Repeats(rules: Rules, d: Run, f: Finding) {
    var s, t := SourceName(rules, d, f), TargetName(rules, d, f);
    t.etype == s.etype && t.value == s.value && f.tags == []
  }

  predicate HalfNamed(f: Finding) {
    (f.etype == "" && f.value != "") || (f.etype != "" && f.value == "")
  }

  /** The `j`th result of the `i`th execution becomes part of the entry `key` under `src`. */
  ghost predicate Lands(rules: Rules, d: Run, i: nat, j: nat, src: EntityRef, key: ResultKey) {
    && Counts(d, i) && j < |d.executions[i].results|
    && var f := d.executions[i].results[j];
       && WellTagged(f) && !Repeats(rules, d, f) && !HalfNamed(f)
       && SourceName(rules, d, f) == src
       && TargetName(rules, d, f).etype == key.etype && TargetName(rules, d, f).value == key.value
       && f.localID == key.localID
  }

  ghost predicate AnyLands(rules: Rules, d: Run, src: EntityRef, key: ResultKey) {
    exists i: nat, j: nat :: Lands(rules, d, i, j, src, key)
  }

  ghost predicate TagLands(rules: Rules, d: Run, src: EntityRef, key: ResultKey, tag: string) {
    exists i: nat, j: nat :: Lands(rules, d, i, j, src, key) && tag in d.executions[i].results[j].tags
  }

  /** A result that lands there is marked as applied, and the type is among the input types of its function. */
  ghost predicate AppliedLands(rules: Rules, d: Run, src: EntityRef, key: ResultKey) {
    exists i: nat, j: nat ::
      && Lands(rules, d, i, j, src, key) && d.executions[i].results[j].applied
      && d.executions[i].function_ in d.inputTypes && key.etype in d.inputTypes[d.executions[i].function_]
  }

  ghost predicate OutOfScopeLands(rules: Rules, d: Run, src: EntityRef, key: ResultKey) {
    exists i: nat, j: nat :: Lands(rules, d, i, j, src, key) && d.executions[i].results[j].outOfScope
  }

  /** The entry, over the fields of the module's results.  The scope rules block it, or a result that
      lands on it is out of scope and nothing permits it. */
  ghost predicate IsEntry(rules: Rules, d: Run, src: EntityRef, key: ResultKey, r: Result) {
    && (forall tag :: tag in r.tags <==> TagLands(rules, d, src, key, tag))
    && (r.applied <==> AppliedLands(rules, d, src, key))
    && (r.outOfScope <==>
          rules.blocked(key.etype, key.value)
          || (!rules.allowed(key.etype, key.value) && OutOfScopeLands(rules, d, src, key)))
  }

  // ------------------------------------------------------------ the processor's terms in these

  lemma CountsMeaning(d: Run, i: nat)
    requires i < |d.executions|
    ensures Effective(d, d.executions, i) <==> Counts(d, i)
  {
    LinkedMeaning(d, d.executions[i]);
    assert Violated(d) <==> !KeptContract(d) by {
      if !KeptContract(d) {
        var k :| 0 <= k < |d.executions| && !Asked(d, d.executions[k].function_);
        assert IsRogue(d, d.executions[k]);
      }
    }
  }

  lemma NameMeaning(rules: Rules, d: Run, k: Key)
    requires k in RefsOf(rules, d)
    ensures RefsOf(rules, d)[k] == NameOf(rules, d, k)
  {
    FoundMeaning(d, k);
    hide GraphOf, Joined, Found;
  }

  lemma FateMeaning(rules: Rules, d: Run, f: Finding)
    requires HasRefs(d, RefsOf(rules, d), f)
    ensures var refs := RefsOf(rules, d);
            && SourceOf(d, refs, f) == SourceName(rules, d, f) && refs[TargetKey(f)] == TargetName(rules, d, f)
            && (FateOf(d, refs, f).BadTag? <==> !WellTagged(f))
            && (FateOf(d, refs, f).Incomplete? <==> WellTagged(f) && !Repeats(rules, d, f) && HalfNamed(f))
            && (FateOf(d, refs, f).Usable? <==> WellTagged(f) && !Repeats(rules, d, f) && !HalfNamed(f))
  {
    NameMeaning(rules, d, SourceKey(d, f));
    NameMeaning(rules, d, TargetKey(f));
    hide RefsOf, NameOf;
  }

  // ------------------------------------------------------------ hits and landings

  /** The hit that the `j`th result of the `i`th execution makes. */
  ghost predicate HitAt(rules: Rules, d: Run, i: nat, j: nat, h: Hit) {
    && i < |d.executions| && j < |d.executions[i].results| && Effective(d, d.executions, i)
    && var refs := RefsOf(rules, d);
       && HasRefs(d, refs, d.executions[i].results[j]) && FateOf(d, refs, d.executions[i].results[j]).Usable?
       && h == HitOf(rules, d, refs, d.executions[i].function_, d.executions[i].results[j])
  }

  lemma {:induction false} HitsOfMeaning(rules: Rules, d: Run, refs: Refs, fn: string, rs: seq<Finding>, h: Hit)
    requires AllHaveRefs(d, refs, rs)
    ensures h in HitsOf(rules, d, refs, fn, rs) <==>
              exists j :: 0 <= j < |rs| && FateOf(d, refs, rs[j]).Usable? && h == HitOf(rules, d, refs, fn, rs[j])
    decreases |rs|
  {
    if rs != [] {
      var n := |rs| - 1;
      HitsOfMeaning(rules, d, refs, fn, rs[..n], h);
      assert forall j :: 0 <= j < n ==> rs[..n][j] == rs[j];
      hide FateOf, HitOf;
    }
  }

  ghost predicate SomeHit(rules: Rules, d: Run, refs: Refs, es: seq<Execution>, h: Hit)
    requires RefsCover(d, refs, es)
  {
    exists i :: 0 <= i < |es| && Effective(d, es, i) && h in HitsOf(rules, d, refs, es[i].function_, es[i].results)
  }

  lemma {:induction false} AllHitsMeaning(rules: Rules, d: Run, refs: Refs, es: seq<Execution>, h: Hit)
    requires RefsCover(d, refs, es)
    ensures h in AllHits(rules, d, refs, es) <==> SomeHit(rules, d, refs, es, h)
    decreases |es|
  {
    if es != [] {
      var n := |es| - 1;
      assert RefsCover(d, refs, es[..n]);
      AllHitsMeaning(rules, d, refs, es[..n], h);
      assert forall i :: 0 <= i < n ==> es[..n][i] == es[i] && Effective(d, es[..n], i) == Effective(d, es, i);
      hide Effective, HitsOf;
      assert SomeHit(rules, d, refs, es, h) <==>
          SomeHit(rules, d, refs, es[..n], h)
          || (Effective(d, es, n) && h in HitsOf(rules, d, refs, es[n].function_, es[n].results));
    }
  }

  lemma HitMeaning(rules: Rules, d: Run, h: Hit)
    ensures RefsCover(d, RefsOf(rules, d), d.executions)
    ensures h in AllHits(rules, d, RefsOf(rules, d), d.executions) <==>
              exists i: nat, j: nat :: HitAt(rules, d, i, j, h)
  {
    RefsExist(rules, d);
    var refs, es := RefsOf(rules, d), d.executions;
    AllHitsMeaning(rules, d, refs, es, h);
    hide RefsOf, FateOf, HitOf, AllHits;
    if SomeHit(rules, d, refs, es, h) {
      var i: nat :| i < |es| && Effective(d, es, i) && h in HitsOf(rules, d, refs, es[i].function_, es[i].results);
      HitsOfMeaning(rules, d, refs, es[i].function_, es[i].results, h);
      var j: nat :| j < |es[i].results| && FateOf(d, refs, es[i].results[j]).Usable?
          && h == HitOf(rules, d, refs, es[i].function_, es[i].results[j]);
      assert HitAt(rules, d, i, j, h);
    }
    if exists i: nat, j: nat :: HitAt(rules, d, i, j, h) {
      var i: nat, j: nat :| HitAt(rules, d, i, j, h);
      HitsOfMeaning(rules, d, refs, es[i].function_, es[i].results, h);
    }
  }

  /** The hit of a result lands where the result does, and says what the result says. */
  lemma LandingMeaning(rules: Rules, d: Run, i: nat, j: nat, src: EntityRef, key: ResultKey)
    requires i < |d.executions| && j < |d.executions[i].results|
             && HasRefs(d, RefsOf(rules, d), d.executions[i].results[j])
    ensures var f, refs := d.executions[i].results[j], RefsOf(rules, d);
            var fn := d.executions[i].function_;
            var h := HitOf(rules, d, refs, fn, f);
            && (Lands(rules, d, i, j, src, key) <==> HitAt(rules, d, i, j, h) && Aggregation.Lands(h, src, key))
            && (Lands(rules, d, i, j, src, key) ==>
                 && h.result.tags == f.tags && h.result.function_ == fn
                 && h.result.anchor == TargetName(rules, d, f).anchor
                 && h.result.category == (if f.category == "" then "node" else f.category)
                 && (h.result.applied <==> f.applied && fn in d.inputTypes && key.etype in d.inputTypes[fn])
                 && (h.result.outOfScope <==> f.outOfScope && !rules.allowed(key.etype, key.value)))
  {
    CountsMeaning(d, i);
    FateMeaning(rules, d, d.executions[i].results[j]);
    hide RefsOf, Counts, Effective, FateOf, SourceName, TargetName, Repeats, WellTagged, HalfNamed, SourceOf;
  }

  // ------------------------------------------------------------ the entries of a packet

  ghost predicate HitsLanding(rules: Rules, d: Run, h: Hit, src: EntityRef, key: ResultKey)
    requires RefsCover(d, RefsOf(rules, d), d.executions)
  {
    h in AllHits(rules, d, RefsOf(rules, d), d.executions) && Aggregation.Lands(h, src, key)
  }

  lemma HitOfLanding(rules: Rules, d: Run, i: nat, j: nat, src: EntityRef, key: ResultKey) returns (h: Hit)
    requires Lands(rules, d, i, j, src, key)
    ensures RefsCover(d, RefsOf(rules, d), d.executions) && HitsLanding(rules, d, h, src, key)
    ensures var f, fn := d.executions[i].results[j], d.executions[i].function_;
            && h.result.tags == f.tags
            && (h.result.applied <==> f.applied && fn in d.inputTypes && key.etype in d.inputTypes[fn])
            && (h.result.outOfScope <==> f.outOfScope && !rules.allowed(key.etype, key.value))
  {
    RefsExist(rules, d);
    CountsMeaning(d, i);
    assert Linked(d, d.executions[i]) && HasRefs(d, RefsOf(rules, d), d.executions[i].results[j]);
    h := HitOf(rules, d, RefsOf(rules, d), d.executions[i].function_, d.executions[i].results[j]);
    LandingMeaning(rules, d, i, j, src, key);
    HitMeaning(rules, d, h);
    hide RefsOf, Lands, HitOf, AllHits, Linked;
  }

  lemma LandingOfHit(rules: Rules, d: Run, h: Hit, src: EntityRef, key: ResultKey) returns (i: nat, j: nat)
    requires RefsCover(d, RefsOf(rules, d), d.executions) && HitsLanding(rules, d, h, src, key)
    ensures Lands(rules, d, i, j, src, key)
    ensures var f, fn := d.executions[i].results[j], d.executions[i].function_;
            && h.result.tags == f.tags
            && (h.result.applied <==> f.applied && fn in d.inputTypes && key.etype in d.inputTypes[fn])
            && (h.result.outOfScope <==> f.outOfScope && !rules.allowed(key.etype, key.value))
  {
    HitMeaning(rules, d, h);
    i, j :| HitAt(rules, d, i, j, h);
    LandingMeaning(rules, d, i, j, src, key);
    hide RefsOf, Lands, HitOf, AllHits;
  }

  /** The aggregate has an entry exactly where some result lands, and it is the entry that those
      results make. */
  lemma AggregateEntries(rules: Rules, d: Run, src: EntityRef, key: ResultKey)
    ensures var group := Grouped(Tallied(rules, d).groups, src);
            && (key in group <==> AnyLands(rules, d, src, key))
            && (key in group ==> IsEntry(rules, d, src, key, group[key]))
  {
    PacketIsUnion(rules, d, src, key);
    var hits := AllHits(rules, d, RefsOf(rules, d), d.executions);
    var group := Grouped(Tallied(rules, d).groups, src);
    hide RefsOf, Lands, HitOf, AllHits, Tallied, RefsCover;
    HitsAndLandings(rules, d, hits, src, key);
    if key in group {
      EntryMeaning(rules, d, hits, src, key, group[key]);
    }
  }

  lemma HitsAndLandings(rules: Rules, d: Run, hits: seq<Hit>, src: EntityRef, key: ResultKey)
    requires RefsCover(d, RefsOf(rules, d), d.executions) && hits == AllHits(rules, d, RefsOf(rules, d), d.executions)
    ensures (exists i :: 0 <= i < |hits| && Aggregation.Lands(hits[i], src, key)) <==> AnyLands(rules, d, src, key)
  {
    hide RefsOf, WellTagged, Repeats, HalfNamed, SourceName, TargetName, AllHits, RefsCover;
    if k :| 0 <= k < |hits| && Aggregation.Lands(hits[k], src, key) {
      assert HitsLanding(rules, d, hits[k], src, key);
      var i, j := LandingOfHit(rules, d, hits[k], src, key);
    }
    if AnyLands(rules, d, src, key) {
      var i: nat, j: nat :| Lands(rules, d, i, j, src, key);
      var h := HitOfLanding(rules, d, i, j, src, key);
      var k :| 0 <= k < |hits| && hits[k] == h;
    }
  }

  lemma EntryMeaning(rules: Rules, d: Run, hits: seq<Hit>, src: EntityRef, key: ResultKey, r: Result)
    requires RefsCover(d, RefsOf(rules, d), d.executions) && hits == AllHits(rules, d, RefsOf(rules, d), d.executions)
    requires IsUnion(rules, hits, src, key, r)
    ensures IsEntry(rules, d, src, key, r)
  {
    forall tag ensures tag in r.tags <==> TagLands(rules, d, src, key, tag) {
      TagMeaning(rules, d, hits, src, key, tag);
    }
    AppliedMeaning(rules, d, hits, src, key);
    ScopeMeaning(rules, d, hits, src, key);
    hide AllHits, RefsOf, RefsCover, AppliedLands, OutOfScopeLands, TagLands;
  }

  lemma TagMeaning(rules: Rules, d: Run, hits: seq<Hit>, src: EntityRef, key: ResultKey, tag: string)
    requires RefsCover(d, RefsOf(rules, d), d.executions) && hits == AllHits(rules, d, RefsOf(rules, d), d.executions)
    ensures (exists i :: 0 <= i < |hits| && Aggregation.Lands(hits[i], src, key) && tag in hits[i].result.tags)
            <==> TagLands(rules, d, src, key, tag)
  {
    hide RefsOf, WellTagged, Repeats, HalfNamed, SourceName, TargetName, AllHits, RefsCover;
    if k :| 0 <= k < |hits| && Aggregation.Lands(hits[k], src, key) && tag in hits[k].result.tags {
      assert HitsLanding(rules, d, hits[k], src, key);
      var i, j := LandingOfHit(rules, d, hits[k], src, key);
    }
    if TagLands(rules, d, src, key, tag) {
      var i: nat, j: nat :| Lands(rules, d, i, j, src, key) && tag in d.executions[i].results[j].tags;
      var h := HitOfLanding(rules, d, i, j, src, key);
      var k :| 0 <= k < |hits| && hits[k] == h;
    }
  }

  lemma AppliedMeaning(rules: Rules, d: Run, hits: seq<Hit>, src: EntityRef, key: ResultKey)
    requires RefsCover(d, RefsOf(rules, d), d.executions) && hits == AllHits(rules, d, RefsOf(rules, d), d.executions)
    ensures (exists i :: 0 <= i < |hits| && Aggregation.Lands(hits[i], src, key) && hits[i].result.applied)
            <==> AppliedLands(rules, d, src, key)
  {
    hide RefsOf, WellTagged, Repeats, HalfNamed, SourceName, TargetName, AllHits, RefsCover;
    if k :| 0 <= k < |hits| && Aggregation.Lands(hits[k], src, key) && hits[k].result.applied {
      assert HitsLanding(rules, d, hits[k], src, key);
      var i, j := LandingOfHit(rules, d, hits[k], src, key);
    }
    if AppliedLands(rules, d, src, key) {
      var i: nat, j: nat :| Lands(rules, d, i, j, src, key) && d.executions[i].results[j].applied
          && d.executions[i].function_ in d.inputTypes && key.etype in d.inputTypes[d.executions[i].function_];
      var h := HitOfLanding(rules, d, i, j, src, key);
      var k :| 0 <= k < |hits| && hits[k] == h;
    }
  }

  lemma ScopeMeaning(rules: Rules, d: Run, hits: seq<Hit>, src: EntityRef, key: ResultKey)
    requires RefsCover(d, RefsOf(rules, d), d.executions) && hits == AllHits(rules, d, RefsOf(rules, d), d.executions)
    ensures (exists i :: 0 <= i < |hits| && Aggregation.Lands(hits[i], src, key) && hits[i].result.outOfScope)
            <==> !rules.allowed(key.etype, key.value) && OutOfScopeLands(rules, d, src, key)
  {
    hide RefsOf, WellTagged, Repeats, HalfNamed, SourceName, TargetName, AllHits, RefsCover;
    if k :| 0 <= k < |hits| && Aggregation.Lands(hits[k], src, key) && hits[k].result.outOfScope {
      assert HitsLanding(rules, d, hits[k], src, key);
      var i, j := LandingOfHit(rules, d, hits[k], src, key);
    }
    if !rules.allowed(key.etype, key.value) && OutOfScopeLands(rules, d, src, key) {
      var i: nat, j: nat :| Lands(rules, d, i, j, src, key) && d.executions[i].results[j].outOfScope;
      var h := HitOfLanding(rules, d, i, j, src, key);
      var k :| 0 <= k < |hits| && hits[k] == h;
    }
  }

  /** The packet brings `r` as a result of the group of `src`. */
  predicate Brings(p: Packet, src: EntityRef, r: Result) {
    exists i, j :: 0 <= i < |p.groups| && 0 <= j < |p.groups[i].results| && p.groups[i].source == src
                   && p.groups[i].results[j] == r
  }

  lemma ListedEntries(groups: seq<Group>, agg: Aggregate, src: EntityRef, r: Result)
    requires GroupsOf(groups, agg)
    ensures (exists i, j :: 0 <= i < |groups| && 0 <= j < |groups[i].results| && groups[i].source == src
                            && groups[i].results[j] == r)
            <==> r in Grouped(agg, src).Values
  {
    if r in Grouped(agg, src).Values {
      var key :| key in Grouped(agg, src) && Grouped(agg, src)[key] == r;
      assert src in Sources(groups);
      var i :| 0 <= i < |groups| && groups[i].source == src;
      assert ResultsOf(groups[i].results, agg[src]) && agg[src][key] in groups[i].results;
      var j :| 0 <= j < |groups[i].results| && groups[i].results[j] == r;
    }
  }

  /** Every entry of the aggregate is filed under its own type, value and local id. */
  lemma EntryKeys(rules: Rules, d: Run, src: EntityRef, key: ResultKey)
    ensures key in Grouped(Tallied(rules, d).groups, src) ==>
              KeyOfResult(Grouped(Tallied(rules, d).groups, src)[key]) == key
  {
    RefsExist(rules, d);
    var hits := AllHits(rules, d, RefsOf(rules, d), d.executions);
    ExecutionsInsert(rules, d, RefsOf(rules, d), d.executions);
    KeysFit(rules, hits, src, key);
  }

  lemma {:induction false} KeysFit(rules: Rules, hits: seq<Hit>, src: EntityRef, key: ResultKey)
    ensures key in Grouped(InsertAll(rules, map[], hits), src) ==>
              KeyOfResult(Grouped(InsertAll(rules, map[], hits), src)[key]) == key
    decreases |hits|
  {
    if hits != [] {
      KeysFit(rules, hits[..|hits| - 1], src, key);
    }
  }

  /** For every run and its packet: a result with this name under this source is brought exactly when
      some result of the run lands there, and what it says is what those results make. */
  lemma PacketMeaning(rules: Rules, d: Run, p: Packet, src: EntityRef, key: ResultKey)
    requires IsPacket(rules, d, p)
    ensures (exists r :: Brings(p, src, r) && KeyOfResult(r) == key) <==> AnyLands(rules, d, src, key)
    ensures forall r :: Brings(p, src, r) && KeyOfResult(r) == key ==> IsEntry(rules, d, src, key, r)
  {
    AggregateEntries(rules, d, src, key);
    var agg := Tallied(rules, d).groups;
    hide Tallied, JudgeFunctions, AnyLands, IsEntry, GroupsOf, Brings;
    forall r | Brings(p, src, r) && KeyOfResult(r) == key
      ensures key in Grouped(agg, src) && Grouped(agg, src)[key] == r {
      BroughtIsEntry(rules, d, p, src, r);
    }
    if key in Grouped(agg, src) {
      EntryKeys(rules, d, src, key);
      EntryIsBrought(rules, d, p, src, key);
    }
  }

  lemma BroughtIsEntry(rules: Rules, d: Run, p: Packet, src: EntityRef, r: Result)
    requires IsPacket(rules, d, p) && Brings(p, src, r)
    ensures var group := Grouped(Tallied(rules, d).groups, src);
            KeyOfResult(r) in group && group[KeyOfResult(r)] == r
  {
    var agg := Tallied(rules, d).groups;
    ListedEntries(p.groups, agg, src, r);
    hide Tallied, JudgeFunctions, GroupsOf;
    var key :| key in Grouped(agg, src) && Grouped(agg, src)[key] == r;
    EntryKeys(rules, d, src, key);
  }

  lemma EntryIsBrought(rules: Rules, d: Run, p: Packet, src: EntityRef, key: ResultKey)
    requires IsPacket(rules, d, p) && key in Grouped(Tallied(rules, d).groups, src)
    ensures Brings(p, src, Grouped(Tallied(rules, d).groups, src)[key])
  {
    var agg := Tallied(rules, d).groups;
    var r := Grouped(agg, src)[key];
    ListedEntries(p.groups, agg, src, r);
    hide Tallied, JudgeFunctions, GroupsOf;
    assert r in Grouped(agg, src).Values;
  }
}
