/**
 `Process` as a whole: its loops compute the packet that the step functions describe, and
 what that packet guarantees to the rest of the engine.
 */
module Processing {
  import opened Collections
  import opened Schema
  import opened Reachability
  import opened Processor
  import opened Tags

  // ------------------------------------------------------------ what the packet is

  /** Every key that a result mentions, with its reference. */
  ghost function RefsOf(rules: Rules, d: Run): Refs {
    var g := GraphOf(d, d.executions);
    map k | k in g.keys :: NormalizedRef(rules, Joined(g.adj, Key(d.etype, d.value), k), k)
  }

  lemma {:induction false} LinksHaveKeys(d: Run, g: Graph, rs: seq<Finding>)
    ensures var g' := AddLinks(d, g, rs);
            g.keys <= g'.keys && forall i :: 0 <= i < |rs| ==>
                  SourceKey(d, rs[i]) in g'.keys && TargetKey(rs[i]) in g'.keys
    decreases |rs|
  {
    if rs != [] {
      LinksHaveKeys(d, g, rs[..|rs| - 1]);
    }
  }

  lemma {:induction false} GraphHasKeys(d: Run, es: seq<Execution>)
    ensures Key(d.etype, d.value) in GraphOf(d, es).keys
    ensures forall i, j :: 0 <= i < |es| && Linked(d, es[i]) && 0 <= j < |es[i].results| ==>
              SourceKey(d, es[i].results[j]) in GraphOf(d, es).keys
                  && TargetKey(es[i].results[j]) in GraphOf(d, es).keys
    decreases |es|
  {
    if es != [] {
      var n := |es| - 1;
      GraphHasKeys(d, es[..n]);
      LinksHaveKeys(d, GraphOf(d, es[..n]), es[n].results);
    }
  }

  /** Every reference that the main loop reads is there. */
  lemma RefsExist(rules: Rules, d: Run)
    ensures RefsCover(d, RefsOf(rules, d), d.executions)
  {
    GraphHasKeys(d, d.executions);
  }

  ghost function Tallied(rules: Rules, d: Run): Tally {
    RefsExist(rules, d);
    AddExecutions(rules, d, RefsOf(rules, d), d.executions)
  }

  ghost predicate ResultsOf(rs: seq<Result>, m: map<ResultKey, Result>) {
    |rs| == |m| && (forall i :: 0 <= i < |rs| ==> rs[i] in m.Values) && forall k :: k in m ==> m[k] in rs
  }

  function Sources(groups: seq<Group>): (s: set<EntityRef>)
    ensures forall src :: src in s <==> exists i :: 0 <= i < |groups| && groups[i].source == src
  {
    set i | 0 <= i < |groups| :: groups[i].source
  }

  /** The groups list the aggregate, in some order, each source once. */
  ghost predicate GroupsOf(groups: seq<Group>, agg: Aggregate) {
    |groups| == |agg| && Sources(groups) == agg.Keys && Listed(groups, agg)
  }

  ghost predicate Listed(groups: seq<Group>, agg: Aggregate) {
    forall i :: 0 <= i < |groups| ==> groups[i].source in agg && ResultsOf(groups[i].results, agg[groups[i].source])
  }

  ghost predicate IsPacket(rules: Rules, d: Run, p: Packet) {
    var t := Tallied(rules, d);
    var v := JudgeFunctions(t, d.requested);
    && p.moduleName == d.moduleName && p.sourceID == d.sourceID
    && p.errors == v.errors && p.functionsWithoutResults == v.silent && p.functionRawData == t.rawData
    && GroupsOf(p.groups, t.groups)
  }

  // ------------------------------------------------------------ the loops

  method BuildGraph(d: Run) returns (g: Graph)
    ensures g == GraphOf(d, d.executions)
  {
    g := Graph({Key(d.etype, d.value)}, map[]);
    for i := 0 to |d.executions|
      invariant g == GraphOf(d, d.executions[..i])
    {
      var e := d.executions[i];
      assert d.executions[..i + 1][..i] == d.executions[..i];
      if Linked(d, e) {
        ghost var g0 := g;
        for j := 0 to |e.results|
          invariant g == AddLinks(d, g0, e.results[..j])
        {
          assert e.results[..j + 1][..j] == e.results[..j];
          g := AddLink(d, g, e.results[j]);
        }
        assert e.results[..|e.results|] == e.results;
      }
    }
    assert d.executions[..|d.executions|] == d.executions;
  }

  method NormalizeRefs(rules: Rules, d: Run, g: Graph, reachable: set<Key>) returns (refs: Refs)
    requires g == GraphOf(d, d.executions)
    requires forall k :: k in reachable <==> Joined(g.adj, Key(d.etype, d.value), k)
    ensures refs == RefsOf(rules, d)
  {
    refs := map[];
    var todo := g.keys;
    while todo != {}
      invariant todo <= g.keys && refs.Keys == g.keys - todo
      invariant forall k :: k in refs ==> refs[k] == NormalizedRef(rules, k in reachable, k)
      decreases |todo|
    {
      var k :| k in todo;
      todo := todo - {k};
      refs := refs[k := NormalizedRef(rules, k in reachable, k)];
    }
  }

  method TallyExecutions(rules: Rules, d: Run, refs: Refs) returns (t: Tally)
    requires RefsCover(d, refs, d.executions)
    ensures t == AddExecutions(rules, d, refs, d.executions)
  {
    t := Started(d);
    for i := 0 to |d.executions|
      invariant t == AddExecutions(rules, d, refs, d.executions[..i])
    {
      var e := d.executions[i];
      assert d.executions[..i + 1][..i] == d.executions[..i];
      assert RefsCover(d, refs, d.executions[..i + 1]);
      ghost var t0 := t;
      t := t.(rawData := t.rawData[e.function_ := e.rawData]);
      if !Skipped(d, t.returned, e) {
        assert !Skipped(d, Started(d).returned, e);
        t := t.(returned := t.returned + {e.function_});
        if e.error != "" {
          t := Fail(t, e.function_, "function_error");
        } else {
          assert Linked(d, e);
          t := TallyFindings(rules, d, refs, t, e.function_, e.results);
        }
      }
      assert t == AddExecution(rules, d, refs, t0, e);
    }
    assert d.executions[..|d.executions|] == d.executions;
  }

  method TallyFindings(rules: Rules, d: Run, refs: Refs, t0: Tally, fn: string, rs: seq<Finding>) returns (t: Tally)
    requires AllHaveRefs(d, refs, rs)
    ensures t == AddFindings(rules, d, refs, t0, fn, rs)
  {
    t := t0;
    for i := 0 to |rs|
      invariant t == AddFindings(rules, d, refs, t0, fn, rs[..i])
    {
      assert rs[..i + 1][..i] == rs[..i];
      t := AddFinding(rules, d, refs, t, fn, rs[i]);
    }
    assert rs[..|rs|] == rs;
  }

  method Judge(t: Tally, fns: seq<string>) returns (v: Verdict)
    ensures v == JudgeFunctions(t, fns)
  {
    v := Verdict(t.errors, t.failed, []);
    for i := 0 to |fns|
      invariant v == JudgeFunctions(t, fns[..i])
    {
      assert fns[..i + 1][..i] == fns[..i];
      v := JudgeFunction(t, v, fns[i]);
    }
    assert fns[..|fns|] == fns;
  }

  method ListResults(m: map<ResultKey, Result>) returns (rs: seq<Result>)
    ensures ResultsOf(rs, m)
  {
    rs := [];
    var todo := m.Keys;
    while todo != {}
      invariant todo <= m.Keys && |rs| + |todo| == |m|
      invariant forall i :: 0 <= i < |rs| ==> rs[i] in m.Values
      invariant forall k :: k in m.Keys - todo ==> m[k] in rs
      decreases |todo|
    {
      var k :| k in todo;
      todo := todo - {k};
      rs := rs + [m[k]];
    }
  }

  lemma SourcesAppend(groups: seq<Group>, g: Group)
    ensures Sources(groups + [g]) == Sources(groups) + {g.source}
  {
    assert (groups + [g])[|groups|] == g;
    forall src | src in Sources(groups) ensures src in Sources(groups + [g]) {
      var i :| 0 <= i < |groups| && groups[i].source == src;
      assert (groups + [g])[i].source == src;
    }
  }

  lemma ListedAppend(groups: seq<Group>, g: Group, agg: Aggregate)
    requires Listed(groups, agg) && g.source in agg && ResultsOf(g.results, agg[g.source])
    ensures Listed(groups + [g], agg)
  {
    hide ResultsOf;
  }

  lemma ListedNone(agg: Aggregate)
    ensures Listed([], agg) && Sources([]) == {}
  {
  }

  /** `total` is what the packet adds to the pipeline's counter. */
  method ListGroups(agg: Aggregate) returns (groups: seq<Group>, total: nat)
    ensures GroupsOf(groups, agg) && total == TotalResults(groups)
  {
    hide ResultsOf, Listed, Sources;
    ListedNone(agg);
    groups, total := [], 0;
    var todo := agg.Keys;
    while todo != {}
      invariant todo <= agg.Keys && |groups| + |todo| == |agg| && Sources(groups) == agg.Keys - todo
      invariant Listed(groups, agg)
      invariant total == TotalResults(groups)
      decreases |todo|
    {
      var src :| src in todo;
      todo := todo - {src};
      var rs := ListResults(agg[src]);
      TotalAppend(groups, Group(src, rs));
      SourcesAppend(groups, Group(src, rs));
      ListedAppend(groups, Group(src, rs), agg);
      groups, total := groups + [Group(src, rs)], total + |rs|;
    }
  }

  lemma {:induction false} TotalAppend(groups: seq<Group>, g: Group)
    ensures TotalResults(groups + [g]) == TotalResults(groups) + |g.results|
    decreases |groups|
  {
    if groups != [] {
      assert (groups + [g])[1..] == groups[1..] + [g];
      TotalAppend(groups[1..], g);
    }
  }

  /** No packet is sent only when there is nothing at all to report. */
  method Process(rules: Rules, d: Run) returns (packet: Option<Packet>, total: nat)
    ensures packet.None? <==>
              Tallied(rules, d).returned == {} && JudgeFunctions(Tallied(rules, d), d.requested).errors == []
    ensures packet.Some? ==> IsPacket(rules, d, packet.value) && total == TotalResults(packet.value.groups)
  {
    var g := BuildGraph(d);
    var reachable := Search(g.adj, Key(d.etype, d.value));
    var refs := NormalizeRefs(rules, d, g, reachable);
    RefsExist(rules, d);
    var t := TallyExecutions(rules, d, refs);
    var v := Judge(t, d.requested);
    total := 0;
    if t.returned == {} && v.errors == [] {
      return None, 0;
    }
    var groups;
    groups, total := ListGroups(t.groups);
    packet := Some(Packet(d.moduleName, d.sourceID, groups, v.silent, t.rawData, v.errors));
  }

  // ------------------------------------------------------------ links and references

  /** An execution's results are accepted when no contract was broken, it was asked for, and it did not fail. */
  lemma LinkedMeaning(d: Run, e: Execution)
    ensures Linked(d, e) <==> e.error == "" && !IsRogue(d, e) && !Violated(d)
  {
    if Violated(d) {
      var i :| 0 <= i < |d.executions| && IsRogue(d, d.executions[i]);
      assert d.requested != [];
    }
  }

  predicate Leads(d: Run, r: Finding, s: Key, t: Key) {
    SourceKey(d, r) == s && TargetKey(r) == t
  }

  /** Some accepted result leads from `s` to `t`. */
  predicate Links(d: Run, es: seq<Execution>, s: Key, t: Key) {
    exists i :: 0 <= i < |es| && Linked(d, es[i]) && AnyLeads(d, es[i].results, s, t)
  }

  predicate AnyLeads(d: Run, rs: seq<Finding>, s: Key, t: Key) {
    exists j :: 0 <= j < |rs| && Leads(d, rs[j], s, t)
  }

  /** `k` is an end of one of the results. */
  predicate AnyEnd(d: Run, rs: seq<Finding>, k: Key) {
    exists j :: 0 <= j < |rs| && (SourceKey(d, rs[j]) == k || TargetKey(rs[j]) == k)
  }

  predicate Mentions(d: Run, es: seq<Execution>, k: Key) {
    exists i :: 0 <= i < |es| && Linked(d, es[i]) && AnyEnd(d, es[i].results, k)
  }

  lemma {:induction false} AddLinksMeaning(d: Run, g: Graph, rs: seq<Finding>, s: Key, t: Key)
    ensures t in Next(AddLinks(d, g, rs).adj, s) <==> t in Next(g.adj, s) || AnyLeads(d, rs, s, t)
    ensures t in AddLinks(d, g, rs).keys <==> t in g.keys || AnyEnd(d, rs, t)
    decreases |rs|
  {
    if rs != [] {
      var n := |rs| - 1;
      AddLinksMeaning(d, g, rs[..n], s, t);
      assert forall j :: 0 <= j < n ==> rs[..n][j] == rs[j];
      assert AnyLeads(d, rs, s, t) <==> AnyLeads(d, rs[..n], s, t) || Leads(d, rs[n], s, t);
      assert AnyEnd(d, rs, t) <==> AnyEnd(d, rs[..n], t) || SourceKey(d, rs[n]) == t || TargetKey(rs[n]) == t;
    }
  }

  /** The links are exactly the accepted results, the keys exactly their ends and the source entity. */
  lemma {:induction false} GraphMeaning(d: Run, es: seq<Execution>, s: Key, t: Key)
    ensures t in Next(GraphOf(d, es).adj, s) <==> Links(d, es, s, t)
    ensures t in GraphOf(d, es).keys <==> t == Key(d.etype, d.value) || Mentions(d, es, t)
    decreases |es|
  {
    if es != [] {
      var n := |es| - 1;
      GraphMeaning(d, es[..n], s, t);
      AddLinksMeaning(d, GraphOf(d, es[..n]), es[n].results, s, t);
      hide Linked, AnyLeads, AnyEnd, AddLinks;
      assert forall i :: 0 <= i < n ==> es[..n][i] == es[i];
      assert Links(d, es, s, t) <==> Links(d, es[..n], s, t) || (Linked(d, es[n]) && AnyLeads(d, es[n].results, s, t));
      assert Mentions(d, es, t) <==> Mentions(d, es[..n], t) || (Linked(d, es[n]) && AnyEnd(d, es[n].results, t));
    }
  }

  /** A chain of accepted results leads from the source entity to `k`. */
  ghost predicate Found(d: Run, k: Key) {
    exists p: seq<Key> :: ResultChain(d, p, k)
  }

  ghost predicate ResultChain(d: Run, p: seq<Key>, k: Key) {
    && p != [] && p[0] == Key(d.etype, d.value) && p[|p| - 1] == k
    && forall i :: 0 <= i < |p| - 1 ==> Links(d, d.executions, p[i], p[i + 1])
  }

  lemma ChainMeaning(d: Run, p: seq<Key>, k: Key)
    ensures IsChain(GraphOf(d, d.executions).adj, Key(d.etype, d.value), p, k) <==> ResultChain(d, p, k)
  {
    forall i | 0 <= i < |p| - 1
      ensures p[i + 1] in Next(GraphOf(d, d.executions).adj, p[i]) <==> Links(d, d.executions, p[i], p[i + 1])
    {
      GraphMeaning(d, d.executions, p[i], p[i + 1]);
    }
  }

  lemma FoundMeaning(d: Run, k: Key)
    ensures Joined(GraphOf(d, d.executions).adj, Key(d.etype, d.value), k) <==> Found(d, k)
  {
    hide IsChain, ResultChain;
    var adj, src := GraphOf(d, d.executions).adj, Key(d.etype, d.value);
    if Joined(adj, src, k) {
      var p :| IsChain(adj, src, p, k);
      ChainMeaning(d, p, k);
    }
    if Found(d, k) {
      var p :| ResultChain(d, p, k);
      ChainMeaning(d, p, k);
    }
  }

  /** The references are those of the source entity and of the ends of accepted results.  One
      ends as "invalid" exactly when no chain of accepted results leads to it, or the syntax check
      rejects it, or accepts it under that very type. */
  lemma ReferenceMeaning(rules: Rules, d: Run, k: Key)
    ensures k in RefsOf(rules, d) <==> k == Key(d.etype, d.value) || Mentions(d, d.executions, k)
    ensures k in RefsOf(rules, d) ==>
              (RefsOf(rules, d)[k].etype == INVALID <==>
                 || !Found(d, k) || rules.validate(k.etype, k.value).Rejected?
                 || rules.validate(k.etype, k.value).etype == INVALID)
  {
    GraphMeaning(d, d.executions, k, k);
    FoundMeaning(d, k);
    hide GraphOf, Joined, Found, Mentions;
  }

  /** The syntax check takes unknown types as they are, "invalid" among them, and gives that type to no other. */
  ghost predicate InvalidPassesThrough(rules: Rules) {
    forall t, v :: (rules.validate(t, v).Accepted? && rules.validate(t, v).etype == INVALID) <==> t == INVALID
  }

  /** Hence "invalid" means unreachable or rejected exactly when the key is not a reachable one of that raw type. */
  lemma InvalidMeansRejectedIff(rules: Rules, d: Run, k: Key)
    requires k in RefsOf(rules, d) && InvalidPassesThrough(rules)
    ensures (RefsOf(rules, d)[k].etype == INVALID <==> !Found(d, k) || rules.validate(k.etype, k.value).Rejected?)
            <==> !(Found(d, k) && k.etype == INVALID)
  {
    ReferenceMeaning(rules, d, k);
    hide RefsOf, Found;
  }

  /** A module that reports a result of raw type "invalid" on the entity it ran on. */
  function RawInvalidRun(): Run {
    Run("m", 1, "domain", "example.org", ["f"], map[],
        [Execution("f", [Finding(NoSource, INVALID, "x", "node", false, false, [], 0)], "", "")], [])
  }

  /** The result is reached and accepted, and its reference is nevertheless "invalid". */
  lemma RawInvalidIsAccepted(rules: Rules)
    requires InvalidPassesThrough(rules)
    ensures var d, k := RawInvalidRun(), Key(INVALID, "x");
            && Found(d, k) && rules.validate(k.etype, k.value).Accepted?
            && k in RefsOf(rules, d) && RefsOf(rules, d)[k].etype == INVALID
  {
    var d, s, k := RawInvalidRun(), Key("domain", "example.org"), Key(INVALID, "x");
    assert "f" in d.requested && !Violated(d);
    LinkedMeaning(d, d.executions[0]);
    assert Leads(d, d.executions[0].results[0], s, k);
    assert AnyLeads(d, d.executions[0].results, s, k) && AnyEnd(d, d.executions[0].results, k);
    assert Links(d, d.executions, s, k) && Mentions(d, d.executions, k);
    assert ResultChain(d, [s, k], k);
    ReferenceMeaning(rules, d, k);
  }

  // ------------------------------------------------------------ what the aggregate holds

  /** The syntax check's anchor depends on the normalised type and value alone. */
  ghost predicate AnchorsAgree(rules: Rules, anchorOf: (string, string) -> string) {
    && (forall v :: anchorOf(ANCHOR_TYPE, v) == "" && anchorOf(INVALID, v) == "")
    && forall t, v :: rules.validate(t, v).Accepted? ==>
         var x := rules.validate(t, v);
         x.etype == ANCHOR_TYPE || x.anchor == anchorOf(x.etype, x.value)
  }

  /** A result as the repository relies on it. */
  predicate EntryOK(d: Run, anchorOf: (string, string) -> string, key: ResultKey, r: Result) {
    && key == ResultKey(r.etype, r.value, r.localID)
    && r.anchor == anchorOf(r.etype, r.value)
    && (r.category == "node" || r.category == "property")
    && ValidTags(r.tags)
    && (r.applied ==> exists fn :: fn in d.inputTypes && r.etype in d.inputTypes[fn])
    && r.function_ in RunFunctions(d)
  }

  function RunFunctions(d: Run): set<string> {
    set i | 0 <= i < |d.executions| && Linked(d, d.executions[i]) :: d.executions[i].function_
  }

  ghost predicate AggregateOK(d: Run, anchorOf: (string, string) -> string, agg: Aggregate) {
    && (forall src :: src in agg ==> agg[src] != map[])
    && forall src, key :: src in agg && key in agg[src] ==> EntryOK(d, anchorOf, key, agg[src][key])
  }

  predicate PlainFindings(rs: seq<Finding>) {
    forall i :: 0 <= i < |rs| ==> rs[i].category == "" || rs[i].category == "node" || rs[i].category == "property"
  }

  predicate RefsAnchored(anchorOf: (string, string) -> string, refs: Refs) {
    forall k :: k in refs ==> refs[k].anchor == anchorOf(refs[k].etype, refs[k].value)
  }

  lemma MergedTagsValid(dst: seq<string>, src: seq<string>)
    requires ValidTags(dst) && ValidTags(src)
    ensures ValidTags(MergeTags(dst, src))
  {
    forall i | 0 <= i < |MergeTags(dst, src)| ensures ValidTag(MergeTags(dst, src)[i]) {
      assert MergeTags(dst, src)[i] in MergeTags(dst, src);
    }
  }

  lemma JointOK(d: Run, anchorOf: (string, string) -> string, key: ResultKey, old_: Result, new_: Result)
    requires EntryOK(d, anchorOf, key, old_) && EntryOK(d, anchorOf, key, new_)
    ensures EntryOK(d, anchorOf, key, Joint(old_, new_))
  {
    MergedTagsValid(old_.tags, new_.tags);
  }

  lemma ScopedOK(d: Run, anchorOf: (string, string) -> string, key: ResultKey, r: Result, outOfScope: bool)
    requires EntryOK(d, anchorOf, key, r)
    ensures EntryOK(d, anchorOf, key, r.(outOfScope := outOfScope))
  {
  }

  lemma InsertKeeps(rules: Rules, d: Run, anchorOf: (string, string) -> string, agg: Aggregate, src: EntityRef,
      r: Result)
    requires AggregateOK(d, anchorOf, agg) && EntryOK(d, anchorOf, ResultKey(r.etype, r.value, r.localID), r)
    ensures AggregateOK(d, anchorOf, Insert(rules, agg, src, r)) && Insert(rules, agg, src, r) != map[]
  {
    hide EntryOK, Joint;
    var key := ResultKey(r.etype, r.value, r.localID);
    if key in Grouped(agg, src) {
      JointOK(d, anchorOf, key, agg[src][key], r);
    } else {
      ScopedOK(d, anchorOf, key, r, r.outOfScope || rules.blocked(r.etype, r.value));
    }
    assert src in Insert(rules, agg, src, r);
  }

  /** Findings of a function appear in the aggregate; an aggregate holds findings of some function. */
  ghost predicate TallyOK(d: Run, anchorOf: (string, string) -> string, t: Tally) {
    && AggregateOK(d, anchorOf, t.groups)
    && (t.findings != {} ==> t.groups != map[])
    && t.findings <= RunFunctions(d)
    && FunctionsOf(t.errors) == t.failed
    && t.rawData.Keys <= ExecutedFunctions(d)
  }

  function ExecutedFunctions(d: Run): set<string> {
    set i | 0 <= i < |d.executions| :: d.executions[i].function_
  }

  lemma JudgedOK(rules: Rules, d: Run, anchorOf: (string, string) -> string, fn: string, r: Finding, target: EntityRef)
    requires target.anchor == anchorOf(target.etype, target.value) && PlainFindings([r]) && fn in RunFunctions(d)
             && ValidTags(r.tags)
    ensures EntryOK(d, anchorOf, ResultKey(target.etype, target.value, r.localID), Judged(rules, d, fn, r, target))
  {
    assert [r][0] == r;
  }

  lemma FindingKeeps(rules: Rules, d: Run, anchorOf: (string, string) -> string, refs: Refs, t: Tally, fn: string,
      r: Finding)
    requires RefsAnchored(anchorOf, refs) && HasRefs(d, refs, r) && PlainFindings([r]) && fn in RunFunctions(d)
    requires TallyOK(d, anchorOf, t)
    ensures TallyOK(d, anchorOf, AddFinding(rules, d, refs, t, fn, r))
  {
    hide RunFunctions, ExecutedFunctions, PlainFindings, EntryOK, AggregateOK, Insert, ValidTags;
    var target := refs[TargetKey(r)];
    var source := SourceOf(d, refs, r);
    if ValidTags(r.tags) {
      JudgedOK(rules, d, anchorOf, fn, r, target);
      InsertKeeps(rules, d, anchorOf, t.groups, source, Judged(rules, d, fn, r, target));
    }
    FailedAppend(t.errors, ReportedError(fn, "invalid_tag_format"));
    FailedAppend(t.errors, ReportedError(fn, "incomplete_data"));
  }

  lemma FailedAppend(errors: seq<ReportedError>, e: ReportedError)
    ensures FunctionsOf(errors + [e]) == FunctionsOf(errors) + {e.function_}
  {
    forall fn ensures fn in FunctionsOf(errors + [e]) <==> fn in FunctionsOf(errors) || fn == e.function_ {
      if fn in FunctionsOf(errors) {
        var i :| 0 <= i < |errors| && errors[i].function_ == fn;
        assert (errors + [e])[i].function_ == fn;
      }
      assert (errors + [e])[|errors|].function_ == e.function_;
    }
  }

  lemma {:induction false} FindingsKeep(
    rules: Rules, d: Run, anchorOf: (string, string) -> string, refs: Refs, t: Tally, fn: string, rs: seq<Finding>)
    requires RefsAnchored(anchorOf, refs) && AllHaveRefs(d, refs, rs) && PlainFindings(rs) && fn in RunFunctions(d)
    requires TallyOK(d, anchorOf, t)
    ensures TallyOK(d, anchorOf, AddFindings(rules, d, refs, t, fn, rs))
    decreases |rs|
  {
    if rs != [] {
      var n := |rs| - 1;
      FindingsKeep(rules, d, anchorOf, refs, t, fn, rs[..n]);
      FindingKeeps(rules, d, anchorOf, refs, AddFindings(rules, d, refs, t, fn, rs[..n]), fn, rs[n]);
    }
  }

  predicate PlainRun(d: Run) {
    forall i :: 0 <= i < |d.executions| ==> PlainFindings(d.executions[i].results)
  }

  lemma StartedOK(d: Run, anchorOf: (string, string) -> string)
    ensures TallyOK(d, anchorOf, Started(d))
  {
    if Violated(d) {
      var errors := d.systemErrors + Violations(d.requested);
      forall fn ensures fn in FunctionsOf(errors) <==>
            fn in FunctionsOf(d.systemErrors) || fn in Elements(d.requested) {
        if fn in FunctionsOf(d.systemErrors) {
          var i :| 0 <= i < |d.systemErrors| && d.systemErrors[i].function_ == fn;
          assert errors[i].function_ == fn;
        }
        if fn in Elements(d.requested) {
          var i :| 0 <= i < |d.requested| && d.requested[i] == fn;
          assert errors[|d.systemErrors| + i].function_ == fn;
        }
      }
    }
  }

  lemma ExecutionKeeps(rules: Rules, d: Run, anchorOf: (string, string) -> string, refs: Refs, t: Tally, i: nat)
    requires i < |d.executions| && PlainRun(d) && RefsAnchored(anchorOf, refs) && RefsCover(d, refs, d.executions)
    requires TallyOK(d, anchorOf, t) && Started(d).returned <= t.returned
    ensures TallyOK(d, anchorOf, AddExecution(rules, d, refs, t, d.executions[i]))
    ensures var t' := AddExecution(rules, d, refs, t, d.executions[i]);
            && t'.rawData.Keys == t.rawData.Keys + {d.executions[i].function_}
            && t'.returned
               == t.returned + (if Skipped(d, t.returned, d.executions[i]) then {} else {d.executions[i].function_})
  {
    var e := d.executions[i];
    var t1 := t.(rawData := t.rawData[e.function_ := e.rawData]);
    assert e.function_ in ExecutedFunctions(d);
    assert TallyOK(d, anchorOf, t1);
    if !Skipped(d, t.returned, e) {
      var t2 := t1.(returned := t.returned + {e.function_});
      if e.error != "" {
        FailedAppend(t2.errors, ReportedError(e.function_, "function_error"));
      } else {
        assert Linked(d, e) && e.function_ in RunFunctions(d);
        FindingsKeep(rules, d, anchorOf, refs, t2, e.function_, e.results);
        FindingsKeepReturned(rules, d, refs, t2, e.function_, e.results);
      }
    }
  }

  lemma {:induction false} ExecutionsKeep(rules: Rules, d: Run, anchorOf: (string, string) -> string, refs: Refs,
      n: nat)
    requires n <= |d.executions| && PlainRun(d) && RefsAnchored(anchorOf, refs) && RefsCover(d, refs, d.executions)
    ensures RefsCover(d, refs, d.executions[..n])
            && TallyOK(d, anchorOf, AddExecutions(rules, d, refs, d.executions[..n]))
    ensures Recorded(d, AddExecutions(rules, d, refs, d.executions[..n]), n)
    decreases n
  {
    if n == 0 {
      StartedOK(d, anchorOf);
    } else {
      hide TallyOK, AddExecution, PlainRun, Linked, RefsAnchored, AllHaveRefs, Recorded;
      ExecutionsKeep(rules, d, anchorOf, refs, n - 1);
      assert d.executions[..n][..n - 1] == d.executions[..n - 1];
      var t := AddExecutions(rules, d, refs, d.executions[..n - 1]);
      ExecutionKeeps(rules, d, anchorOf, refs, t, n - 1);
      RecordedNext(d, t, AddExecution(rules, d, refs, t, d.executions[n - 1]), n - 1);
    }
  }

  /** The first `n` executions have left their raw data, and their names unless rogue. */
  ghost predicate Recorded(d: Run, t: Tally, n: nat) {
    forall i :: 0 <= i < n && i < |d.executions| ==>
      && d.executions[i].function_ in t.rawData.Keys
      && (!IsRogue(d, d.executions[i]) ==> d.executions[i].function_ in t.returned)
  }

  lemma RecordedNext(d: Run, t: Tally, t': Tally, n: nat)
    requires n < |d.executions| && Recorded(d, t, n)
    requires t'.rawData.Keys == t.rawData.Keys + {d.executions[n].function_}
    requires t'.returned
             == t.returned + (if Skipped(d, t.returned, d.executions[n]) then {} else {d.executions[n].function_})
    ensures Recorded(d, t', n + 1)
  {
  }

  lemma TalliedOK(rules: Rules, d: Run, anchorOf: (string, string) -> string)
    requires AnchorsAgree(rules, anchorOf) && PlainRun(d)
    ensures TallyOK(d, anchorOf, Tallied(rules, d)) && Recorded(d, Tallied(rules, d), |d.executions|)
  {
    RefsExist(rules, d);
    assert d.executions[..|d.executions|] == d.executions;
    ExecutionsKeep(rules, d, anchorOf, RefsOf(rules, d), |d.executions|);
  }

  // ------------------------------------------------------------ every requested function is accounted for

  /** After judging, each listed function failed, stayed silent, or has findings; never two of these. */
  lemma {:induction false} JudgeMeaning(t: Tally, fns: seq<string>)
    requires FunctionsOf(t.errors) == t.failed
    ensures var v := JudgeFunctions(t, fns);
            && FunctionsOf(v.errors) == v.failed && t.failed <= v.failed
            && (forall fn :: fn in v.failed <==> fn in t.failed || (fn in fns && fn !in t.returned))
            && (forall fn :: fn in v.silent <==> fn in fns && fn !in t.failed && fn in t.returned && fn !in t.findings)
    decreases |fns|
  {
    if fns != [] {
      var n := |fns| - 1;
      JudgeMeaning(t, fns[..n]);
      assert fns == fns[..n] + [fns[n]];
      FailedAppend(JudgeFunctions(t, fns[..n]).errors, ReportedError(fns[n], "missing_function"));
    }
  }

  /** Each result of the packet, as the repository relies on it. */
  lemma PacketEntries(rules: Rules, d: Run, anchorOf: (string, string) -> string, p: Packet, i: nat, j: nat)
    requires AnchorsAgree(rules, anchorOf) && PlainRun(d) && IsPacket(rules, d, p)
    requires i < |p.groups| && j < |p.groups[i].results|
    ensures var r := p.groups[i].results[j];
            EntryOK(d, anchorOf, ResultKey(r.etype, r.value, r.localID), r)
  {
    TalliedOK(rules, d, anchorOf);
    var agg := Tallied(rules, d).groups;
    var m := agg[p.groups[i].source];
    assert p.groups[i].results[j] in m.Values;
  }

  function KeysOf(rs: seq<Result>): (ks: seq<ResultKey>)
    ensures |ks| == |rs| && forall i :: 0 <= i < |rs| ==> ks[i] == ResultKey(rs[i].etype, rs[i].value, rs[i].localID)
  {
    seq(|rs|, i requires 0 <= i < |rs| => ResultKey(rs[i].etype, rs[i].value, rs[i].localID))
  }

  lemma KeysDiffer(d: Run, anchorOf: (string, string) -> string, rs: seq<Result>, m: map<ResultKey, Result>)
    requires ResultsOf(rs, m) && forall key :: key in m ==> EntryOK(d, anchorOf, key, m[key])
    ensures forall j, k :: 0 <= j < k < |rs| ==> KeysOf(rs)[j] != KeysOf(rs)[k]
  {
    var ks := KeysOf(rs);
    forall key | key in m ensures key in ks {
      assert EntryOK(d, anchorOf, key, m[key]);
      var n :| 0 <= n < |rs| && rs[n] == m[key];
      assert ks[n] == key;
    }
    assert m.Keys <= Elements(ks);
    SubsetSize(m.Keys, Elements(ks));
    SizeOfElements(ks);
  }

  /** Within one group no two results share type, value and local id. */
  lemma GroupHasNoRepeats(rules: Rules, d: Run, anchorOf: (string, string) -> string, p: Packet, i: nat)
    requires AnchorsAgree(rules, anchorOf) && PlainRun(d) && IsPacket(rules, d, p) && i < |p.groups|
    ensures forall j, k :: 0 <= j < k < |p.groups[i].results| ==>
              KeysOf(p.groups[i].results)[j] != KeysOf(p.groups[i].results)[k]
  {
    hide AnchorsAgree, PlainRun, Tallied, JudgeFunctions, EntryOK, ResultsOf;
    TalliedOK(rules, d, anchorOf);
    var agg := Tallied(rules, d).groups;
    KeysDiffer(d, anchorOf, p.groups[i].results, agg[p.groups[i].source]);
  }

  // ------------------------------------------------------------ runs of one function

  /** A run whose results are used is a run of the requested function alone. */
  lemma OnlyRequested(d: Run, fn: string)
    requires d.requested == [fn] && RunFunctions(d) != {}
    ensures RunFunctions(d) == {fn} && ExecutedFunctions(d) == {fn} && !Violated(d)
  {
    var i :| 0 <= i < |d.executions| && Linked(d, d.executions[i]);
    assert d.requested[0] == fn && fn in Elements(d.requested);
    assert d.executions[i].function_ == fn;
    assert !Violated(d);
    forall k | 0 <= k < |d.executions| ensures d.executions[k].function_ == fn {
      assert !IsRogue(d, d.executions[k]);
    }
  }

  lemma GroupsComeFromRuns(rules: Rules, d: Run, anchorOf: (string, string) -> string, p: Packet)
    requires AnchorsAgree(rules, anchorOf) && PlainRun(d) && IsPacket(rules, d, p) && p.groups != []
    ensures p.groups[0].results != [] && p.groups[0].results[0].function_ in RunFunctions(d)
  {
    hide AnchorsAgree, PlainRun, Tallied, JudgeFunctions;
    TalliedOK(rules, d, anchorOf);
    var m := Tallied(rules, d).groups[p.groups[0].source];
    assert ResultsOf(p.groups[0].results, m) && m != map[];
    PacketEntries(rules, d, anchorOf, p, 0, 0);
  }

  lemma FindingsMeanGroups(rules: Rules, d: Run, anchorOf: (string, string) -> string, p: Packet)
    requires AnchorsAgree(rules, anchorOf) && PlainRun(d) && IsPacket(rules, d, p) && Tallied(rules, d).findings != {}
    ensures p.groups != [] && RunFunctions(d) != {}
  {
    hide AnchorsAgree, PlainRun, Tallied, JudgeFunctions;
    TalliedOK(rules, d, anchorOf);
  }

  lemma JudgedPacket(rules: Rules, d: Run, anchorOf: (string, string) -> string, fn: string, p: Packet)
    requires AnchorsAgree(rules, anchorOf) && PlainRun(d) && IsPacket(rules, d, p) && fn in d.requested
    ensures fn in FunctionsOf(p.errors) || fn in p.functionsWithoutResults || fn in Tallied(rules, d).findings
  {
    hide AnchorsAgree, PlainRun, Tallied;
    TalliedOK(rules, d, anchorOf);
    JudgeMeaning(Tallied(rules, d), d.requested);
  }

  /** Whatever the module did, the requested function is reported as failed, as silent, or by a result. */
  lemma RequestIsReported(rules: Rules, d: Run, anchorOf: (string, string) -> string, fn: string, p: Packet)
    requires AnchorsAgree(rules, anchorOf) && PlainRun(d) && d.requested == [fn] && IsPacket(rules, d, p)
    ensures fn in FunctionsOf(p.errors) || fn in p.functionsWithoutResults
            || exists i, j :: 0 <= i < |p.groups| && 0 <= j < |p.groups[i].results|
                              && p.groups[i].results[j].function_ == fn
  {
    hide AnchorsAgree, PlainRun, Tallied, IsPacket, FunctionsOf;
    JudgedPacket(rules, d, anchorOf, fn, p);
    if fn !in FunctionsOf(p.errors) && fn !in p.functionsWithoutResults {
      FindingsMeanGroups(rules, d, anchorOf, p);
      OnlyRequested(d, fn);
      GroupsComeFromRuns(rules, d, anchorOf, p);
      assert p.groups[0].results[0].function_ == fn;
    }
  }

  /** If the packet has groups, its raw data names the requested function and no other. */
  lemma RawDataNamesRequest(rules: Rules, d: Run, anchorOf: (string, string) -> string, fn: string, p: Packet)
    requires AnchorsAgree(rules, anchorOf) && PlainRun(d) && d.requested == [fn] && IsPacket(rules, d, p)
    requires p.groups != []
    ensures p.functionRawData.Keys == {fn}
  {
    hide AnchorsAgree, PlainRun, Tallied, JudgeFunctions, AggregateOK, GroupsOf, FunctionsOf;
    TalliedOK(rules, d, anchorOf);
    GroupsComeFromRuns(rules, d, anchorOf, p);
    OnlyRequested(d, fn);
    var i :| 0 <= i < |d.executions| && Linked(d, d.executions[i]);
    hide Linked, RunFunctions, ExecutedFunctions;
    assert d.executions[i].function_ in Tallied(rules, d).rawData.Keys;
  }

  /** A dispatched run always sends a packet. */
  lemma RequestSendsPacket(rules: Rules, d: Run, anchorOf: (string, string) -> string)
    requires AnchorsAgree(rules, anchorOf) && PlainRun(d) && d.requested != []
    ensures Tallied(rules, d).returned != {} || JudgeFunctions(Tallied(rules, d), d.requested).errors != []
  {
    TalliedOK(rules, d, anchorOf);
    var t := Tallied(rules, d);
    JudgeMeaning(t, d.requested);
    assert d.requested[0] in d.requested;
    if t.returned == {} {
      assert d.requested[0] in FunctionsOf(JudgeFunctions(t, d.requested).errors);
    }
  }
}
