/**
 Which packets a run of a module can send: for every packet of one function whose names are
 normalised, whose sources and results are distinct and can be reached, there is a run that
 `Process` turns into it, whatever the order of its groups and results.
 */
module SentPackets {
  import opened Schema
  import opened Reachability
  import opened Processor
  import opened Processing
  import opened Tags

  /** The syntax check leaves the pair alone; domains lose their anchor. */
  predicate Normalised(rules: Rules, etype: string, value: string, anchor: string) {
    && rules.validate(etype, value).Accepted?
    && rules.validate(etype, value).etype == etype && rules.validate(etype, value).value == value
    && anchor == (if etype == ANCHOR_TYPE then "" else rules.validate(etype, value).anchor)
  }

  /** One result as the processor would hand it on. */
  predicate ResultSendable(rules: Rules, fn: string, types: seq<string>, source: EntityRef, r: Result) {
    && r.function_ == fn && (r.category == "node" || r.category == "property")
    && Normalised(rules, r.etype, r.value, r.anchor) && (r.etype == "" <==> r.value == "")
    && ValidTags(r.tags) && (r.applied ==> r.etype in types)
    && (rules.blocked(r.etype, r.value) ==> r.outOfScope)
    && (r.outOfScope ==> rules.blocked(r.etype, r.value) || !rules.allowed(r.etype, r.value))
    && (r.etype == source.etype && r.value == source.value ==> r.tags != [])
  }

  predicate GroupSendable(rules: Rules, fn: string, types: seq<string>, g: Group) {
    && Normalised(rules, g.source.etype, g.source.value, g.source.anchor) && g.results != []
    && (forall j :: 0 <= j < |g.results| ==> ResultSendable(rules, fn, types, g.source, g.results[j]))
    && forall j, k :: 0 <= j < k < |g.results| ==> KeyOfResult(g.results[j]) != KeyOfResult(g.results[k])
  }

  predicate GroupsSendable(rules: Rules, fn: string, types: seq<string>, groups: seq<Group>) {
    && (forall i :: 0 <= i < |groups| ==> GroupSendable(rules, fn, types, groups[i]))
    && forall i, j :: 0 <= i < j < |groups| ==> groups[i].source != groups[j].source
  }

  // ------------------------------------------------------------ the run

  function FindingFor(source: EntityRef, r: Result): Finding {
    Finding(SourceRef(source.etype, source.value, source.localID), r.etype, r.value, r.category,
            r.applied, r.outOfScope, r.tags, r.localID)
  }

  function GroupFindings(source: EntityRef, rs: seq<Result>): seq<Finding> {
    seq(|rs|, i requires 0 <= i < |rs| => FindingFor(source, rs[i]))
  }

  function FindingsFor(groups: seq<Group>): seq<Finding> {
    if groups == [] then []
    else
      var n := |groups| - 1;
      FindingsFor(groups[..n]) + GroupFindings(groups[n].source, groups[n].results)
  }

  /** One requested function, which returns the packet's results in their order. */
  function SendingRun(etype: string, value: string, fn: string, types: seq<string>, p: Packet): Run {
    Run(p.moduleName, p.sourceID, etype, value, [fn], map[fn := types],
        [Execution(fn, FindingsFor(p.groups), "", "")], [])
  }

  /** The packet reports its groups and nothing else. */
  predicate OnlyGroups(fn: string, p: Packet) {
    p.groups != [] && p.errors == [] && p.functionsWithoutResults == [] && p.functionRawData == map[fn := ""]
  }

  // ------------------------------------------------------------ its references

  lemma {:induction false} FindingsForHas(groups: seq<Group>, i: nat, j: nat)
    requires i < |groups| && j < |groups[i].results|
    ensures FindingFor(groups[i].source, groups[i].results[j]) in FindingsFor(groups)
    decreases |groups|
  {
    var n := |groups| - 1;
    if i < n {
      FindingsForHas(groups[..n], i, j);
    } else {
      var g := groups[n];
      assert GroupFindings(g.source, g.results)[j] == FindingFor(g.source, g.results[j]);
    }
  }

  lemma RunLinks(etype: string, value: string, fn: string, types: seq<string>, p: Packet)
    ensures var d := SendingRun(etype, value, fn, types, p);
            !Violated(d) && Linked(d, d.executions[0]) && Started(d) == Tally([], {}, {}, {}, map[], map[])
  {
    var d := SendingRun(etype, value, fn, types, p);
    assert fn in d.requested && !Violated(d);
    assert FunctionsOf([]) == {};
  }

  /** A result of the packet is a link of the run. */
  lemma ResultLinks(etype: string, value: string, fn: string, types: seq<string>, p: Packet, i: nat, j: nat)
    requires i < |p.groups| && j < |p.groups[i].results|
    ensures var d := SendingRun(etype, value, fn, types, p);
            var source, r := p.groups[i].source, p.groups[i].results[j];
            && Links(d, d.executions, Key(source.etype, source.value), Key(r.etype, r.value))
            && Mentions(d, d.executions, Key(source.etype, source.value))
               && Mentions(d, d.executions, Key(r.etype, r.value))
  {
    var d := SendingRun(etype, value, fn, types, p);
    var source, r := p.groups[i].source, p.groups[i].results[j];
    RunLinks(etype, value, fn, types, p);
    var f := FindingFor(source, r);
    FindingsForHas(p.groups, i, j);
    var rs := d.executions[0].results;
    var k :| 0 <= k < |rs| && rs[k] == f;
    assert Leads(d, rs[k], Key(source.etype, source.value), Key(r.etype, r.value));
    assert SourceKey(d, rs[k]) == Key(source.etype, source.value) && TargetKey(rs[k]) == Key(r.etype, r.value);
    assert AnyLeads(d, rs, Key(source.etype, source.value), Key(r.etype, r.value));
    assert AnyEnd(d, rs, Key(source.etype, source.value)) && AnyEnd(d, rs, Key(r.etype, r.value));
  }

  lemma FoundNext(d: Run, s: Key, t: Key)
    requires Found(d, s) && Links(d, d.executions, s, t)
    ensures Found(d, t)
  {
    var p: seq<Key> :| ResultChain(d, p, s);
    assert ResultChain(d, p + [t], t);
  }

  lemma FoundFirst(d: Run)
    ensures Found(d, Key(d.etype, d.value))
  {
    assert ResultChain(d, [Key(d.etype, d.value)], Key(d.etype, d.value));
  }

  /** Chains of accepted results lead to every source of the packet. */
  ghost predicate SourcesReached(d: Run, groups: seq<Group>) {
    forall i :: 0 <= i < |groups| ==> Found(d, Key(groups[i].source.etype, groups[i].source.value))
  }

  lemma NormalisedRef(rules: Rules, d: Run, k: Key, anchor: string)
    requires Found(d, k) && (k == Key(d.etype, d.value) || Mentions(d, d.executions, k))
    requires Normalised(rules, k.etype, k.value, anchor)
    ensures k in RefsOf(rules, d) && RefsOf(rules, d)[k] == EntityRef(k.etype, k.value, anchor, 0)
  {
    GraphMeaning(d, d.executions, k, k);
    FoundMeaning(d, k);
  }

  /** What the references have to do with one result of the packet. */
  predicate RefsFit(refs: Refs, source: EntityRef, r: Result) {
    var s, t := Key(source.etype, source.value), Key(r.etype, r.value);
    && s in refs && refs[s] == source.(localID := 0)
    && t in refs && refs[t] == EntityRef(r.etype, r.value, r.anchor, 0)
  }

  lemma PacketRefs(rules: Rules, etype: string, value: string, fn: string, types: seq<string>, p: Packet, i: nat,
      j: nat)
    requires GroupsSendable(rules, fn, types, p.groups) && i < |p.groups| && j < |p.groups[i].results|
    requires SourcesReached(SendingRun(etype, value, fn, types, p), p.groups)
    ensures RefsFit(RefsOf(rules, SendingRun(etype, value, fn, types, p)), p.groups[i].source, p.groups[i].results[j])
  {
    var d := SendingRun(etype, value, fn, types, p);
    var source, r := p.groups[i].source, p.groups[i].results[j];
    assert GroupSendable(rules, fn, types, p.groups[i]) && ResultSendable(rules, fn, types, source, r);
    ResultLinks(etype, value, fn, types, p, i, j);
    FoundNext(d, Key(source.etype, source.value), Key(r.etype, r.value));
    hide Found, Mentions, Links, SendingRun, RefsOf;
    NormalisedRef(rules, d, Key(source.etype, source.value), source.anchor);
    NormalisedRef(rules, d, Key(r.etype, r.value), r.anchor);
  }

  // ------------------------------------------------------------ its aggregate

  function MapOf(rs: seq<Result>): map<ResultKey, Result> {
    if rs == [] then map[] else MapOf(rs[..|rs| - 1])[KeyOfResult(rs[|rs| - 1]) := rs[|rs| - 1]]
  }

  function AggregateOf(groups: seq<Group>): Aggregate {
    if groups == [] then map[]
    else
      var n := |groups| - 1;
      AggregateOf(groups[..n])[groups[n].source := MapOf(groups[n].results)]
  }

  lemma {:induction false} MapOfKeys(rs: seq<Result>, k: ResultKey)
    ensures k in MapOf(rs) <==> exists j :: 0 <= j < |rs| && KeyOfResult(rs[j]) == k
    decreases |rs|
  {
    if rs != [] {
      var n := |rs| - 1;
      MapOfKeys(rs[..n], k);
      assert forall j :: 0 <= j < n ==> rs[..n][j] == rs[j];
    }
  }

  lemma {:induction false} AggregateOfKeys(groups: seq<Group>, source: EntityRef)
    ensures source in AggregateOf(groups) <==> exists i :: 0 <= i < |groups| && groups[i].source == source
    decreases |groups|
  {
    if groups != [] {
      var n := |groups| - 1;
      AggregateOfKeys(groups[..n], source);
      assert forall i :: 0 <= i < n ==> groups[..n][i] == groups[i];
    }
  }

  /** One more result of the packet, read by the processor. */
  lemma FindingInserts(rules: Rules, d: Run, refs: Refs, t: Tally, fn: string, types: seq<string>, source: EntityRef,
      r: Result)
    requires RefsFit(refs, source, r) && ResultSendable(rules, fn, types, source, r) && d.inputTypes == map[fn := types]
    requires KeyOfResult(r) !in Grouped(t.groups, source)
    ensures HasRefs(d, refs, FindingFor(source, r))
    ensures AddFinding(rules, d, refs, t, fn, FindingFor(source, r))
            == t.(groups := t.groups[source := Grouped(t.groups, source)[KeyOfResult(r) := r]],
                findings := t.findings + {fn})
  {
    var f := FindingFor(source, r);
    assert SourceOf(d, refs, f) == source;
    assert FateOf(d, refs, f) == Usable;
    var judged := Judged(rules, d, fn, f, refs[TargetKey(f)]);
    assert judged == r.(outOfScope := r.outOfScope && !rules.allowed(r.etype, r.value));
    assert judged.(outOfScope := judged.outOfScope || rules.blocked(r.etype, r.value)) == r;
  }

  /** The tally after the results of whole groups and the first results of one more. */
  function TallyOf(fn: string, agg: Aggregate): Tally {
    Tally([], {fn}, if agg == map[] then {} else {fn}, {}, map[fn := ""], agg)
  }

  ghost predicate AllFit(rules: Rules, refs: Refs, fn: string, types: seq<string>, source: EntityRef, rs: seq<Result>) {
    && (forall j :: 0 <= j < |rs| ==> RefsFit(refs, source, rs[j]) && ResultSendable(rules, fn, types, source, rs[j]))
    && forall j, k :: 0 <= j < k < |rs| ==> KeyOfResult(rs[j]) != KeyOfResult(rs[k])
  }

  /** The aggregate with the first results of one more group. */
  function Extended(agg: Aggregate, source: EntityRef, rs: seq<Result>): Aggregate {
    if rs == [] then agg else agg[source := MapOf(rs)]
  }

  lemma FindingAppended(rules: Rules, d: Run, refs: Refs, t0: Tally, fn: string, fs: seq<Finding>, f: Finding)
    requires AllHaveRefs(d, refs, fs) && HasRefs(d, refs, f)
    ensures AllHaveRefs(d, refs, fs + [f])
    ensures AddFindings(rules, d, refs, t0, fn, fs + [f])
            == AddFinding(rules, d, refs, AddFindings(rules, d, refs, t0, fn, fs), fn, f)
  {
    hide HasRefs, AddFinding;
    assert (fs + [f])[..|fs|] == fs;
  }

  lemma GroupFindingsLast(before: seq<Finding>, source: EntityRef, rs: seq<Result>)
    requires rs != []
    ensures before + GroupFindings(source, rs)
            == before + GroupFindings(source, rs[..|rs| - 1]) + [FindingFor(source, rs[|rs| - 1])]
  {
  }

  lemma NoFindings(before: seq<Finding>, source: EntityRef)
    ensures before + GroupFindings(source, []) == before
  {
  }

  lemma AllFitLast(rules: Rules, refs: Refs, fn: string, types: seq<string>, source: EntityRef, rs: seq<Result>)
    requires rs != [] && AllFit(rules, refs, fn, types, source, rs)
    ensures var n := |rs| - 1;
            && AllFit(rules, refs, fn, types, source, rs[..n])
            && RefsFit(refs, source, rs[n]) && ResultSendable(rules, fn, types, source, rs[n])
            && KeyOfResult(rs[n]) !in MapOf(rs[..n])
  {
    hide RefsFit, ResultSendable, KeyOfResult;
    var n := |rs| - 1;
    assert forall j :: 0 <= j < n ==> rs[..n][j] == rs[j];
    MapOfKeys(rs[..n], KeyOfResult(rs[n]));
  }

  lemma ExtendedLast(agg: Aggregate, source: EntityRef, rs: seq<Result>)
    requires rs != [] && source !in agg
    ensures var n := |rs| - 1;
            var agg' := Extended(agg, source, rs[..n]);
            && Grouped(agg', source) == MapOf(rs[..n])
            && agg'[source := MapOf(rs[..n])[KeyOfResult(rs[n]) := rs[n]]] == Extended(agg, source, rs)
            && Extended(agg, source, rs) != map[]
  {
    assert source in Extended(agg, source, rs);
  }

  lemma {:induction false} GroupTallied(
    rules: Rules, d: Run, refs: Refs, fn: string, types: seq<string>, agg: Aggregate, before: seq<Finding>,
        source: EntityRef, rs: seq<Result>)
    requires AllFit(rules, refs, fn, types, source, rs) && d.inputTypes == map[fn := types] && source !in agg
    requires AllHaveRefs(d, refs, before)
             && AddFindings(rules, d, refs, TallyOf(fn, map[]), fn, before) == TallyOf(fn, agg)
    ensures AllHaveRefs(d, refs, before + GroupFindings(source, rs))
    ensures AddFindings(rules, d, refs, TallyOf(fn, map[]), fn, before + GroupFindings(source, rs))
            == TallyOf(fn, Extended(agg, source, rs))
    decreases |rs|
  {
    hide AllFit, RefsFit, ResultSendable, FindingFor, AddFinding, HasRefs, AddFindings, AllHaveRefs, MapOf,
         GroupFindings, KeyOfResult;
    if rs == [] {
      NoFindings(before, source);
    } else {
      var n := |rs| - 1;
      AllFitLast(rules, refs, fn, types, source, rs);
      GroupTallied(rules, d, refs, fn, types, agg, before, source, rs[..n]);
      GroupFindingsLast(before, source, rs);
      ExtendedLast(agg, source, rs);
      hide Extended, Grouped;
      FindingInserts(rules, d, refs, TallyOf(fn, Extended(agg, source, rs[..n])), fn, types, source, rs[n]);
      FindingAppended(rules, d, refs, TallyOf(fn, map[]), fn, before + GroupFindings(source, rs[..n]),
          FindingFor(source, rs[n]));
    }
  }

  ghost predicate GroupsFitRefs(rules: Rules, refs: Refs, fn: string, types: seq<string>, groups: seq<Group>) {
    && (forall i :: 0 <= i < |groups| ==>
         groups[i].results != [] && AllFit(rules, refs, fn, types, groups[i].source, groups[i].results))
    && forall i, j :: 0 <= i < j < |groups| ==> groups[i].source != groups[j].source
  }

  lemma {:induction false} GroupsTallied(rules: Rules, d: Run, refs: Refs, fn: string, types: seq<string>,
      groups: seq<Group>)
    requires GroupsFitRefs(rules, refs, fn, types, groups) && d.inputTypes == map[fn := types]
    ensures AllHaveRefs(d, refs, FindingsFor(groups))
    ensures AddFindings(rules, d, refs, TallyOf(fn, map[]), fn, FindingsFor(groups)) == TallyOf(fn, AggregateOf(groups))
    decreases |groups|
  {
    if groups != [] {
      hide AllFit, AddFindings, AllHaveRefs;
      var n := |groups| - 1;
      GroupsTallied(rules, d, refs, fn, types, groups[..n]);
      AggregateOfKeys(groups[..n], groups[n].source);
      assert forall i :: 0 <= i < n ==> groups[..n][i] == groups[i];
      GroupTallied(rules, d, refs, fn, types, AggregateOf(groups[..n]), FindingsFor(groups[..n]), groups[n].source,
          groups[n].results);
    }
  }

  // ------------------------------------------------------------ its listing

  lemma OneMoreResult(rs: seq<Result>, m: map<ResultKey, Result>, k: ResultKey, r: Result)
    requires ResultsOf(rs, m) && k !in m
    ensures ResultsOf(rs + [r], m[k := r])
  {
    var rs', m' := rs + [r], m[k := r];
    assert m'.Keys == m.Keys + {k} && |m'| == |m'.Keys| && |m| == |m.Keys|;
    forall i | 0 <= i < |rs'| ensures rs'[i] in m'.Values {
      if i < |rs| {
        var k0 :| k0 in m && m[k0] == rs[i];
        assert k0 in m' && m'[k0] == rs[i];
      } else {
        assert k in m' && m'[k] == r;
      }
    }
    forall k0 | k0 in m' ensures m'[k0] in rs' {
      assert k0 != k ==> m[k0] in rs;
      assert rs'[|rs|] == r;
    }
  }

  lemma {:induction false} MapOfLists(rs: seq<Result>)
    requires forall j, k :: 0 <= j < k < |rs| ==> KeyOfResult(rs[j]) != KeyOfResult(rs[k])
    ensures ResultsOf(rs, MapOf(rs))
    decreases |rs|
  {
    hide ResultsOf, KeyOfResult;
    if rs == [] {
      NoResults();
    } else {
      var n := |rs| - 1;
      assert forall j :: 0 <= j < n ==> rs[..n][j] == rs[j];
      MapOfLists(rs[..n]);
      MapOfKeys(rs[..n], KeyOfResult(rs[n]));
      OneMoreResult(rs[..n], MapOf(rs[..n]), KeyOfResult(rs[n]), rs[n]);
      assert rs[..n] + [rs[n]] == rs;
    }
  }

  lemma NoResults()
    ensures ResultsOf([], map[])
  {
  }

  lemma OneMoreGroup(groups: seq<Group>, g: Group, agg: Aggregate, m: map<ResultKey, Result>)
    requires GroupsOf(groups, agg) && g.source !in agg && ResultsOf(g.results, m)
    ensures GroupsOf(groups + [g], agg[g.source := m])
  {
    hide ResultsOf, Listed, Sources;
    SourcesAppend(groups, g);
    ListedMore(groups, g, agg, m);
    ListedAppend(groups, g, agg[g.source := m]);
  }

  lemma ListedMore(groups: seq<Group>, g: Group, agg: Aggregate, m: map<ResultKey, Result>)
    requires Listed(groups, agg) && g.source !in agg
    ensures Listed(groups, agg[g.source := m])
  {
    hide ResultsOf;
  }

  lemma {:induction false} AggregateOfLists(groups: seq<Group>)
    requires forall i, j :: 0 <= i < j < |groups| ==> groups[i].source != groups[j].source
    requires forall i :: 0 <= i < |groups| ==> ResultsOf(groups[i].results, MapOf(groups[i].results))
    ensures GroupsOf(groups, AggregateOf(groups))
    decreases |groups|
  {
    hide ResultsOf, MapOf, Listed, Sources;
    if groups != [] {
      var n := |groups| - 1;
      AggregateOfKeys(groups[..n], groups[n].source);
      assert forall i :: 0 <= i < n ==> groups[..n][i] == groups[i];
      hide GroupsOf;
      AggregateOfLists(groups[..n]);
      OneMoreGroup(groups[..n], groups[n], AggregateOf(groups[..n]), MapOf(groups[n].results));
      assert groups == groups[..n] + [groups[n]];
    } else {
      ListedNone(map[]);
    }
  }

  // ------------------------------------------------------------ the packet is sent

  lemma PacketFitsRefs(rules: Rules, etype: string, value: string, fn: string, types: seq<string>, p: Packet)
    requires GroupsSendable(rules, fn, types, p.groups)
             && SourcesReached(SendingRun(etype, value, fn, types, p), p.groups)
    ensures GroupsFitRefs(rules, RefsOf(rules, SendingRun(etype, value, fn, types, p)), fn, types, p.groups)
  {
    hide SourcesReached, RefsOf, RefsFit, ResultSendable, Normalised, SendingRun;
    var refs := RefsOf(rules, SendingRun(etype, value, fn, types, p));
    forall i | 0 <= i < |p.groups|
      ensures p.groups[i].results != [] && AllFit(rules, refs, fn, types, p.groups[i].source, p.groups[i].results) {
      assert GroupSendable(rules, fn, types, p.groups[i]);
      forall j | 0 <= j < |p.groups[i].results| ensures RefsFit(refs, p.groups[i].source, p.groups[i].results[j]) {
        PacketRefs(rules, etype, value, fn, types, p, i, j);
      }
    }
  }

  lemma OneExecution(rules: Rules, d: Run, refs: Refs, e: Execution)
    requires d.executions == [e] && Linked(d, e) && AllHaveRefs(d, refs, e.results)
    requires Started(d) == Tally([], {}, {}, {}, map[], map[]) && e.error == "" && e.rawData == ""
    ensures RefsCover(d, refs, [e])
    ensures AddExecutions(rules, d, refs, [e])
            == AddFindings(rules, d, refs, TallyOf(e.function_, map[]), e.function_, e.results)
  {
    hide AllHaveRefs, AddFindings;
    assert [e][..0] == [];
    assert AddExecutions(rules, d, refs, []) == Started(d);
    var t, fn := Started(d), e.function_;
    assert map[fn := ""] == map[][fn := ""] && t.returned + {fn} == {fn};
    assert t.(rawData := t.rawData[fn := ""]).(returned := t.returned + {fn}) == TallyOf(fn, map[]);
    assert AddExecution(rules, d, refs, t, e) == AddFindings(rules, d, refs, TallyOf(fn, map[]), fn, e.results);
    assert [e][|[e]| - 1] == e && [e][..|[e]| - 1] == [];
    assert AddExecutions(rules, d, refs, [e]) == AddExecution(rules, d, refs, AddExecutions(rules, d, refs, []), e);
  }

  lemma RunTallied(rules: Rules, etype: string, value: string, fn: string, types: seq<string>, p: Packet)
    requires GroupsSendable(rules, fn, types, p.groups)
             && SourcesReached(SendingRun(etype, value, fn, types, p), p.groups)
    ensures Tallied(rules, SendingRun(etype, value, fn, types, p)) == TallyOf(fn, AggregateOf(p.groups))
  {
    hide GroupsSendable, SourcesReached, RefsOf, Linked, Started, AddFindings, AllHaveRefs, GroupsFitRefs,
         AddExecutions, TallyOf, AggregateOf;
    var d := SendingRun(etype, value, fn, types, p);
    var refs := RefsOf(rules, d);
    RunLinks(etype, value, fn, types, p);
    RefsExist(rules, d);
    PacketFitsRefs(rules, etype, value, fn, types, p);
    GroupsTallied(rules, d, refs, fn, types, p.groups);
    OneExecution(rules, d, refs, d.executions[0]);
  }

  /** For every packet of one function with normalised names, distinct sources and distinct results,
      all of them reached, there is a run that the processor turns into that very packet. */
  lemma PacketIsSent(rules: Rules, etype: string, value: string, fn: string, types: seq<string>, p: Packet)
    requires GroupsSendable(rules, fn, types, p.groups) && OnlyGroups(fn, p)
    requires SourcesReached(SendingRun(etype, value, fn, types, p), p.groups)
    ensures IsPacket(rules, SendingRun(etype, value, fn, types, p), p)
  {
    RunTallied(rules, etype, value, fn, types, p);
    hide SourcesReached, Tallied;
    var d := SendingRun(etype, value, fn, types, p);
    forall i | 0 <= i < |p.groups| ensures ResultsOf(p.groups[i].results, MapOf(p.groups[i].results)) {
      assert GroupSendable(rules, fn, types, p.groups[i]);
      MapOfLists(p.groups[i].results);
    }
    AggregateOfLists(p.groups);
    AggregateOfKeys(p.groups, p.groups[0].source);
    hide GroupsSendable, GroupsOf, AggregateOf;
    var t := Tallied(rules, d);
    assert [fn][..0] == [] && JudgeFunctions(t, []) == Verdict([], {}, []);
    assert JudgeFunctions(t, [fn]) == JudgeFunction(t, JudgeFunctions(t, []), fn);
  }
}
