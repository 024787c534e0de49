/**
 `Process`: from one module run to one packet.  Every step is a function on the processor's
 maps; the method below runs them as loops.
 */
module Processor {
  import opened Collections
  import opened Schema
  import opened Reachability
  import opened Tags

  datatype SourceRef = NoSource | SourceRef(etype: string, value: string, localID: int)

  /** One result as the module returned it. */
  datatype Finding = Finding(
    source: SourceRef, etype: string, value: string, category: string,
    applied: bool, outOfScope: bool, tags: seq<string>, localID: int)

  /** `error` is empty for a run without an error. */
  datatype Execution = Execution(function_: string, results: seq<Finding>, rawData: string, error: string)

  datatype Run = Run(
    moduleName: string, sourceID: nat, etype: string, value: string,
    requested: seq<string>, inputTypes: map<string, seq<string>>,
    executions: seq<Execution>, systemErrors: seq<ReportedError>)

  datatype Validation = Rejected | Accepted(etype: string, value: string, anchor: string)

  /** The syntax check and the scope rules, as functions of type and value. */
  datatype Rules = Rules(
    validate: (string, string) -> Validation,
    allowed: (string, string) -> bool,
    blocked: (string, string) -> bool)

  datatype ResultKey = ResultKey(etype: string, value: string, localID: int)
  type Aggregate = map<EntityRef, map<ResultKey, Result>>
  type Refs = map<Key, EntityRef>

  /** The processor's working maps. */
  datatype Tally = Tally(
    errors: seq<ReportedError>, returned: set<string>, findings: set<string>, failed: set<string>,
    rawData: map<string, string>, groups: Aggregate)

  const INVALID := "invalid"

  // ------------------------------------------------------------ what is taken into account

  predicate IsRogue(d: Run, e: Execution) {
    d.requested != [] && e.function_ !in d.requested
  }

  /** A module that returns an unrequested function broke its contract. */
  predicate Violated(d: Run) {
    exists i :: 0 <= i < |d.executions| && IsRogue(d, d.executions[i])
  }

  function FunctionsOf(errors: seq<ReportedError>): (s: set<string>)
    ensures forall fn :: fn in s <==> exists i :: 0 <= i < |errors| && errors[i].function_ == fn
  {
    set i | 0 <= i < |errors| :: errors[i].function_
  }

  function Violations(fns: seq<string>): seq<ReportedError> {
    seq(|fns|, i requires 0 <= i < |fns| => ReportedError(fns[i], "contract_violation"))
  }

  /** Before any execution is read. */
  function Started(d: Run): Tally {
    var t := Tally(d.systemErrors, {}, {}, FunctionsOf(d.systemErrors), map[], map[]);
    if Violated(d) then
      t.(errors := t.errors + Violations(d.requested), returned := Elements(d.requested),
         failed := t.failed + Elements(d.requested))
    else t
  }

  predicate Skipped(d: Run, returned: set<string>, e: Execution) {
    e.function_ in returned || IsRogue(d, e)
  }

  // ------------------------------------------------------------ references

  function SourceKey(d: Run, r: Finding): Key {
    if r.source.NoSource? then Key(d.etype, d.value) else Key(r.source.etype, r.source.value)
  }

  function TargetKey(r: Finding): Key {
    Key(r.etype, r.value)
  }

  function SourceLocalID(r: Finding): int {
    if r.source.NoSource? then 0 else r.source.localID
  }

  datatype Graph = Graph(keys: set<Key>, adj: Adjacency)

  function AddLink(d: Run, g: Graph, r: Finding): Graph {
    var s, t := SourceKey(d, r), TargetKey(r);
    Graph(g.keys + {s, t}, g.adj[s := Next(g.adj, s) + [t]])
  }

  function AddLinks(d: Run, g: Graph, rs: seq<Finding>): Graph {
    if rs == [] then g else AddLink(d, AddLinks(d, g, rs[..|rs| - 1]), rs[|rs| - 1])
  }

  predicate Linked(d: Run, e: Execution) {
    !Skipped(d, Started(d).returned, e) && e.error == ""
  }

  function GraphOf(d: Run, es: seq<Execution>): Graph {
    if es == [] then Graph({Key(d.etype, d.value)}, map[])
    else
      var g := GraphOf(d, es[..|es| - 1]);
      var e := es[|es| - 1];
      if Linked(d, e) then AddLinks(d, g, e.results) else g
  }

  /** The reference of a key: normalised when it is reachable and valid. */
  function NormalizedRef(rules: Rules, reachable: bool, k: Key): EntityRef {
    if !reachable then EntityRef(INVALID, k.value, "", 0)
    else
      match rules.validate(k.etype, k.value)
      case Rejected => EntityRef(INVALID, k.value, "", 0)
      case Accepted(etype, value, anchor) => EntityRef(etype, value, if etype == ANCHOR_TYPE then "" else anchor, 0)
  }

  // ------------------------------------------------------------ one result, one execution

  function Fail(t: Tally, fn: string, kind: string): Tally {
    t.(errors := t.errors + [ReportedError(fn, kind)], failed := t.failed + {fn})
  }

  function MergeTags(dst: seq<string>, src: seq<string>): (r: seq<string>)
    ensures forall x :: x in r <==> x in dst || x in src
    decreases |src|
  {
    if src == [] then dst else MergeTags(if src[0] in dst then dst else dst + [src[0]], src[1..])
  }

  /** Tags join without repetition, marks by disjunction; the first result gives the rest. */
  function Joint(old_: Result, new_: Result): Result {
    old_.(tags := MergeTags(old_.tags, new_.tags), applied := old_.applied || new_.applied,
          outOfScope := old_.outOfScope || new_.outOfScope)
  }

  function KeyOfResult(r: Result): ResultKey {
    ResultKey(r.etype, r.value, r.localID)
  }

  function Grouped(groups: Aggregate, src: EntityRef): map<ResultKey, Result> {
    if src in groups then groups[src] else map[]
  }

  /** A module's own scope mark yields to an explicit permission; an entry that is already there
      takes the mark alone, a new one also the scope rules. */
  function Insert(rules: Rules, groups: Aggregate, src: EntityRef, r: Result): Aggregate {
    var key := ResultKey(r.etype, r.value, r.localID);
    var group := Grouped(groups, src);
    groups[src := group[key := if key in group then Joint(group[key], r)
                               else r.(outOfScope := r.outOfScope || rules.blocked(r.etype, r.value))]]
  }

  function Judged(rules: Rules, d: Run, fn: string, r: Finding, target: EntityRef): Result {
    Result(fn, target.etype, NormalizeCategory(r.category), target.value,
           r.applied && fn in d.inputTypes && target.etype in d.inputTypes[fn],
           r.outOfScope && !rules.allowed(target.etype, target.value),
           r.tags, target.anchor, r.localID)
  }

  predicate HasRefs(d: Run, refs: Refs, r: Finding) {
    SourceKey(d, r) in refs && TargetKey(r) in refs
  }

  datatype Fate = BadTag | Echo | Incomplete | Usable

  function SourceOf(d: Run, refs: Refs, r: Finding): EntityRef
    requires HasRefs(d, refs, r)
  {
    refs[SourceKey(d, r)].(localID := SourceLocalID(r))
  }

  /** Echoes repeat their own source without adding a tag. */
  function FateOf(d: Run, refs: Refs, r: Finding): Fate
    requires HasRefs(d, refs, r)
  {
    var target, source := refs[TargetKey(r)], SourceOf(d, refs, r);
    if !ValidTags(r.tags) then BadTag
    else if target.value == source.value && target.etype == source.etype && r.tags == [] then Echo
    else if (r.etype == "") != (r.value == "") then Incomplete
    else Usable
  }

  function AddFinding(rules: Rules, d: Run, refs: Refs, t: Tally, fn: string, r: Finding): Tally
    requires HasRefs(d, refs, r)
  {
    match FateOf(d, refs, r)
    case BadTag => Fail(t, fn, "invalid_tag_format")
    case Echo => t
    case Incomplete => Fail(t, fn, "incomplete_data")
    case Usable =>
      t.(groups := Insert(rules, t.groups, SourceOf(d, refs, r), Judged(rules, d, fn, r, refs[TargetKey(r)])),
         findings := t.findings + {fn})
  }

  predicate AllHaveRefs(d: Run, refs: Refs, rs: seq<Finding>) {
    forall i :: 0 <= i < |rs| ==> HasRefs(d, refs, rs[i])
  }

  function AddFindings(rules: Rules, d: Run, refs: Refs, t: Tally, fn: string, rs: seq<Finding>): Tally
    requires AllHaveRefs(d, refs, rs)
  {
    if rs == [] then t
    else AddFinding(rules, d, refs, AddFindings(rules, d, refs, t, fn, rs[..|rs| - 1]), fn, rs[|rs| - 1])
  }

  /** Every accepted result of a run without error can be dereferenced. */
  predicate RefsCover(d: Run, refs: Refs, es: seq<Execution>) {
    forall i :: 0 <= i < |es| && Linked(d, es[i]) ==> AllHaveRefs(d, refs, es[i].results)
  }

  function AddExecution(rules: Rules, d: Run, refs: Refs, t: Tally, e: Execution): Tally
    requires Linked(d, e) ==> AllHaveRefs(d, refs, e.results)
    requires Started(d).returned <= t.returned
  {
    var t1 := t.(rawData := t.rawData[e.function_ := e.rawData]);
    if Skipped(d, t.returned, e) then t1
    else
      var t2 := t1.(returned := t.returned + {e.function_});
      if e.error != "" then Fail(t2, e.function_, "function_error")
      else AddFindings(rules, d, refs, t2, e.function_, e.results)
  }

  lemma {:induction false} FindingsKeepReturned(rules: Rules, d: Run, refs: Refs, t: Tally, fn: string,
      rs: seq<Finding>)
    requires AllHaveRefs(d, refs, rs)
    ensures var t' := AddFindings(rules, d, refs, t, fn, rs);
            t'.returned == t.returned && t'.rawData == t.rawData
    decreases |rs|
  {
    if rs != [] {
      FindingsKeepReturned(rules, d, refs, t, fn, rs[..|rs| - 1]);
    }
  }

  function AddExecutions(rules: Rules, d: Run, refs: Refs, es: seq<Execution>): (t: Tally)
    requires RefsCover(d, refs, es)
    ensures Started(d).returned <= t.returned
  {
    if es == [] then Started(d)
    else
      var e := es[|es| - 1];
      assert RefsCover(d, refs, es[..|es| - 1]);
      var t := AddExecutions(rules, d, refs, es[..|es| - 1]);
      if Linked(d, e) then
        FindingsKeepReturned(
          rules, d, refs,
          t.(rawData := t.rawData[e.function_ := e.rawData], returned := t.returned + {e.function_}),
          e.function_, e.results);
        AddExecution(rules, d, refs, t, e)
      else AddExecution(rules, d, refs, t, e)
  }

  // ------------------------------------------------------------ requested functions

  datatype Verdict = Verdict(errors: seq<ReportedError>, failed: set<string>, silent: seq<string>)

  function JudgeFunction(t: Tally, v: Verdict, fn: string): Verdict {
    if fn in v.failed then v
    else if fn !in t.returned then
      v.(errors := v.errors + [ReportedError(fn, "missing_function")], failed := v.failed + {fn})
    else if fn !in t.findings then v.(silent := v.silent + [fn])
    else v
  }

  function JudgeFunctions(t: Tally, fns: seq<string>): Verdict {
    if fns == [] then Verdict(t.errors, t.failed, [])
    else JudgeFunction(t, JudgeFunctions(t, fns[..|fns| - 1]), fns[|fns| - 1])
  }
}
