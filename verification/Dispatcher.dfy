/**
 The dispatcher's decisions: which module functions an item leads to, and the module index
 that it consults.
 */
module Dispatcher {
  import opened Collections
  import opened Schema

  /** One alternative of a function's tag condition. */
  datatype TagRule = TagRule(require: seq<string>, exclude: seq<string>)

  datatype Entry = Entry(moduleName: string, functions: seq<string>, rules: seq<TagRule>)
  type Index = map<string, seq<Entry>>

  datatype ModuleFunction = ModuleFunction(moduleName: string, function_: string)

  /** One entity to look at, as the repository hands it over. */
  datatype WorkItem = WorkItem(
    entityID: nat, etype: string, value: string, tags: seq<string>,
    outOfScope: bool, strict: nat, relaxed: nat, completed: set<ModuleFunction>)

  datatype Limits = Limits(maxDepth: nat, strictDepth: bool)

  // ------------------------------------------------------------ tag conditions

  predicate RuleHolds(tags: seq<string>, rule: TagRule) {
    (forall t <- rule.require :: t in tags) && forall t <- rule.exclude :: t !in tags
  }

  predicate TagsMatch(tags: seq<string>, rules: seq<TagRule>) {
    rules == [] || exists i :: 0 <= i < |rules| && RuleHolds(tags, rules[i])
  }

  method ContainsTag(tags: seq<string>, target: string) returns (found: bool)
    ensures found <==> target in tags
  {
    for i := 0 to |tags|
      invariant target !in tags[..i]
    {
      if tags[i] == target {
        return true;
      }
    }
    assert tags[..|tags|] == tags;
    found := false;
  }

  method MatchTags(tags: seq<string>, rules: seq<TagRule>) returns (ok: bool)
    ensures ok <==> TagsMatch(tags, rules)
  {
    if rules == [] {
      return true;
    }
    for i := 0 to |rules|
      invariant forall k :: 0 <= k < i ==> !RuleHolds(tags, rules[k])
    {
      var holds := RuleMatches(tags, rules[i]);
      if holds {
        return true;
      }
    }
    ok := false;
  }

  method RuleMatches(tags: seq<string>, rule: TagRule) returns (ok: bool)
    ensures ok <==> RuleHolds(tags, rule)
  {
    for i := 0 to |rule.require|
      invariant forall k :: 0 <= k < i ==> rule.require[k] in tags
    {
      var found := ContainsTag(tags, rule.require[i]);
      if !found {
        return false;
      }
    }
    for i := 0 to |rule.exclude|
      invariant forall k :: 0 <= k < i ==> rule.exclude[k] !in tags
    {
      var found := ContainsTag(tags, rule.exclude[i]);
      if found {
        return false;
      }
    }
    ok := true;
  }

  /** Only membership counts, so the order in which tags are listed does not matter. */
  lemma TagOrderIrrelevant(a: seq<string>, b: seq<string>, rules: seq<TagRule>)
    requires forall t :: t in a <==> t in b
    ensures TagsMatch(a, rules) == TagsMatch(b, rules)
  {
    assert forall i :: 0 <= i < |rules| ==> RuleHolds(a, rules[i]) == RuleHolds(b, rules[i]);
  }

  // ------------------------------------------------------------ the module index

  /** A registered function after the cascade of its settings. */
  datatype Registered = Registered(moduleName: string, function_: string, inputTypes: seq<string>,
      rawTags: seq<seq<string>>)

  type Settings = map<string, map<string, bool>>

  datatype ModuleRow = ModuleRow(moduleName: string, function_: string, inputType: string, enabled: bool)

  predicate SwitchedOn(settings: Settings, m: string, f: string) {
    m in settings && f in settings[m] && settings[m][f]
  }

  predicate SwitchedOff(settings: Settings, m: string, f: string) {
    m in settings && f in settings[m] && !settings[m][f]
  }

  function Unnegated(group: seq<string>): seq<string> {
    if group == [] then []
    else (if group[0] != "" && group[0][0] == '!' then [] else [group[0]]) + Unnegated(group[1..])
  }

  function Negated(group: seq<string>): seq<string> {
    if group == [] then []
    else (if group[0] != "" && group[0][0] == '!' then [group[0][1..]] else []) + Negated(group[1..])
  }

  function RulesOf(rawTags: seq<seq<string>>): seq<TagRule> {
    if rawTags == [] then []
    else [TagRule(Unnegated(rawTags[0]), Negated(rawTags[0]))] + RulesOf(rawTags[1..])
  }

  /** A leading exclamation mark asks for the tag's absence, everything else for its presence. */
  predicate RawHolds(tags: seq<string>, raw: string) {
    if raw != "" && raw[0] == '!' then raw[1..] !in tags else raw in tags
  }

  lemma {:induction false} RuleMeaning(tags: seq<string>, group: seq<string>)
    ensures RuleHolds(tags, TagRule(Unnegated(group), Negated(group))) <==> forall raw <- group :: RawHolds(tags, raw)
    decreases |group|
  {
    if group != [] {
      RuleMeaning(tags, group[1..]);
      assert forall raw :: raw in group <==> raw == group[0] || raw in group[1..];
      var p, n := Unnegated(group[1..]), Negated(group[1..]);
      assert forall t :: t in Unnegated(group) <==> t in p || (RawIsPlain(group[0]) && t == group[0]);
      assert forall t :: t in Negated(group) <==> t in n || (!RawIsPlain(group[0]) && t == group[0][1..]);
      assert RuleHolds(tags, TagRule(Unnegated(group), Negated(group))) <==>
               RuleHolds(tags, TagRule(p, n)) && RawHolds(tags, group[0]) by {
        if RawIsPlain(group[0]) {
          assert group[0] in Unnegated(group);
        } else {
          assert group[0][1..] in Negated(group);
        }
      }
    }
  }

  predicate RawIsPlain(raw: string) {
    !(raw != "" && raw[0] == '!')
  }

  /** The split tag groups hold exactly when some group's raw tags all do. */
  lemma {:induction false} RulesMeaning(tags: seq<string>, rawTags: seq<seq<string>>)
    ensures |RulesOf(rawTags)| == |rawTags|
    ensures forall i :: 0 <= i < |rawTags| ==>
              (RuleHolds(tags, RulesOf(rawTags)[i]) <==> forall raw <- rawTags[i] :: RawHolds(tags, raw))
    decreases |rawTags|
  {
    if rawTags != [] {
      RuleMeaning(tags, rawTags[0]);
      RulesMeaning(tags, rawTags[1..]);
      assert forall i :: 0 < i < |rawTags| ==>
               rawTags[i] == rawTags[1..][i - 1] && RulesOf(rawTags)[i] == RulesOf(rawTags[1..])[i - 1];
    }
  }

  function EntryOf(r: Registered): Entry {
    Entry(r.moduleName, [r.function_], RulesOf(r.rawTags))
  }

  /** An entry stands under a type exactly when it is a switched-on function of that input type. */
  ghost predicate IndexIs(index: Index, regs: seq<Registered>, settings: Settings) {
    forall t, e :: ListsEntry(index, t, e) <==>
      exists i :: 0 <= i < |regs| && Provides(regs[i], settings, t, e)
  }

  predicate ListsEntry(index: Index, t: string, e: Entry) {
    t in index && e in index[t]
  }

  predicate Provides(r: Registered, settings: Settings, t: string, e: Entry) {
    r.function_ != "" && SwitchedOn(settings, r.moduleName, r.function_) && t in r.inputTypes && e == EntryOf(r)
  }

  method LoadIndex(regs: seq<Registered>, settings: Settings) returns (index: Index)
    ensures IndexIs(index, regs, settings)
  {
    index := map[];
    for i := 0 to |regs|
      invariant IndexIs(index, regs[..i], settings)
    {
      var r := regs[i];
      ghost var before := index;
      if r.function_ != "" && SwitchedOn(settings, r.moduleName, r.function_) {
        for j := 0 to |r.inputTypes|
          invariant forall t, e :: ListsEntry(index, t, e) <==>
                      (ListsEntry(before, t, e) || (t in r.inputTypes[..j] && e == EntryOf(r)))
        {
          var t := r.inputTypes[j];
          assert r.inputTypes[..j + 1] == r.inputTypes[..j] + [t];
          index := index[t := (if t in index then index[t] else []) + [EntryOf(r)]];
        }
        assert r.inputTypes[..|r.inputTypes|] == r.inputTypes;
      }
      IndexNext(before, index, regs[..i], r, settings);
      assert regs[..i + 1] == regs[..i] + [r];
    }
    assert regs[..|regs|] == regs;
  }

  lemma IndexNext(before: Index, index: Index, regs: seq<Registered>, r: Registered, settings: Settings)
    requires IndexIs(before, regs, settings)
    requires forall t, e :: ListsEntry(index, t, e) <==> (ListsEntry(before, t, e) || Provides(r, settings, t, e))
    ensures IndexIs(index, regs + [r], settings)
  {
    var all := regs + [r];
    forall t, e ensures ListsEntry(index, t, e) <==> exists i :: 0 <= i < |all| && Provides(all[i], settings, t, e) {
      if ListsEntry(before, t, e) {
        var i :| 0 <= i < |regs| && Provides(regs[i], settings, t, e);
        assert Provides(all[i], settings, t, e);
      }
      if Provides(r, settings, t, e) {
        assert Provides(all[|regs|], settings, t, e);
      }
      if exists i :: 0 <= i < |all| && Provides(all[i], settings, t, e) {
        var i :| 0 <= i < |all| && Provides(all[i], settings, t, e);
        if i < |regs| {
          assert Provides(regs[i], settings, t, e);
        }
      }
    }
  }

  function RowsOf(r: Registered, settings: Settings): seq<ModuleRow> {
    var on := !SwitchedOff(settings, r.moduleName, r.function_);
    if r.function_ == "" then [ModuleRow(r.moduleName, "", "", true)]
    else if r.inputTypes == [] then [ModuleRow(r.moduleName, r.function_, "", on)]
    else seq(|r.inputTypes|, i requires 0 <= i < |r.inputTypes| =>
          ModuleRow(r.moduleName, r.function_, r.inputTypes[i], on))
  }

  function TableOf(regs: seq<Registered>, settings: Settings): seq<ModuleRow> {
    if regs == [] then [] else TableOf(regs[..|regs| - 1], settings) + RowsOf(regs[|regs| - 1], settings)
  }

  /** What the modules table offers for a type: a function that is not switched off. */
  predicate Offered(table: seq<ModuleRow>, t: string, m: string, f: string) {
    exists i :: 0 <= i < |table| && table[i] == ModuleRow(m, f, t, true)
  }

  function RowAt(r: Registered, settings: Settings, j: nat): ModuleRow
    requires j < |r.inputTypes|
  {
    ModuleRow(r.moduleName, r.function_, r.inputTypes[j], !SwitchedOff(settings, r.moduleName, r.function_))
  }

  lemma RowsHave(r: Registered, settings: Settings, j: nat)
    requires r.function_ != "" && j < |r.inputTypes|
    ensures j < |RowsOf(r, settings)| && RowsOf(r, settings)[j] == RowAt(r, settings, j)
  {
  }

  lemma {:induction false} RowsInTable(regs: seq<Registered>, settings: Settings, i: nat, j: nat)
    requires i < |regs| && regs[i].function_ != "" && j < |regs[i].inputTypes|
    ensures exists k :: 0 <= k < |TableOf(regs, settings)| && TableOf(regs, settings)[k] == RowAt(regs[i], settings, j)
    decreases |regs|
  {
    hide RowsOf;
    var n := |regs| - 1;
    var table, last := TableOf(regs[..n], settings), RowsOf(regs[n], settings);
    assert TableOf(regs, settings) == table + last;
    if i < n {
      RowsInTable(regs[..n], settings, i, j);
      var k :| 0 <= k < |table| && table[k] == RowAt(regs[i], settings, j);
      assert (table + last)[k] == table[k];
    } else {
      RowsHave(regs[n], settings, j);
      assert (table + last)[|table| + j] == last[j];
    }
  }

  /** The table may offer more than the index, which asks for an explicit switch; never less. */
  lemma IndexWithinTable(index: Index, regs: seq<Registered>, settings: Settings, t: string, e: Entry)
    requires IndexIs(index, regs, settings) && ListsEntry(index, t, e)
    ensures e.functions != [] && e.functions[0] != "" && |e.functions| == 1
    ensures Offered(TableOf(regs, settings), t, e.moduleName, e.functions[0])
  {
    var i :| 0 <= i < |regs| && Provides(regs[i], settings, t, e);
    var j :| 0 <= j < |regs[i].inputTypes| && regs[i].inputTypes[j] == t;
    RowsInTable(regs, settings, i, j);
  }

  // ------------------------------------------------------------ actionable functions

  /** The first entry of the module that has the function. */
  function FirstEntry(entries: seq<Entry>, m: string, f: string): (i: nat)
    ensures i <= |entries|
    ensures i < |entries| ==> entries[i].moduleName == m && f in entries[i].functions
    ensures forall k :: 0 <= k < i ==> !(entries[k].moduleName == m && f in entries[k].functions)
  {
    if entries == [] then 0
    else if entries[0].moduleName == m && f in entries[0].functions then 0
    else
      assert forall k :: 0 < k < |entries| ==> entries[1..][k - 1] == entries[k];
      1 + FirstEntry(entries[1..], m, f)
  }

  predicate Actionable(index: Index, etype: string, m: string, f: string, tags: seq<string>) {
    etype in index &&
    var i := FirstEntry(index[etype], m, f);
    i < |index[etype]| && TagsMatch(tags, index[etype][i].rules)
  }

  method IsActionable(index: Index, etype: string, m: string, f: string, tags: seq<string>) returns (ok: bool)
    ensures ok <==> Actionable(index, etype, m, f, tags)
  {
    if etype !in index {
      return false;
    }
    var entries := index[etype];
    for i := 0 to |entries|
      invariant FirstEntry(entries, m, f) >= i
    {
      if entries[i].moduleName == m {
        for j := 0 to |entries[i].functions|
          invariant f !in entries[i].functions[..j]
        {
          if entries[i].functions[j] == f {
            assert FirstEntry(entries, m, f) == i;
            ok := MatchTags(tags, entries[i].rules);
            return;
          }
        }
        assert entries[i].functions[..|entries[i].functions|] == entries[i].functions;
      }
      assert FirstEntry(entries, m, f) != i;
    }
    ok := false;
  }

  /** Entries of one type that share module and function share their tag rules. */
  predicate Coherent(index: Index) {
    forall t, i, j ::
      t in index && 0 <= i < |index[t]| && 0 <= j < |index[t]| && SameFunction(index[t][i], index[t][j]) ==>
        index[t][i].rules == index[t][j].rules
  }

  predicate SameFunction(a: Entry, b: Entry) {
    a.moduleName == b.moduleName && exists f <- a.functions :: f in b.functions
  }

  lemma LoadedIndexCoherent(index: Index, regs: seq<Registered>, settings: Settings)
    requires IndexIs(index, regs, settings)
    requires forall i, j :: 0 <= i < j < |regs| ==>
               regs[i].moduleName != regs[j].moduleName || regs[i].function_ != regs[j].function_
    ensures Coherent(index)
  {
    forall t, i, j | t in index && 0 <= i < |index[t]| && 0 <= j < |index[t]| && SameFunction(index[t][i], index[t][j])
      ensures index[t][i].rules == index[t][j].rules
    {
      var a, b := index[t][i], index[t][j];
      assert ListsEntry(index, t, a) && ListsEntry(index, t, b);
      var x :| 0 <= x < |regs| && Provides(regs[x], settings, t, a);
      var y :| 0 <= y < |regs| && Provides(regs[y], settings, t, b);
      assert x == y;
    }
  }

  // ------------------------------------------------------------ one item

  predicate ItemAllowed(item: WorkItem, limits: Limits) {
    !item.outOfScope && (if limits.strictDepth then item.strict else item.relaxed) <= limits.maxDepth
  }

  predicate Selects(item: WorkItem, e: Entry, mf: ModuleFunction) {
    e.moduleName == mf.moduleName && mf.function_ in e.functions && TagsMatch(item.tags, e.rules)
  }

  /** The item leads to running `mf`, if nobody else is running it already. */
  predicate WouldRun(item: WorkItem, index: Index, limits: Limits, mf: ModuleFunction) {
    && ItemAllowed(item, limits) && item.etype in index && mf !in item.completed
    && exists i :: 0 <= i < |index[item.etype]| && Selects(item, index[item.etype][i], mf)
  }

  /** What is running right now: module functions on an entity row. */
  datatype FlightKey = FlightKey(entityID: nat, etype: string, value: string, mf: ModuleFunction)

  function KeyFor(item: WorkItem, mf: ModuleFunction): FlightKey {
    FlightKey(item.entityID, item.etype, item.value, mf)
  }

  function KeysFor(item: WorkItem, mfs: seq<ModuleFunction>): set<FlightKey> {
    set mf | mf in mfs :: KeyFor(item, mf)
  }

  predicate Distinct(mfs: seq<ModuleFunction>) {
    forall i, j :: 0 <= i < j < |mfs| ==> mfs[i] != mfs[j]
  }

  /** Runs every selected function once, unless it is completed or in flight, or its module fails to
      name its capabilities; keys taken for such a module are given back. */
  method DispatchItem(item: WorkItem, index: Index, limits: Limits, answers: string -> bool, inFlight: set<FlightKey>)
    returns (runs: seq<ModuleFunction>, inFlight': set<FlightKey>)
    ensures forall mf :: mf in runs <==>
              && WouldRun(item, index, limits, mf) && answers(mf.moduleName)
              && FlightKey(item.entityID, item.etype, item.value, mf) !in inFlight
    ensures Distinct(runs)
    ensures inFlight' == inFlight + set mf | mf in runs :: FlightKey(item.entityID, item.etype, item.value, mf)
  {
    runs, inFlight' := [], inFlight;
    if item.outOfScope {
      return;
    }
    var currentDepth := if limits.strictDepth then item.strict else item.relaxed;
    if currentDepth > limits.maxDepth || item.etype !in index || index[item.etype] == [] {
      return;
    }
    var entries := index[item.etype];
    for i := 0 to |entries|
      invariant forall mf :: mf in runs <==>
                  && mf !in item.completed && KeyFor(item, mf) !in inFlight && answers(mf.moduleName)
                  && exists k :: 0 <= k < i && Selects(item, entries[k], mf)
      invariant Distinct(runs) && inFlight' == inFlight + KeysFor(item, runs)
    {
      var matches := MatchTags(item.tags, entries[i].rules);
      if matches {
        var more;
        more, inFlight' := DispatchEntry(item, entries[i], answers, inFlight');
        MoreRuns(item, runs, more, inFlight);
        runs := runs + more;
      }
    }
  }

  lemma MoreRuns(item: WorkItem, runs: seq<ModuleFunction>, more: seq<ModuleFunction>, inFlight: set<FlightKey>)
    requires Distinct(runs) && Distinct(more)
             && forall mf <- more :: KeyFor(item, mf) !in inFlight + KeysFor(item, runs)
    ensures Distinct(runs + more)
    ensures inFlight + KeysFor(item, runs) + KeysFor(item, more) == inFlight + KeysFor(item, runs + more)
  {
    forall i, j | 0 <= i < j < |runs + more| ensures (runs + more)[i] != (runs + more)[j] {
      if i < |runs| <= j {
        assert runs[i] in runs && more[j - |runs|] in more;
        assert KeyFor(item, runs[i]) in KeysFor(item, runs);
      }
    }
    assert forall mf :: mf in runs + more <==> mf in runs || mf in more;
  }

  /** The functions of one entry whose tag rules hold. */
  method DispatchEntry(item: WorkItem, e: Entry, answers: string -> bool, inFlight: set<FlightKey>)
    returns (pending: seq<ModuleFunction>, inFlight': set<FlightKey>)
    requires TagsMatch(item.tags, e.rules)
    ensures forall mf :: mf in pending <==>
              Selects(item, e, mf) && mf !in item.completed && answers(e.moduleName) && KeyFor(item, mf) !in inFlight
    ensures Distinct(pending) && inFlight' == inFlight + KeysFor(item, pending)
  {
    pending, inFlight' := [], inFlight;
    for j := 0 to |e.functions|
      invariant forall mf :: mf in pending <==>
                  mf.moduleName == e.moduleName && mf.function_ in e.functions[..j] && mf !in item.completed
                      && KeyFor(item, mf) !in inFlight
      invariant Distinct(pending) && inFlight' == inFlight + KeysFor(item, pending)
    {
      var mf := ModuleFunction(e.moduleName, e.functions[j]);
      assert e.functions[..j + 1] == e.functions[..j] + [e.functions[j]];
      if mf !in item.completed && KeyFor(item, mf) !in inFlight' {
        assert mf !in pending;
        pending, inFlight' := pending + [mf], inFlight' + {KeyFor(item, mf)};
      }
    }
    assert e.functions[..|e.functions|] == e.functions;
    if pending != [] && !answers(e.moduleName) {
      inFlight' := inFlight' - KeysFor(item, pending);
      pending := [];
    }
  }

  // ------------------------------------------------------------ registration

  /** What a module may say of itself, or of one of its functions. */
  datatype Tuning = Tuning(inputTypes: seq<string>, requiredTags: seq<seq<string>>)

  datatype Capabilities = Capabilities(
    inputTypes: seq<string>, functions: seq<string>, moduleConfig: Option<Tuning>, custom: map<string, Tuning>)

  /** A module that fails to name its capabilities has none here. */
  datatype Module = Module(name: string, caps: Option<Capabilities>)

  function FirstNonEmpty<T>(lists: seq<seq<T>>): seq<T> {
    if lists == [] then [] else if lists[0] != [] then lists[0] else FirstNonEmpty(lists[1..])
  }

  function CustomTypes(caps: Capabilities, fn: string): seq<string> {
    if fn in caps.custom then caps.custom[fn].inputTypes else []
  }

  function ModuleTypes(caps: Capabilities): seq<string> {
    if caps.moduleConfig.Some? then caps.moduleConfig.value.inputTypes else []
  }

  /** The most specific list that is not empty: the function's, the module's, the contract's. */
  function TypesFor(caps: Capabilities, fn: string): seq<string> {
    FirstNonEmpty([CustomTypes(caps, fn), ModuleTypes(caps), caps.inputTypes])
  }

  function TagsFor(caps: Capabilities, fn: string): seq<seq<string>> {
    FirstNonEmpty([if fn in caps.custom then caps.custom[fn].requiredTags else [],
                   if caps.moduleConfig.Some? then caps.moduleConfig.value.requiredTags else []])
  }

  lemma FirstOfThree<T>(a: seq<T>, b: seq<T>, c: seq<T>)
    ensures FirstNonEmpty([a, b, c]) == if a != [] then a else if b != [] then b else c
    ensures FirstNonEmpty([a, b]) == if a != [] then a else b
  {
    assert [a, b, c][1..] == [b, c] && [b, c][1..] == [c] && [c][1..] == [] && [a, b][1..] == [b] && [b][1..] == [];
    assert FirstNonEmpty([c]) == c && FirstNonEmpty([b]) == b;
    assert FirstNonEmpty([b, c]) == if b != [] then b else c;
  }

  /** The cascade as the index is loaded: each more specific list overrides. */
  method CascadeFor(caps: Capabilities, fn: string) returns (types: seq<string>, tags: seq<seq<string>>)
    ensures types == TypesFor(caps, fn) && tags == TagsFor(caps, fn)
  {
    types, tags := [], [];
    if caps.inputTypes != [] {
      types := caps.inputTypes;
    }
    if caps.moduleConfig.Some? {
      var config := caps.moduleConfig.value;
      if config.inputTypes != [] {
        types := config.inputTypes;
      }
      if config.requiredTags != [] {
        tags := config.requiredTags;
      }
    }
    if fn in caps.custom {
      if caps.custom[fn].inputTypes != [] {
        types := caps.custom[fn].inputTypes;
      }
      if caps.custom[fn].requiredTags != [] {
        tags := caps.custom[fn].requiredTags;
      }
    }
    FirstOfThree(CustomTypes(caps, fn), ModuleTypes(caps), caps.inputTypes);
    FirstOfThree<seq<string>>(if fn in caps.custom then caps.custom[fn].requiredTags else [],
                 if caps.moduleConfig.Some? then caps.moduleConfig.value.requiredTags else [], []);
  }

  /** The cascade as a call is dispatched, for the types that an applied mark is judged by: it gives
      the very types that the function is indexed under. */
  method InputTypesFor(caps: Capabilities, fn: string) returns (types: seq<string>)
    ensures types == TypesFor(caps, fn)
  {
    FirstOfThree(CustomTypes(caps, fn), ModuleTypes(caps), caps.inputTypes);
    if fn in caps.custom && caps.custom[fn].inputTypes != [] {
      types := caps.custom[fn].inputTypes;
    } else if caps.moduleConfig.Some? && caps.moduleConfig.value.inputTypes != [] {
      types := caps.moduleConfig.value.inputTypes;
    } else {
      types := caps.inputTypes;
    }
  }

  function OfferedFunctions(caps: Capabilities): set<string> {
    Elements(caps.functions) + caps.custom.Keys
  }

  predicate Registers(m: Module, r: Registered) {
    && m.caps.Some? && r.moduleName == m.name
    && if OfferedFunctions(m.caps.value) == {} then r == Registered(m.name, "", [], [])
       else r.function_ in OfferedFunctions(m.caps.value)
            && r.inputTypes == TypesFor(m.caps.value, r.function_) && r.rawTags == TagsFor(m.caps.value, r.function_)
  }

  predicate DistinctFunctions(regs: seq<Registered>) {
    forall i, j :: 0 <= i < j < |regs| ==>
          regs[i].moduleName != regs[j].moduleName || regs[i].function_ != regs[j].function_
  }

  /** Every function of a module, declared or custom, once, in whatever order the set is walked. */
  method RegisterModule(m: Module) returns (regs: seq<Registered>)
    ensures forall r :: r in regs <==> Registers(m, r)
    ensures DistinctFunctions(regs)
  {
    regs := [];
    if m.caps.None? {
      return;
    }
    var caps := m.caps.value;
    var functions := OfferedFunctions(caps);
    if functions == {} {
      regs := [Registered(m.name, "", [], [])];
      return;
    }
    var todo := functions;
    while todo != {}
      invariant todo <= functions
      invariant forall r :: r in regs <==> Registers(m, r) && r.function_ !in todo
      invariant DistinctFunctions(regs)
      decreases |todo|
    {
      var fn :| fn in todo;
      var types, tags := CascadeFor(caps, fn);
      var r := Registered(m.name, fn, types, tags);
      forall i | 0 <= i < |regs| ensures regs[i].function_ != fn {
        assert regs[i] in regs;
      }
      todo := todo - {fn};
      regs := regs + [r];
    }
  }

  /** All modules that answer; with distinct names each function is registered once. */
  method RegisterAll(modules: seq<Module>) returns (regs: seq<Registered>)
    ensures forall r :: r in regs <==> exists i :: 0 <= i < |modules| && Registers(modules[i], r)
    ensures (forall i, j :: 0 <= i < j < |modules| ==> modules[i].name != modules[j].name) ==> DistinctFunctions(regs)
  {
    regs := [];
    for n := 0 to |modules|
      invariant forall r :: r in regs <==> exists i :: 0 <= i < n && Registers(modules[i], r)
      invariant (forall i, j :: 0 <= i < j < |modules| ==> modules[i].name != modules[j].name) ==>
                  DistinctFunctions(regs)
    {
      var more := RegisterModule(modules[n]);
      if forall i, j :: 0 <= i < j < |modules| ==> modules[i].name != modules[j].name {
        forall i, j | 0 <= i < |regs| && 0 <= j < |more| ensures regs[i].moduleName != more[j].moduleName {
          assert regs[i] in regs && more[j] in more;
        }
      }
      regs := regs + more;
    }
  }
}
