/**
 Which functions an item leads to, and which the status reports, told from what the modules say of
 themselves, the settings, and the tables: without the index, the tag rules or the join in between.
 */
module DispatchMeaning {
  import opened Schema
  import opened Tags
  import opened Database
  import opened Dispatcher
  import opened Resume

  // ------------------------------------------------------------ what the modules say

  /** The function's own list of input types, unless it has none; then the module's; then the contract's. */
  predicate TakesType(caps: Capabilities, fn: string, etype: string) {
    if fn in caps.custom && caps.custom[fn].inputTypes != [] then etype in caps.custom[fn].inputTypes
    else if caps.moduleConfig.Some? && caps.moduleConfig.value.inputTypes != [] then
      etype in caps.moduleConfig.value.inputTypes
    else etype in caps.inputTypes
  }

  /** Every tag of the group is there, and none that it puts an exclamation mark before. */
  predicate GroupMet(tags: seq<string>, group: seq<string>) {
    forall k :: 0 <= k < |group| ==>
      if group[k] != "" && group[k][0] == '!' then group[k][1..] !in tags else group[k] in tags
  }

  predicate AnyGroupMet(tags: seq<string>, groups: seq<seq<string>>) {
    exists i :: 0 <= i < |groups| && GroupMet(tags, groups[i])
  }

  /** One of the function's tag groups is met, or it has none and one of the module's is, or there is
      no group at all. */
  predicate TagsAllow(caps: Capabilities, fn: string, tags: seq<string>) {
    if fn in caps.custom && caps.custom[fn].requiredTags != [] then AnyGroupMet(tags, caps.custom[fn].requiredTags)
    else if caps.moduleConfig.Some? && caps.moduleConfig.value.requiredTags != [] then
      AnyGroupMet(tags, caps.moduleConfig.value.requiredTags)
    else true
  }

  predicate Names(caps: Capabilities, fn: string) {
    fn in caps.functions || fn in caps.custom
  }

  predicate SwitchedOnFor(settings: Settings, mf: ModuleFunction) {
    mf.moduleName in settings && mf.function_ in settings[mf.moduleName] && settings[mf.moduleName][mf.function_]
  }

  /** Some module of that name answers, has the function, takes the type and allows the tags; and the
      function is switched on. */
  predicate Serves(modules: seq<Module>, settings: Settings, mf: ModuleFunction, etype: string, tags: seq<string>) {
    && mf.function_ != "" && SwitchedOnFor(settings, mf)
    && exists i :: 0 <= i < |modules| && ModuleServes(modules[i], mf, etype, tags)
  }

  predicate ModuleServes(m: Module, mf: ModuleFunction, etype: string, tags: seq<string>) {
    && m.name == mf.moduleName && m.caps.Some? && Names(m.caps.value, mf.function_)
    && TakesType(m.caps.value, mf.function_, etype) && TagsAllow(m.caps.value, mf.function_, tags)
  }

  // ------------------------------------------------------------ the index in these terms

  /** The registrations are those of the modules, and the index is loaded from them. */
  ghost predicate LoadedFrom(index: Index, modules: seq<Module>, regs: seq<Registered>, settings: Settings) {
    && IndexIs(index, regs, settings)
    && forall r :: r in regs <==> exists i :: 0 <= i < |modules| && Registers(modules[i], r)
  }

  lemma TypesMeaning(caps: Capabilities, fn: string, etype: string)
    ensures etype in TypesFor(caps, fn) <==> TakesType(caps, fn, etype)
  {
    FirstOfThree(CustomTypes(caps, fn), ModuleTypes(caps), caps.inputTypes);
  }

  lemma GroupsMeaning(rawTags: seq<seq<string>>, tags: seq<string>)
    ensures TagsMatch(tags, RulesOf(rawTags)) <==> rawTags == [] || AnyGroupMet(tags, rawTags)
  {
    RulesMeaning(tags, rawTags);
    forall i | 0 <= i < |rawTags| ensures RuleHolds(tags, RulesOf(rawTags)[i]) <==> GroupMet(tags, rawTags[i]) {
      var group := rawTags[i];
      assert (forall raw <- group :: RawHolds(tags, raw)) <==> GroupMet(tags, group) by {
        if GroupMet(tags, group) {
          forall raw | raw in group ensures RawHolds(tags, raw) {
            var k :| 0 <= k < |group| && group[k] == raw;
          }
        }
        if forall raw <- group :: RawHolds(tags, raw) {
          forall k | 0 <= k < |group|
            ensures if group[k] != "" && group[k][0] == '!' then group[k][1..] !in tags else group[k] in tags
          {
            assert group[k] in group;
          }
        }
      }
    }
    hide RuleHolds, GroupMet, RulesOf;
  }

  lemma TagsMeaning(caps: Capabilities, fn: string, tags: seq<string>)
    ensures TagsMatch(tags, RulesOf(TagsFor(caps, fn))) <==> TagsAllow(caps, fn, tags)
  {
    FirstOfThree<seq<string>>(if fn in caps.custom then caps.custom[fn].requiredTags else [],
                 if caps.moduleConfig.Some? then caps.moduleConfig.value.requiredTags else [], []);
    GroupsMeaning(TagsFor(caps, fn), tags);
    hide RulesOf, TagsMatch, AnyGroupMet;
  }

  /** A registration serves exactly when its module does. */
  lemma RegistrationMeaning(m: Module, r: Registered, etype: string, tags: seq<string>)
    requires Registers(m, r) && r.function_ != ""
    ensures etype in r.inputTypes && TagsMatch(tags, RulesOf(r.rawTags))
            <==> ModuleServes(m, ModuleFunction(r.moduleName, r.function_), etype, tags)
  {
    var caps := m.caps.value;
    TypesMeaning(caps, r.function_, etype);
    TagsMeaning(caps, r.function_, tags);
    hide TypesFor, TagsFor, RulesOf, TagsMatch, TakesType, TagsAllow;
  }

  predicate EntryServes(e: Entry, mf: ModuleFunction, tags: seq<string>) {
    e.moduleName == mf.moduleName && mf.function_ in e.functions && TagsMatch(tags, e.rules)
  }

  predicate IndexServes(index: Index, mf: ModuleFunction, etype: string, tags: seq<string>) {
    etype in index && exists i :: 0 <= i < |index[etype]| && EntryServes(index[etype][i], mf, tags)
  }

  /** An entry of the index serves exactly when some module does. */
  lemma IndexMeaning(
    index: Index, modules: seq<Module>, regs: seq<Registered>, settings: Settings, mf: ModuleFunction, etype: string,
    tags: seq<string>)
    requires LoadedFrom(index, modules, regs, settings)
    ensures IndexServes(index, mf, etype, tags) <==> Serves(modules, settings, mf, etype, tags)
  {
    hide TagsMatch, RulesOf, ModuleServes, Registers;
    if IndexServes(index, mf, etype, tags) {
      var i :| 0 <= i < |index[etype]| && EntryServes(index[etype][i], mf, tags);
      assert ListsEntry(index, etype, index[etype][i]);
      var k :| 0 <= k < |regs| && Provides(regs[k], settings, etype, index[etype][i]);
      assert regs[k] in regs;
      var n :| 0 <= n < |modules| && Registers(modules[n], regs[k]);
      RegistrationMeaning(modules[n], regs[k], etype, tags);
      assert ModuleFunction(regs[k].moduleName, regs[k].function_) == mf;
    }
    if Serves(modules, settings, mf, etype, tags) {
      var n :| 0 <= n < |modules| && ModuleServes(modules[n], mf, etype, tags);
      var r := RegistrationFor(modules[n], mf, etype, tags);
      assert r in regs;
      var k :| 0 <= k < |regs| && regs[k] == r;
      RegistrationMeaning(modules[n], r, etype, tags);
      assert ModuleFunction(r.moduleName, r.function_) == mf;
      assert Provides(regs[k], settings, etype, EntryOf(r));
      assert ListsEntry(index, etype, EntryOf(r));
      var i :| 0 <= i < |index[etype]| && index[etype][i] == EntryOf(r);
    }
  }

  lemma RegistrationFor(m: Module, mf: ModuleFunction, etype: string, tags: seq<string>) returns (r: Registered)
    requires ModuleServes(m, mf, etype, tags) && mf.function_ != ""
    ensures Registers(m, r) && r.moduleName == mf.moduleName && r.function_ == mf.function_
  {
    var caps := m.caps.value;
    r := Registered(m.name, mf.function_, TypesFor(caps, mf.function_), TagsFor(caps, mf.function_));
    assert mf.function_ in OfferedFunctions(caps);
  }

  // ------------------------------------------------------------ one item

  predicate WithinDepth(strict: nat, relaxed: nat, limits: Limits) {
    if limits.strictDepth then strict <= limits.maxDepth else relaxed <= limits.maxDepth
  }

  /** For an index loaded from the modules: the item leads to a function exactly when it is in scope
      and within the depth limit, the function is not completed, and a module serves. */
  lemma RunsMeaning(
    index: Index, modules: seq<Module>, regs: seq<Registered>, settings: Settings, item: WorkItem, limits: Limits,
    mf: ModuleFunction)
    requires LoadedFrom(index, modules, regs, settings)
    ensures WouldRun(item, index, limits, mf) <==>
              && !item.outOfScope && WithinDepth(item.strict, item.relaxed, limits) && mf !in item.completed
              && Serves(modules, settings, mf, item.etype, item.tags)
  {
    IndexMeaning(index, modules, regs, settings, mf, item.etype, item.tags);
    hide Serves, TagsMatch, LoadedFrom;
    if item.etype in index {
      assert forall i :: 0 <= i < |index[item.etype]| ==>
               Selects(item, index[item.etype][i], mf) == EntryServes(index[item.etype][i], mf, item.tags);
    }
  }

  // ------------------------------------------------------------ the status

  /** With each function registered once, the first entry decides like any other. */
  lemma ActionableMeaning(
    index: Index, modules: seq<Module>, regs: seq<Registered>, settings: Settings, mf: ModuleFunction, etype: string,
    tags: seq<string>)
    requires LoadedFrom(index, modules, regs, settings) && DistinctFunctions(regs)
    ensures Actionable(index, etype, mf.moduleName, mf.function_, tags) <==> Serves(modules, settings, mf, etype, tags)
  {
    IndexMeaning(index, modules, regs, settings, mf, etype, tags);
    LoadedIndexCoherent(index, regs, settings);
    hide Serves, TagsMatch, IndexIs;
    if IndexServes(index, mf, etype, tags) {
      var entries := index[etype];
      var i :| 0 <= i < |entries| && EntryServes(entries[i], mf, tags);
      var n := FirstEntry(entries, mf.moduleName, mf.function_);
      assert SameFunction(entries[n], entries[i]);
    }
  }

  /** An entity calls for a function: it is no mere anchor and not blocked, within the depth limit, a
      module serves its type and tags, and the log has no row for it. */
  predicate CallsFor(
    db: Db, modules: seq<Module>, settings: Settings, limits: Limits, lists: TagLists, id: nat, mf: ModuleFunction)
  {
    && id in db.rows && !db.rows[id].isAnchor && !BlockedNow(db, db.rows[id])
    && WithinDepth(db.rows[id].strict,
         if db.rows[id].anchor.Some? && db.rows[id].anchor.value in db.rows
         then db.rows[db.rows[id].anchor.value].relaxed
         else db.rows[id].relaxed, limits)
    && Serves(modules, settings, mf, db.rows[id].etype, lists(id))
    && LogKey(id, mf.moduleName, mf.function_) !in db.logs
  }

  lemma OfferedWhenServed(
    index: Index, table: seq<ModuleRow>, modules: seq<Module>, regs: seq<Registered>, settings: Settings,
    mf: ModuleFunction, etype: string, tags: seq<string>)
    requires LoadedFrom(index, modules, regs, settings) && table == TableOf(regs, settings)
    requires Serves(modules, settings, mf, etype, tags)
    ensures Offered(table, etype, mf.moduleName, mf.function_)
  {
    IndexMeaning(index, modules, regs, settings, mf, etype, tags);
    hide Serves, TagsMatch, LoadedFrom;
    assert IndexIs(index, regs, settings);
    var i :| 0 <= i < |index[etype]| && EntryServes(index[etype][i], mf, tags);
    IndexWithinTable(index, regs, settings, etype, index[etype][i]);
  }

  /** The tag column is read back as it was joined. */
  lemma ServesByColumn(
    db: Db, modules: seq<Module>, settings: Settings, lists: TagLists, id: nat, mf: ModuleFunction)
    requires TagsOK(db) && ListsTags(db, lists) && id in db.rows
    ensures Serves(modules, settings, mf, db.rows[id].etype, ReadTags(Join(lists(id))))
            == Serves(modules, settings, mf, db.rows[id].etype, lists(id))
  {
    forall i | 0 <= i < |lists(id)| ensures ValidTag(lists(id)[i]) {
      assert lists(id)[i] in lists(id);
    }
    ValidTagsSurvive(lists(id));
  }

  /** The status counts a function exactly when some entity calls for it. */
  lemma StatusMeaning(
    db: Db, index: Index, table: seq<ModuleRow>, modules: seq<Module>, regs: seq<Registered>, settings: Settings,
    limits: Limits, lists: TagLists, rows: seq<PendingRow>, mf: ModuleFunction)
    requires LoadedFrom(index, modules, regs, settings) && Synced(index, table, regs, settings)
    requires TagsOK(db) && ListsTags(db, lists) && PendingRowsOf(db, table, lists, rows)
    ensures (exists i :: 0 <= i < |rows| && rows[i].mf == mf && RowCounts(rows[i], index, limits))
            <==> exists id :: CallsFor(db, modules, settings, limits, lists, id, mf)
  {
    hide LoadedFrom, Synced, TagsOK, ListsTags, Pending, RowCounts;
    if i :| 0 <= i < |rows| && rows[i].mf == mf && RowCounts(rows[i], index, limits) {
      var id := RowOrigin(db, table, lists, rows, i);
      CountedCalls(db, index, table, modules, regs, settings, limits, lists, id, mf);
    }
    if id :| CallsFor(db, modules, settings, limits, lists, id, mf) {
      CountedCalls(db, index, table, modules, regs, settings, limits, lists, id, mf);
      var k := RowListed(db, table, lists, rows, id, mf);
    }
  }

  lemma CountedCalls(
    db: Db, index: Index, table: seq<ModuleRow>, modules: seq<Module>, regs: seq<Registered>, settings: Settings,
    limits: Limits, lists: TagLists, id: nat, mf: ModuleFunction)
    requires LoadedFrom(index, modules, regs, settings) && Synced(index, table, regs, settings)
    requires TagsOK(db) && ListsTags(db, lists)
    ensures (id in db.rows && Pending(db, table, id, mf) && RowCounts(PendingRowFor(db, lists, id, mf), index, limits))
            <==> CallsFor(db, modules, settings, limits, lists, id, mf)
  {
    if id in db.rows {
      var etype := db.rows[id].etype;
      ServesByColumn(db, modules, settings, lists, id, mf);
      ActionableMeaning(index, modules, regs, settings, mf, etype, ReadTags(Join(lists(id))));
      if Serves(modules, settings, mf, etype, lists(id)) {
        OfferedWhenServed(index, table, modules, regs, settings, mf, etype, lists(id));
      }
      assert Serves(modules, settings, mf, etype, lists(id)) ==> mf.function_ != "";
      hide LoadedFrom, Synced, TagsOK, ListsTags, Actionable, Serves, Offered, Join, ReadTags;
    }
  }

  /** And so does resuming: what dispatching the payload runs, if the modules answer, is what some
      entity calls for. */
  lemma ResumeMeaning(
    db: Db, index: Index, table: seq<ModuleRow>, modules: seq<Module>, regs: seq<Registered>, settings: Settings,
    limits: Limits, lists: TagLists, rows: seq<PendingRow>, items: seq<WorkItem>, mf: ModuleFunction)
    requires LoadedFrom(index, modules, regs, settings) && Synced(index, table, regs, settings)
    requires TagsOK(db) && ListsTags(db, lists) && PendingRowsOf(db, table, lists, rows)
    requires ResumePayload(db, table, lists, items)
    ensures (exists i :: 0 <= i < |items| && WouldRun(items[i], index, limits, mf))
            <==> exists id :: CallsFor(db, modules, settings, limits, lists, id, mf)
  {
    hide LoadedFrom, Synced, TagsOK, ListsTags, PendingRowsOf, ResumePayload, CallsFor, RowCounts, WouldRun;
    StatusMeaning(db, index, table, modules, regs, settings, limits, lists, rows, mf);
    StatusAgreesWithResume(db, index, table, regs, settings, limits, lists, lists, rows, items, mf);
  }

  /** A new project, whatever the depth limit: its target calls for all that the modules serve it
      with, and nothing else calls for anything. */
  lemma NewProjectCalls(
    etype: string, value: string, anchor: string, modules: seq<Module>, settings: Settings, limits: Limits,
    lists: TagLists, id: nat, mf: ModuleFunction)
    ensures var db := InitialDb(etype, value, anchor);
            CallsFor(db, modules, settings, limits, lists, id, mf)
            <==> id == db.target && Serves(modules, settings, mf, etype, lists(id))
  {
    hide Serves;
  }
}
