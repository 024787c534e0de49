/**
 Status and resume read the same tables by different queries.  The module functions that the
 status lists as pending are exactly those that dispatching the resume payload runs.
 */
module Resume {
  import opened Schema
  import opened Tags
  import opened Database
  import opened Dispatcher

  /** The order in which an entity's tags come out of the tags table. */
  type TagLists = nat -> seq<string>

  ghost predicate ListsTags(db: Db, lists: TagLists) {
    forall id, t :: id in db.rows ==> (t in lists(id) <==> (id, t) in db.tags)
  }

  /** The join that both queries make: a live row, an offered function, no log row. */
  predicate Pending(db: Db, table: seq<ModuleRow>, id: nat, mf: ModuleFunction) {
    && id in db.rows && !db.rows[id].isAnchor && !EffectiveScope(db, db.rows[id])
    && mf.function_ != "" && Offered(table, db.rows[id].etype, mf.moduleName, mf.function_)
    && LogKey(id, mf.moduleName, mf.function_) !in db.logs
  }

  // ------------------------------------------------------------ status

  /** One row of the pending query; the tags come as one comma-joined column. */
  datatype PendingRow = PendingRow(mf: ModuleFunction, etype: string, tagColumn: string, strict: nat, relaxed: nat)

  function PendingRowFor(db: Db, lists: TagLists, id: nat, mf: ModuleFunction): PendingRow
    requires id in db.rows
  {
    PendingRow(mf, db.rows[id].etype, Join(lists(id)), db.rows[id].strict, EffectiveRelaxed(db, db.rows[id]))
  }

  ghost predicate PendingRowsOf(db: Db, table: seq<ModuleRow>, lists: TagLists, rows: seq<PendingRow>) {
    forall row :: row in rows <==>
          exists id, mf :: Pending(db, table, id, mf) && row == PendingRowFor(db, lists, id, mf)
  }

  predicate RowCounts(row: PendingRow, index: Index, limits: Limits) {
    && (if limits.strictDepth then row.strict else row.relaxed) <= limits.maxDepth
    && Actionable(index, row.etype, row.mf.moduleName, row.mf.function_, ReadTags(row.tagColumn))
  }

  function TaskName(mf: ModuleFunction): string {
    mf.moduleName + ":" + mf.function_
  }

  method ProjectStatus(rows: seq<PendingRow>, index: Index, limits: Limits) returns (pending: set<string>)
    ensures forall s :: s in pending <==>
              exists i :: 0 <= i < |rows| && RowCounts(rows[i], index, limits) && s == TaskName(rows[i].mf)
  {
    pending := {};
    for n := 0 to |rows|
      invariant forall s :: s in pending <==>
                  exists i :: 0 <= i < n && RowCounts(rows[i], index, limits) && s == TaskName(rows[i].mf)
    {
      var currentDepth := if limits.strictDepth then rows[n].strict else rows[n].relaxed;
      if currentDepth <= limits.maxDepth {
        var tags := ReadTags(rows[n].tagColumn);
        var ok := IsActionable(index, rows[n].etype, rows[n].mf.moduleName, rows[n].mf.function_, tags);
        if ok {
          pending := pending + {TaskName(rows[n].mf)};
        }
      }
    }
  }

  // ------------------------------------------------------------ resume

  /** The item that the resume payload holds for an entity. */
  ghost predicate ResumeItem(db: Db, lists: TagLists, item: WorkItem) {
    var id := item.entityID;
    && id in db.rows && item.etype == db.rows[id].etype && item.value == db.rows[id].value
    && item.tags == lists(id) && item.outOfScope == EffectiveScope(db, db.rows[id])
    && item.strict == db.rows[id].strict && item.relaxed == EffectiveRelaxed(db, db.rows[id])
    && forall mf :: mf in item.completed <==> LogKey(id, mf.moduleName, mf.function_) in db.logs
  }

  /** One item for every entity that has anything pending, and for no other. */
  ghost predicate ResumePayload(db: Db, table: seq<ModuleRow>, lists: TagLists, items: seq<WorkItem>) {
    && (forall i :: 0 <= i < |items| ==>
         ResumeItem(db, lists, items[i]) && exists mf :: Pending(db, table, items[i].entityID, mf))
    && (forall id, mf :: Pending(db, table, id, mf) ==> exists i :: 0 <= i < |items| && items[i].entityID == id)
    && forall i, j :: 0 <= i < j < |items| ==> items[i].entityID != items[j].entityID
  }

  /** Dispatches the whole payload with nothing in flight. */
  method DispatchAll(items: seq<WorkItem>, index: Index, limits: Limits,
      answers: string -> bool) returns (ran: set<ModuleFunction>)
    requires forall i, j :: 0 <= i < j < |items| ==> items[i].entityID != items[j].entityID
    ensures forall mf :: mf in ran <==>
              answers(mf.moduleName) && exists i :: 0 <= i < |items| && WouldRun(items[i], index, limits, mf)
  {
    ran := {};
    var inFlight: set<FlightKey> := {};
    for n := 0 to |items|
      invariant forall mf :: mf in ran <==>
                  answers(mf.moduleName) && exists i :: 0 <= i < n && WouldRun(items[i], index, limits, mf)
      invariant forall key <- inFlight :: exists i :: 0 <= i < n && key.entityID == items[i].entityID
    {
      var runs, inFlight' := DispatchItem(items[n], index, limits, answers, inFlight);
      ran := ran + set mf | mf in runs;
      inFlight := inFlight';
    }
  }

  // ------------------------------------------------------------ they agree

  /** Index and table were loaded from the same registrations, each function registered once. */
  ghost predicate Synced(index: Index, table: seq<ModuleRow>, regs: seq<Registered>, settings: Settings) {
    && IndexIs(index, regs, settings) && table == TableOf(regs, settings)
    && DistinctFunctions(regs)
  }

  lemma ColumnKeepsMatch(db: Db, a: TagLists, b: TagLists, id: nat, rules: seq<TagRule>)
    requires TagsOK(db) && ListsTags(db, a) && ListsTags(db, b) && id in db.rows
    ensures TagsMatch(ReadTags(Join(a(id))), rules) == TagsMatch(b(id), rules)
  {
    forall i | 0 <= i < |a(id)| ensures ValidTag(a(id)[i]) {
      assert a(id)[i] in a(id);
    }
    ValidTagsSurvive(a(id));
    TagOrderIrrelevant(a(id), b(id), rules);
  }

  lemma StatusRuns(
    db: Db, index: Index, table: seq<ModuleRow>, regs: seq<Registered>, settings: Settings, limits: Limits,
    a: TagLists, b: TagLists, items: seq<WorkItem>, id: nat, mf: ModuleFunction)
    requires Synced(index, table, regs, settings) && TagsOK(db) && ListsTags(db, a) && ListsTags(db, b)
    requires ResumePayload(db, table, b, items)
    requires Pending(db, table, id, mf) && RowCounts(PendingRowFor(db, a, id, mf), index, limits)
    ensures exists i :: 0 <= i < |items| && WouldRun(items[i], index, limits, mf)
  {
    var i :| 0 <= i < |items| && items[i].entityID == id;
    var entries := index[db.rows[id].etype];
    var k := FirstEntry(entries, mf.moduleName, mf.function_);
    ColumnKeepsMatch(db, a, b, id, entries[k].rules);
    assert Selects(items[i], entries[k], mf);
  }

  lemma RunIsInStatus(
    db: Db, index: Index, table: seq<ModuleRow>, regs: seq<Registered>, settings: Settings, limits: Limits,
    a: TagLists, b: TagLists, item: WorkItem, mf: ModuleFunction)
    requires Synced(index, table, regs, settings) && TagsOK(db) && ListsTags(db, a) && ListsTags(db, b)
    requires ResumeItem(db, b, item) && WouldRun(item, index, limits, mf)
    requires exists x :: Pending(db, table, item.entityID, x)
    ensures Pending(db, table, item.entityID, mf) && RowCounts(PendingRowFor(db, a, item.entityID, mf), index, limits)
  {
    var id := item.entityID;
    var entries := index[item.etype];
    var k :| 0 <= k < |entries| && Selects(item, entries[k], mf);
    assert ListsEntry(index, item.etype, entries[k]);
    IndexWithinTable(index, regs, settings, item.etype, entries[k]);
    var n := FirstEntry(entries, mf.moduleName, mf.function_);
    LoadedIndexCoherent(index, regs, settings);
    assert SameFunction(entries[n], entries[k]);
    ColumnKeepsMatch(db, a, b, id, entries[n].rules);
  }

  lemma RowOrigin(db: Db, table: seq<ModuleRow>, lists: TagLists, rows: seq<PendingRow>, i: nat) returns (id: nat)
    requires PendingRowsOf(db, table, lists, rows) && i < |rows|
    ensures Pending(db, table, id, rows[i].mf) && id in db.rows && rows[i] == PendingRowFor(db, lists, id, rows[i].mf)
  {
    assert rows[i] in rows;
    var x: ModuleFunction;
    id, x :| Pending(db, table, id, x) && rows[i] == PendingRowFor(db, lists, id, x);
  }

  lemma RowListed(db: Db, table: seq<ModuleRow>, lists: TagLists, rows: seq<PendingRow>, id: nat,
      mf: ModuleFunction) returns (k: nat)
    requires PendingRowsOf(db, table, lists, rows) && Pending(db, table, id, mf)
    ensures id in db.rows && k < |rows| && rows[k] == PendingRowFor(db, lists, id, mf)
  {
    assert PendingRowFor(db, lists, id, mf) in rows;
    k :| 0 <= k < |rows| && rows[k] == PendingRowFor(db, lists, id, mf);
  }

  /** The pending set that is reported is exactly what dispatching the resume payload runs. */
  lemma StatusAgreesWithResume(
    db: Db, index: Index, table: seq<ModuleRow>, regs: seq<Registered>, settings: Settings, limits: Limits,
    a: TagLists, b: TagLists, rows: seq<PendingRow>, items: seq<WorkItem>, mf: ModuleFunction)
    requires Synced(index, table, regs, settings) && TagsOK(db) && ListsTags(db, a) && ListsTags(db, b)
    requires PendingRowsOf(db, table, a, rows) && ResumePayload(db, table, b, items)
    ensures (exists i :: 0 <= i < |rows| && rows[i].mf == mf && RowCounts(rows[i], index, limits))
            <==> exists i :: 0 <= i < |items| && WouldRun(items[i], index, limits, mf)
  {
    hide Synced, TagsOK, ListsTags, WouldRun, RowCounts, Pending, ResumeItem;
    if exists i :: 0 <= i < |rows| && rows[i].mf == mf && RowCounts(rows[i], index, limits) {
      var i :| 0 <= i < |rows| && rows[i].mf == mf && RowCounts(rows[i], index, limits);
      var id := RowOrigin(db, table, a, rows, i);
      StatusRuns(db, index, table, regs, settings, limits, a, b, items, id, mf);
    }
    if exists i :: 0 <= i < |items| && WouldRun(items[i], index, limits, mf) {
      var i :| 0 <= i < |items| && WouldRun(items[i], index, limits, mf);
      var id := items[i].entityID;
      RunIsInStatus(db, index, table, regs, settings, limits, a, b, items[i], mf);
      var k := RowListed(db, table, a, rows, id, mf);
    }
  }

  /** As the two calls report it: the status lists the names of all that resuming runs, and if every
      module still answers, no others. */
  lemma StatusNamesWhatRuns(
    db: Db, index: Index, table: seq<ModuleRow>, regs: seq<Registered>, settings: Settings, limits: Limits,
        answers: string -> bool,
    a: TagLists, b: TagLists, rows: seq<PendingRow>, items: seq<WorkItem>, pending: set<string>,
        ran: set<ModuleFunction>)
    requires Synced(index, table, regs, settings) && TagsOK(db) && ListsTags(db, a) && ListsTags(db, b)
    requires PendingRowsOf(db, table, a, rows) && ResumePayload(db, table, b, items)
    requires forall s :: s in pending <==>
               exists i :: 0 <= i < |rows| && RowCounts(rows[i], index, limits) && s == TaskName(rows[i].mf)
    requires forall mf :: mf in ran <==>
               answers(mf.moduleName) && exists i :: 0 <= i < |items| && WouldRun(items[i], index, limits, mf)
    ensures (set mf | mf in ran :: TaskName(mf)) <= pending
    ensures (forall i :: 0 <= i < |rows| ==> answers(rows[i].mf.moduleName)) ==>
              pending == set mf | mf in ran :: TaskName(mf)
  {
    hide Synced, TagsOK, ListsTags, PendingRowsOf, ResumePayload, WouldRun, RowCounts;
    forall s | s in pending && forall i :: 0 <= i < |rows| ==> answers(rows[i].mf.moduleName)
      ensures exists mf :: mf in ran && s == TaskName(mf)
    {
      var i :| 0 <= i < |rows| && RowCounts(rows[i], index, limits) && s == TaskName(rows[i].mf);
      StatusAgreesWithResume(db, index, table, regs, settings, limits, a, b, rows, items, rows[i].mf);
      assert rows[i].mf in ran;
    }
    forall mf | mf in ran ensures TaskName(mf) in pending {
      StatusAgreesWithResume(db, index, table, regs, settings, limits, a, b, rows, items, mf);
    }
  }
}
