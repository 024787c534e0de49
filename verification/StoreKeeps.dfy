/**
 Every committed `Store` call keeps the database invariants.
 */
module StoreKeeps {
  import opened Schema
  import opened Tags
  import opened StoreBatch
  import opened StoreResult
  import opened StoreLog
  import opened DepthLoop
  import opened Database
  import opened StoreDb
  import opened BatchFacts
  import opened EntityStates
  import opened StoreWrites
  import opened StoreStep

  /** `db'` is `db` with a batch's rows and relations. */
  ghost predicate Committed(db: Db, db': Db, b: Batch, anchorOf: AnchorFn, st: States, sourceID: nat, w: Written) {
    && BatchIn(db, b, anchorOf, st, sourceID, w) && WellFormed(b)
    && db'.rows == w.db.rows && db'.nextID == w.db.nextID && db'.target == w.db.target
    && db'.relations == w.db.relations + RelationsOf(b.results, w.resolved)
  }

  lemma CommittedTable(db: Db, db': Db, b: Batch, anchorOf: AnchorFn, st: States, sourceID: nat, w: Written)
    requires Committed(db, db', b, anchorOf, st, sourceID, w)
    ensures TableOK(db') && AnchorsOK(db', anchorOf) && Grows(db, db')
  {
    hide WellFormed, InRow, ResolvedOK, Sourced;
    forall id | id in db'.rows ensures RowOK(db', id, db'.rows[id]) {
      assert RowOK(w.db, id, w.db.rows[id]);
    }
  }

  // ------------------------------------------------------------ relations

  lemma ResultRows(db: Db, db': Db, b: Batch, anchorOf: AnchorFn, st: States, sourceID: nat, w: Written, r: BatchResult)
    requires Committed(db, db', b, anchorOf, st, sourceID, w) && r in b.results
    ensures b.Has(r.sourceID) && b.Has(r.targetID) && r.sourceID in w.resolved && r.targetID in w.resolved
    ensures w.resolved[r.sourceID] in db'.rows && w.resolved[r.targetID] in db'.rows
    ensures db'.rows[w.resolved[r.targetID]].category == b.Item(r.targetID).fields.category
    ensures b.Item(r.targetID).fields.category == "property" ==>
              db'.rows[w.resolved[r.targetID]].parent == Some(w.resolved[r.sourceID])
    ensures w.resolved[r.sourceID] == w.resolved[r.targetID]
            || (w.resolved[r.sourceID], w.resolved[r.targetID]) in db'.relations
  {
    hide IndexesAgree, Ordered, Sourced, TableOK, AnchorsOK, Kept, Lowered, AnchorLinked;
    assert ResultOK(b, r);
    assert InRow(b, st, w, r.sourceID) && InRow(b, st, w, r.targetID);
    assert Matches(b, r.targetID, w.resolved, w.db.rows[w.resolved[r.targetID]]);
  }

  lemma OldRelation(db: Db, db': Db, s: nat, t: nat)
    requires Grows(db, db') && RelationsOK(db) && (s, t) in db.relations
    ensures s in db'.rows && t in db'.rows && (db'.rows[t].category == "property" ==> db'.rows[t].parent == Some(s))
  {
  }

  lemma RelationsAdded(db: Db, db': Db, b: Batch, anchorOf: AnchorFn, st: States, sourceID: nat, w: Written)
    requires Committed(db, db', b, anchorOf, st, sourceID, w)
    ensures Grows(db, db') && db'.relations == db.relations + RelationsOf(b.results, w.resolved)
  {
    CommittedTable(db, db', b, anchorOf, st, sourceID, w);
    hide WellFormed, InRow, ResolvedOK, Sourced, TableOK, AnchorsOK, RelationsOf, Grows;
  }

  lemma CommittedRelations(db: Db, db': Db, b: Batch, anchorOf: AnchorFn, st: States, sourceID: nat, w: Written)
    requires Committed(db, db', b, anchorOf, st, sourceID, w) && RelationsOK(db)
    ensures RelationsOK(db')
  {
    RelationsAdded(db, db', b, anchorOf, st, sourceID, w);
    hide Committed, Grows;
    forall s, t | (s, t) in db'.relations
      ensures s in db'.rows && t in db'.rows && (db'.rows[t].category == "property" ==> db'.rows[t].parent == Some(s))
    {
      if (s, t) in db.relations {
        OldRelation(db, db', s, t);
      } else {
        var r :| r in b.results && r.sourceID in w.resolved && r.targetID in w.resolved
                 && s == w.resolved[r.sourceID] && t == w.resolved[r.targetID];
        ResultRows(db, db', b, anchorOf, st, sourceID, w, r);
      }
    }
  }

  // ------------------------------------------------------------ strict depths are hop-sound

  /** Every strict depth of the batch is witnessed by a path in the database that is written. */
  ghost predicate StatesSound(db: Db, st: States, resolved: map<nat, nat>) {
    forall v: nat :: v in resolved && v < |st| && st[v].strict < UNRESOLVED ==> Within(db, resolved[v], st[v].strict)
  }

  /** The result behind an item is a relation of `db`, or its two ends are one row. */
  predicate ItemSound(db: Db, resolved: map<nat, nat>, it: Item) {
    && it.src in resolved && it.dst in resolved
    && HopWeight(db, resolved[it.dst]) == (if it.isProperty then 0 else 1)
    && (resolved[it.src] == resolved[it.dst] || (resolved[it.src], resolved[it.dst]) in db.relations)
  }

  lemma StepSound(db: Db, st: States, resolved: map<nat, nat>, it: Item)
    requires StatesSound(db, st, resolved) && ItemInRange(it, |st|) && ItemSound(db, resolved, it)
    requires st[it.src].strict <= UNRESOLVED
    ensures StatesSound(db, Step(st, it), resolved)
  {
    var s, t := resolved[it.src], resolved[it.dst];
    if st[it.src].strict < UNRESOLVED {
      var d := st[it.src].strict + HopWeight(db, t);
      if s == t {
        WithinWeakens(db, t, st[it.src].strict, d);
      } else {
        WithinExtends(db, s, t, st[it.src].strict);
      }
      hide Within;
      forall v: nat | v in resolved && v < |st| && Step(st, it)[v].strict < UNRESOLVED
        ensures Within(db, resolved[v], Step(st, it)[v].strict)
      {
        assert Step(st, it)[v].strict == st[v].strict || (v == it.dst && Step(st, it)[v].strict == d);
      }
    }
  }

  ghost predicate ItemsSound(db: Db, resolved: map<nat, nat>, items: seq<Item>) {
    forall i :: 0 <= i < |items| ==> ItemSound(db, resolved, items[i])
  }

  lemma {:induction false} PassSound(db: Db, st: States, resolved: map<nat, nat>, items: seq<Item>)
    requires StatesSound(db, st, resolved) && ItemsInRange(items, |st|) && ItemsSound(db, resolved, items)
             && Bounded(st)
    ensures StatesSound(db, OnePass(st, items), resolved) && Bounded(OnePass(st, items))
    decreases |items|
  {
    if items != [] {
      assert ItemInRange(items[0], |st|);
      assert st[items[0].src] in st;
      hide StatesSound, ItemSound, Bounded, Step;
      StepSound(db, st, resolved, items[0]);
      StepStrict(st, items[0]);
      PassSound(db, Step(st, items[0]), resolved, items[1..]);
    }
  }

  lemma {:induction false} PassesSound(db: Db, st: States, resolved: map<nat, nat>, items: seq<Item>, k: nat)
    requires StatesSound(db, st, resolved) && ItemsInRange(items, |st|) && ItemsSound(db, resolved, items)
             && Bounded(st)
    ensures StatesSound(db, ManyPasses(st, items, k), resolved)
    decreases k
  {
    hide StatesSound, ItemsSound, Bounded, ItemsInRange, OnePass, Step;
    if k != 0 {
      PassSound(db, st, resolved, items);
      PassesSound(db, OnePass(st, items), resolved, items, k - 1);
    }
  }

  lemma OneNodeRow(db: Db, i: nat, j: nat)
    requires TableOK(db) && i in db.rows && j in db.rows
    requires db.rows[i].category != "property" && db.rows[j].category != "property"
    requires db.rows[i].etype == db.rows[j].etype && db.rows[i].value == db.rows[j].value
    ensures i == j && db.rows[i].category == "node"
  {
    assert RowOK(db, i, db.rows[i]) && RowOK(db, j, db.rows[j]);
    assert Collides(db.rows[i], db.rows[j]);
  }

  lemma InRowMatches(b: Batch, anchorOf: AnchorFn, st: States, sourceID: nat, db: Db, w: Written, v: nat)
    requires BatchIn(db, b, anchorOf, st, sourceID, w) && b.Has(v)
    ensures v in w.resolved && w.resolved[v] in w.db.rows && Matches(b, v, w.resolved, w.db.rows[w.resolved[v]])
    ensures v == b.rootID ==> w.resolved[v] == sourceID
  {
    hide TableOK, AnchorsOK, Kept, Sourced, Matches, Lowered, AnchorLinked;
    assert InRow(b, st, w, v);
  }

  lemma ResultTargetHas(b: Batch, k: nat)
    requires WellFormed(b) && k < |b.results|
    ensures b.Has(b.results[k].targetID)
  {
    assert ResultOK(b, b.results[k]);
  }

  lemma RowHasID(b: Batch, anchorOf: AnchorFn, st: DepthLoop.States, sourceID: nat, db: Db, w: Written, v: nat)
    requires BatchIn(db, b, anchorOf, st, sourceID, w) && b.Has(v)
    ensures v in w.resolved && w.resolved[v] != 0
  {
    InRowMatches(b, anchorOf, st, sourceID, db, w, v);
    hide ResolvedOK, Sourced, AnchorsOK, Kept, InRow, Matches;
    assert RowOK(w.db, w.resolved[v], w.db.rows[w.resolved[v]]);
  }

  /** An entity that was loaded from a row is written back to that row. */
  lemma LoadedRow(db: Db, db': Db, b: Batch, anchorOf: AnchorFn, st: States, sourceID: nat, w: Written, v: nat, id: nat)
    requires Committed(db, db', b, anchorOf, st, sourceID, w) && b.Has(v) && sourceID in db.rows
    requires LoadedFrom(db, b, InitialStates(db, b, sourceID), v, id)
    requires !IsNode(b.Item(v)) ==> v == b.rootID && id == sourceID
    ensures v in w.resolved && w.resolved[v] == id
  {
    CommittedTable(db, db', b, anchorOf, st, sourceID, w);
    InRowMatches(b, anchorOf, st, sourceID, db, w, v);
    hide WellFormed, AnchorsOK, TableOK, BatchIn, InitialStates;
    if IsNode(b.Item(v)) {
      OneNodeRow(db', w.resolved[v], id);
    }
  }

  lemma LoadedSound(db: Db, db': Db, b: Batch, anchorOf: AnchorFn, st: States, sourceID: nat, w: Written, v: nat)
    requires Committed(db, db', b, anchorOf, st, sourceID, w) && b.Has(v) && DbInv(db, anchorOf)
             && RootOf(db, b, sourceID)
    ensures v in w.resolved
    ensures var s := InitialStates(db, b, sourceID)[v].strict;
            s < UNRESOLVED ==> Within(db', w.resolved[v], s)
  {
    hide WellFormed, RelaxedOK, Within, AnchorsOK, WriteInv;
    assert InRow(b, st, w, v);
    CommittedTable(db, db', b, anchorOf, st, sourceID, w);
    var s := InitialStates(db, b, sourceID)[v].strict;
    var id := InitialSource(db, b, sourceID, v);
    hide TableOK, RelationsOK;
    if id in db.rows && s < UNRESOLVED {
      LoadedRow(db, db', b, anchorOf, st, sourceID, w, v, id);
      WithinKept(db, db', id, s);
    }
  }

  lemma ItemsAreSound(db: Db, db': Db, b: Batch, anchorOf: AnchorFn, st: States, sourceID: nat, w: Written)
    requires Committed(db, db', b, anchorOf, st, sourceID, w)
    ensures ItemsInRange(Items(b, b.results), |b.entities| + 1) && ItemsSound(db', w.resolved, Items(b, b.results))
  {
    ItemsOK(b);
    hide Committed;
    var items := Items(b, b.results);
    forall i | 0 <= i < |items| ensures ItemSound(db', w.resolved, items[i]) {
      ResultRows(db, db', b, anchorOf, st, sourceID, w, b.results[i]);
    }
  }

  lemma MarkedBounded(db: Db, b: Batch, anchorOf: AnchorFn, sourceID: nat)
    requires sourceID in db.rows && WellFormed(b) && RootOf(db, b, sourceID)
             && StatesOK(b, anchorOf, MarkedStates(db, b, sourceID))
    requires MarkKeeps(InitialStates(db, b, sourceID), MarkedStates(db, b, sourceID))
    ensures Bounded(MarkedStates(db, b, sourceID))
  {
    hide WellFormed, RootOf, MarkedStates;
    var st := MarkedStates(db, b, sourceID);
    forall s | s in st ensures s.strict <= UNRESOLVED {
      var v :| 0 <= v < |st| && st[v] == s;
      if v == 0 {
        assert InitialStates(db, b, sourceID)[0] == InitialState(db, b, sourceID, 0);
      } else {
        assert b.Has(v) && StateOK(b, anchorOf, st, v);
      }
    }
  }

  lemma ResolvedHas(db: Db, b: Batch, anchorOf: AnchorFn, st: States, sourceID: nat, w: Written, v: nat)
    requires BatchIn(db, b, anchorOf, st, sourceID, w) && v in w.resolved
    ensures b.Has(v)
  {
    assert Matches(b, v, w.resolved, w.db.rows[w.resolved[v]]);
  }

  lemma MarkedSound(db: Db, db': Db, b: Batch, anchorOf: AnchorFn, st: States, sourceID: nat, w: Written)
    requires Committed(db, db', b, anchorOf, st, sourceID, w) && DbInv(db, anchorOf) && RootOf(db, b, sourceID)
    ensures StatesSound(db', MarkedStates(db, b, sourceID), w.resolved)
  {
    hide BatchIn, DbInv, Within, WellFormed, MarkedStates, InitialStates;
    MarksOnly(db, b, sourceID);
    var st1 := MarkedStates(db, b, sourceID);
    forall v: nat | v in w.resolved && v < |st1| && st1[v].strict < UNRESOLVED
      ensures Within(db', w.resolved[v], st1[v].strict)
    {
      ResolvedHas(db, b, anchorOf, st, sourceID, w, v);
      LoadedSound(db, db', b, anchorOf, st, sourceID, w, v);
    }
  }

  lemma FinalSound(db: Db, db': Db, b: Batch, anchorOf: AnchorFn, sourceID: nat, w: Written)
    requires sourceID in db.rows && WellFormed(b) && Plain(b, anchorOf) && AnchorFnOK(anchorOf)
    requires Committed(db, db', b, anchorOf, FinalStates(db, b, sourceID), sourceID, w)
    requires DbInv(db, anchorOf) && RootOf(db, b, sourceID)
    ensures StatesSound(db', FinalStates(db, b, sourceID), w.resolved)
  {
    hide Committed, DbInv, AnchorFnOK, WellFormed, StatesSound, RootOf, MarkedStates, Plain, Bounded, StatesOK,
         ItemsSound;
    var st := FinalStates(db, b, sourceID);
    ItemsOfFit(b, anchorOf);
    MarkedStatesOK(db, b, sourceID, anchorOf);
    MarkedBounded(db, b, anchorOf, sourceID);
    MarkedSound(db, db', b, anchorOf, st, sourceID, w);
    ItemsAreSound(db, db', b, anchorOf, st, sourceID, w);
    PassesSound(db', MarkedStates(db, b, sourceID), w.resolved, Items(b, b.results), |b.entities|);
  }

  /** (a) No stored strict depth is below the node-hop distance from the initial target. */
  lemma CommittedDepths(db: Db, db': Db, b: Batch, anchorOf: AnchorFn, st: States, sourceID: nat, w: Written)
    requires Committed(db, db', b, anchorOf, st, sourceID, w) && DbInv(db, anchorOf)
    requires StatesSound(db', st, w.resolved)
    ensures DepthsSound(db')
  {
    CommittedTable(db, db', b, anchorOf, st, sourceID, w);
    hide WellFormed, TableOK, AnchorsOK, RelaxedOK, Within, InRow, ResolvedOK, Kept;
    forall id | id in db'.rows && db'.rows[id].strict < UNRESOLVED ensures Within(db', id, db'.rows[id].strict) {
      assert StrictSourced(db, b, st, w, id);
      if id in db.rows && db'.rows[id].strict == db.rows[id].strict {
        WithinKept(db, db', id, db.rows[id].strict);
      }
    }
  }

  // ------------------------------------------------------------ relaxed depths never exceed strict ones

  /** What an anchored row owes its anchor, for a strict and a relaxed depth it might have. */
  predicate AnchorBounds(db: Db, id: nat, strict: nat, relaxed: nat)
    requires id in db.rows
  {
    var a := db.rows[id].anchor;
    if a.Some? then a.value in db.rows && db.rows[a.value].relaxed <= strict
    else strict == UNRESOLVED && relaxed == UNRESOLVED
  }

  predicate Anchored(db: Db, anchorOf: AnchorFn, id: nat)
    requires id in db.rows
  {
    db.rows[id].category == "node" && anchorOf(db.rows[id].etype, db.rows[id].value) != ""
  }

  ghost predicate SoundTables(db: Db, db': Db, anchorOf: AnchorFn) {
    && TableOK(db') && AnchorsOK(db', anchorOf) && Grows(db, db') && AnchorsOK(db, anchorOf) && RelaxedOK(db, anchorOf)
    && forall id :: id in db.rows && db.rows[id].anchor.Some? ==> db'.rows[id].anchor.Some?
  }

  lemma AnchoredOld(db: Db, db': Db, anchorOf: AnchorFn, id: nat)
    requires SoundTables(db, db', anchorOf) && id in db.rows && Anchored(db', anchorOf, id)
    ensures AnchorBounds(db', id, db.rows[id].strict, db.rows[id].relaxed)
  {
    assert RelaxedRowOK(db, anchorOf, db.rows[id]);
    var row, row' := db.rows[id], db'.rows[id];
    if row.anchor.Some? {
      OneNodeRow(db', row.anchor.value, row'.anchor.value);
    } else if row'.anchor.Some? {
      assert RowOK(db', row'.anchor.value, db'.rows[row'.anchor.value]);
    }
  }

  /** An anchored entity of the batch: its state respects the anchor that its row has. */
  lemma AnchoredState(db: Db, db': Db, b: Batch, anchorOf: AnchorFn, st: States, sourceID: nat, w: Written, v: nat)
    requires Committed(db, db', b, anchorOf, st, sourceID, w) && SoundTables(db, db', anchorOf) && TableOK(db)
    requires Writable(b, anchorOf, st) && AnchoredUnmarked(b, anchorOf, st) && RootOf(db, b, sourceID)
    requires Untouched(b, anchorOf, InitialStates(db, b, sourceID), st)
    requires b.Has(v) && IsNode(b.Item(v)) && AnchorNameOf(b, anchorOf, v) != "" && v in w.resolved
             && w.resolved[v] in db'.rows
    requires Anchored(db', anchorOf, w.resolved[v])
    ensures AnchorBounds(db', w.resolved[v], st[v].strict, st[v].relaxed)
  {
    var a := AnchorNode(b, anchorOf, v);
    assert StateOK(b, anchorOf, st, v) && InRow(b, st, w, v);
    if st[v].anchor == "" {
      UnresolvedBounds(db', anchorOf, w.resolved[v]);
    } else if a == 0 {
      UntouchedBounds(db, db', b, anchorOf, st, sourceID, w, v);
    } else {
      AnchorInBatch(db, db', b, anchorOf, st, sourceID, w, v);
    }
  }

  lemma UnresolvedBounds(db: Db, anchorOf: AnchorFn, id: nat)
    requires TableOK(db) && AnchorsOK(db, anchorOf) && id in db.rows
    ensures AnchorBounds(db, id, UNRESOLVED, UNRESOLVED)
  {
    if db.rows[id].anchor.Some? {
      assert RowOK(db, db.rows[id].anchor.value, db.rows[db.rows[id].anchor.value]);
    }
  }

  lemma UntouchedBounds(db: Db, db': Db, b: Batch, anchorOf: AnchorFn, st: States, sourceID: nat, w: Written, v: nat)
    requires Committed(db, db', b, anchorOf, st, sourceID, w) && SoundTables(db, db', anchorOf) && TableOK(db)
    requires RootOf(db, b, sourceID) && Untouched(b, anchorOf, InitialStates(db, b, sourceID), st)
    requires b.Has(v) && AnchorNameOf(b, anchorOf, v) != "" && AnchorNode(b, anchorOf, v) == 0 && v in w.resolved
    requires st[v].anchor != "" && w.resolved[v] in db'.rows && Anchored(db', anchorOf, w.resolved[v])
    ensures AnchorBounds(db', w.resolved[v], st[v].strict, st[v].relaxed)
  {
    var id := InitialSource(db, b, sourceID, v);
    assert SameDepths(InitialStates(db, b, sourceID)[v], st[v]);
    LoadedRow(db, db', b, anchorOf, st, sourceID, w, v, id);
    hide Committed, WellFormed, Untouched, TableOK, InitialStates;
    AnchoredOld(db, db', anchorOf, id);
  }

  lemma AnchorInBatch(db: Db, db': Db, b: Batch, anchorOf: AnchorFn, st: States, sourceID: nat, w: Written, v: nat)
    requires Committed(db, db', b, anchorOf, st, sourceID, w) && SoundTables(db, db', anchorOf)
    requires Writable(b, anchorOf, st) && AnchoredUnmarked(b, anchorOf, st)
    requires b.Has(v) && IsNode(b.Item(v)) && AnchorNameOf(b, anchorOf, v) != "" && AnchorNode(b, anchorOf, v) != 0
    requires st[v].anchor != "" && v in w.resolved && w.resolved[v] in db'.rows
             && Anchored(db', anchorOf, w.resolved[v])
    ensures AnchorBounds(db', w.resolved[v], st[v].strict, st[v].relaxed)
  {
    var a := AnchorNode(b, anchorOf, v);
    var id := w.resolved[v];
    assert StateOK(b, anchorOf, st, v);
    assert IsNodeAt(b, a, NodeKey(ANCHOR_TYPE, AnchorNameOf(b, anchorOf, v)));
    assert InRow(b, st, w, v) && InRow(b, st, w, a);
    assert AnchorLinked(b, st, w, v) && Lowered(st, w, a);
    InRowMatches(b, anchorOf, st, sourceID, db, w, v);
    InRowMatches(b, anchorOf, st, sourceID, db, w, a);
    hide WellFormed, BatchIn, Writable, AnchoredUnmarked, TableOK, Grows, RelaxedOK;
    OneNodeRow(db', db'.rows[id].anchor.value, w.resolved[a]);
  }

  lemma RelaxedAnchored(db: Db, db': Db, b: Batch, anchorOf: AnchorFn, st: States, sourceID: nat, w: Written, id: nat)
    requires Committed(db, db', b, anchorOf, st, sourceID, w) && SoundTables(db, db', anchorOf) && TableOK(db)
    requires Writable(b, anchorOf, st) && AnchoredUnmarked(b, anchorOf, st) && RootOf(db, b, sourceID)
    requires Untouched(b, anchorOf, InitialStates(db, b, sourceID), st)
    requires id in db'.rows && Anchored(db', anchorOf, id)
    ensures RelaxedRowOK(db', anchorOf, db'.rows[id])
  {
    assert StrictSourced(db, b, st, w, id) && RelaxedSourced(db, b, st, w, id);
    hide Writable, AnchoredUnmarked, Untouched, SoundTables, RootOf, TableOK, Kept, WellFormed;
    if id in db.rows {
      AnchoredOld(db, db', anchorOf, id);
    }
    forall v: nat | v in w.resolved && v < |st| && w.resolved[v] == id && Storable(b, v)
      ensures AnchorBounds(db', id, st[v].strict, st[v].relaxed)
    {
      InRowMatches(b, anchorOf, st, sourceID, db, w, v);
      assert IsNode(b.Item(v));
      AnchoredState(db, db', b, anchorOf, st, sourceID, w, v);
    }
  }

  lemma RelaxedUnanchored(db: Db, db': Db, b: Batch, anchorOf: AnchorFn, st: States, sourceID: nat, w: Written, id: nat)
    requires Committed(db, db', b, anchorOf, st, sourceID, w) && SoundTables(db, db', anchorOf)
    requires StatesOK(b, anchorOf, st) && id in db'.rows && !Anchored(db', anchorOf, id)
    ensures RelaxedRowOK(db', anchorOf, db'.rows[id])
  {
    assert StrictSourced(db, b, st, w, id);
    var row := db'.rows[id];
    assert row.anchor.None?;
    if id in db.rows && row.strict == db.rows[id].strict {
      assert RelaxedRowOK(db, anchorOf, db.rows[id]);
      assert db.rows[id].anchor.None?;
    } else {
      var v :| v in w.resolved && v < |st| && w.resolved[v] == id && Storable(b, v) && row.strict == st[v].strict;
      assert InRow(b, st, w, v) && Lowered(st, w, v) && StateOK(b, anchorOf, st, v);
    }
  }

  /** (b) Turning the strict limit off never prunes more. */
  lemma CommittedRelaxed(db: Db, db': Db, b: Batch, anchorOf: AnchorFn, st: States, sourceID: nat, w: Written)
    requires Committed(db, db', b, anchorOf, st, sourceID, w) && DbInv(db, anchorOf)
    requires Writable(b, anchorOf, st) && AnchoredUnmarked(b, anchorOf, st) && RootOf(db, b, sourceID)
    requires Untouched(b, anchorOf, InitialStates(db, b, sourceID), st)
    ensures RelaxedOK(db', anchorOf)
  {
    CommittedTable(db, db', b, anchorOf, st, sourceID, w);
    assert SoundTables(db, db', anchorOf);
    assert TableOK(db);
    assert StatesOK(b, anchorOf, st);
    hide Committed, DbInv, Writable, AnchoredUnmarked, Untouched, SoundTables, RootOf, TableOK, RelaxedRowOK, StatesOK;
    forall id | id in db'.rows ensures RelaxedRowOK(db', anchorOf, db'.rows[id]) {
      if Anchored(db', anchorOf, id) {
        RelaxedAnchored(db, db', b, anchorOf, st, sourceID, w, id);
      } else {
        RelaxedUnanchored(db, db', b, anchorOf, st, sourceID, w, id);
      }
    }
  }

  // ------------------------------------------------------------ the whole call

  lemma StoredCommits(db: Db, p: Packet, blamed: string, order: seq<nat>, anchorOf: AnchorFn)
    requires DbInv(db, anchorOf) && AnchorFnOK(anchorOf) && PacketFits(db, p, anchorOf)
    requires LayerOrder(PacketBatch(db, p), order)
    ensures var b := PacketBatch(db, p);
            Committed(db, Stored(db, p, blamed, order), b, anchorOf, FinalStates(db, b, p.sourceID), p.sourceID,
                PacketRows(db, p, order))
  {
    PacketWritten(db, p, order, anchorOf);
    hide BatchIn, PacketBatch, WellFormed, DbInv, AnchorFnOK, LayerOrder, FinalStates, PacketRows;
  }

  /** The row of a batch entity bears its name, is no deeper than the batch found the entity, is
      blocked if the entity is; and every depth in the table is one that was there or one that the
      batch computed for the row.  Together: each depth is the minimum of those. */
  lemma StoredRowMeaning(db: Db, p: Packet, blamed: string, order: seq<nat>, anchorOf: AnchorFn, v: nat)
    requires DbInv(db, anchorOf) && AnchorFnOK(anchorOf) && PacketFits(db, p, anchorOf)
    requires LayerOrder(PacketBatch(db, p), order) && Storable(PacketBatch(db, p), v)
    ensures var b, w := PacketBatch(db, p), PacketRows(db, p, order);
            var st, db' := FinalStates(db, b, p.sourceID), Stored(db, p, blamed, order);
            && v in w.resolved && w.resolved[v] in db'.rows
            && var id := w.resolved[v];
               && Matches(b, v, w.resolved, db'.rows[id]) && AtMost(db'.rows[id], st[v])
               && (id in db.rows ==> SameRow(db.rows[id], db'.rows[id]) && RowKept(db.rows[id], db'.rows[id]))
               && StrictSourced(db, b, st, w, id) && RelaxedSourced(db, b, st, w, id)
  {
    var b := PacketBatch(db, p);
    hide WellFormed, DbInv, AnchorFnOK, GroupsFit, LayerOrder, PacketBatch, PacketRows, FinalStates, TableOK,
         AnchorsOK, AnchorLinked, AtMost,
         Matches, StrictSourced, RelaxedSourced, SameRow, RowKept;
    PacketWritten(db, p, order, anchorOf);
    var w := PacketRows(db, p, order);
    assert InRow(b, FinalStates(db, b, p.sourceID), w, v);
  }

  /** An entity that some result found is not left as a mere anchor. */
  lemma FoundIsNoMereAnchor(db: Db, p: Packet, blamed: string, order: seq<nat>, anchorOf: AnchorFn, k: nat)
    requires DbInv(db, anchorOf) && AnchorFnOK(anchorOf) && PacketFits(db, p, anchorOf)
    requires LayerOrder(PacketBatch(db, p), order) && k < |PacketBatch(db, p).results|
    ensures var b, w := PacketBatch(db, p), PacketRows(db, p, order);
            var v := b.results[k].targetID;
            && b.Has(v) && v in w.resolved && w.resolved[v] in Stored(db, p, blamed, order).rows
            && (IsNode(b.Item(v)) ==> !Stored(db, p, blamed, order).rows[w.resolved[v]].isAnchor)
  {
    var b := PacketBatch(db, p);
    hide WellFormed, DbInv, AnchorFnOK, GroupsFit, LayerOrder, PacketBatch, PacketRows, FinalStates, TableOK,
         AnchorsOK, AnchorLinked, AtMost,
         Matches, Sourced, Kept, Writable, Untouched, AnchoredUnmarked, RootOf, Plain, NodesInRange;
    PacketWritten(db, p, order, anchorOf);
    BatchWritable(db, p, anchorOf);
    var st := FinalStates(db, b, p.sourceID);
    assert TargetsUnmarked(b, st);
    assert InRow(b, st, PacketRows(db, p, order), b.results[k].targetID);
  }

  lemma RowsKeepTags(db: Db, p: Packet, order: seq<nat>, anchorOf: AnchorFn)
    requires DbInv(db, anchorOf) && AnchorFnOK(anchorOf) && PacketFits(db, p, anchorOf)
    requires LayerOrder(PacketBatch(db, p), order)
    ensures PacketRows(db, p, order).db.tags == db.tags
  {
    PacketWritten(db, p, order, anchorOf);
    hide WellFormed, DbInv, LayerOrder, InRow, PacketBatch, PacketRows, FinalStates, AnchorFnOK, GroupsFit;
  }

  lemma PlainTags(b: Batch, anchorOf: AnchorFn, resolved: map<nat, nat>)
    requires PayloadFits(b, anchorOf)
    ensures forall id, tag :: (id, tag) in TagsOf(b.results, resolved) ==> ValidTag(tag)
  {
    forall id, tag | (id, tag) in TagsOf(b.results, resolved) ensures ValidTag(tag) {
      var r :| r in b.results && r.targetID in resolved && tag in r.result.tags;
      var i :| 0 <= i < |b.results| && b.results[i] == r;
      assert ResultFits(b.results[i].result, anchorOf);
    }
  }

  lemma StoredTags(db: Db, p: Packet, blamed: string, order: seq<nat>, anchorOf: AnchorFn)
    requires DbInv(db, anchorOf) && AnchorFnOK(anchorOf) && PacketFits(db, p, anchorOf)
    requires LayerOrder(PacketBatch(db, p), order)
    ensures TagsOK(Stored(db, p, blamed, order))
  {
    assert TagsOK(db);
    hide DbInv, AnchorFnOK, PacketBatch, PacketRows, FinalStates, LayerOrder, WellFormed, Writable, Untouched,
         AnchoredUnmarked, RootOf,
         NodesInRange, GroupsFit, PlainEntities, PayloadFits, TagsOf, LogEntries, StoredErrors;
    BatchWritable(db, p, anchorOf);
    RowsKeepTags(db, p, order, anchorOf);
    PlainTags(PacketBatch(db, p), anchorOf, PacketRows(db, p, order).resolved);
  }

  /** Every committed `Store` keeps every database invariant. */
  lemma StoreKeepsDb(db: Db, p: Packet, blamed: string, order: seq<nat>, anchorOf: AnchorFn)
    requires DbInv(db, anchorOf) && AnchorFnOK(anchorOf) && PacketFits(db, p, anchorOf)
    requires LayerOrder(PacketBatch(db, p), order)
    ensures DbInv(Stored(db, p, blamed, order), anchorOf)
  {
    StoredTags(db, p, blamed, order, anchorOf);
    hide TagsOK, Committed, Stored, PacketRows, PacketBatch, FinalStates, WellFormed, Plain, Writable,
         AnchoredUnmarked, Untouched, RootOf,
         StatesSound, TableOK, RelationsOK, AnchorsOK, DepthsSound, RelaxedOK, AnchorFnOK, LayerOrder, GroupsFit;
    var b := PacketBatch(db, p);
    var st := FinalStates(db, b, p.sourceID);
    var w := PacketRows(db, p, order);
    var db' := Stored(db, p, blamed, order);
    BatchWritable(db, p, anchorOf);
    StoredCommits(db, p, blamed, order, anchorOf);
    CommittedTable(db, db', b, anchorOf, st, p.sourceID, w);
    CommittedRelations(db, db', b, anchorOf, st, p.sourceID, w);
    FinalSound(db, db', b, anchorOf, p.sourceID, w);
    CommittedDepths(db, db', b, anchorOf, st, p.sourceID, w);
    CommittedRelaxed(db, db', b, anchorOf, st, p.sourceID, w);
  }
}
