/**
 The entity states of one `Store` call: what loading establishes, what marking and the
 depth loop keep.  A state's relaxed depth never exceeds its strict depth, also by way of
 the anchor that the entity shares with others.
 */
module EntityStates {
  import opened Schema
  import opened StoreBatch
  import opened DepthLoop
  import opened Database
  import opened StoreDb
  import opened BatchFacts

  /** The node of the batch that stands for the anchor of `v`; 0 when there is none. */
  function AnchorNode(b: Batch, anchorOf: AnchorFn, v: nat): nat
    requires b.Has(v)
  {
    var key := NodeKey(ANCHOR_TYPE, AnchorNameOf(b, anchorOf, v));
    if key.value != "" && key in b.nodeIndex then b.nodeIndex[key] else 0
  }

  /** An anchored entity without its anchor set has no depth yet; with it set, the anchor's
      relaxed depth is at most the entity's strict depth. */
  predicate StateOK(b: Batch, anchorOf: AnchorFn, st: States, v: nat)
    requires b.Has(v) && |st| == |b.entities| + 1
  {
    var a := AnchorNode(b, anchorOf, v);
    && st[v].relaxed <= st[v].strict <= UNRESOLVED
    && (st[v].anchor == "" || st[v].anchor == AnchorNameOf(b, anchorOf, v))
    && (AnchorNameOf(b, anchorOf, v) != "" ==>
          if st[v].anchor == "" then st[v].strict == UNRESOLVED && st[v].relaxed == UNRESOLVED
          else 0 < a < |st| ==> st[a].relaxed <= st[v].strict)
  }

  ghost predicate StatesOK(b: Batch, anchorOf: AnchorFn, st: States) {
    |st| == |b.entities| + 1 && forall v: nat :: b.Has(v) ==> StateOK(b, anchorOf, st, v)
  }

  // ------------------------------------------------------------ the depth loop keeps it

  lemma StepKeepsRest(b: Batch, anchorOf: AnchorFn, st: States, it: Item, v: nat)
    requires AnchorFnOK(anchorOf) && Indexed(b) && StatesOK(b, anchorOf, st)
    requires ItemInRange(it, |st|) && ItemFits(b, anchorOf, it) && b.Has(v) && v != it.dst
    ensures StateOK(b, anchorOf, Step(st, it), v)
  {
    assert StateOK(b, anchorOf, st, v) && StateOK(b, anchorOf, st, it.src) && StateOK(b, anchorOf, st, it.dst);
    var a := AnchorNode(b, anchorOf, v);
    var key := NodeKey(ANCHOR_TYPE, AnchorNameOf(b, anchorOf, v));
    if a != 0 {
      assert IsNodeAt(b, b.nodeIndex[key], key);
    }
    if !it.isProperty && it.anchor.AnchorAt? {
      assert IsNodeAt(b, it.anchor.id, NodeKey(ANCHOR_TYPE, it.anchorName));
    }
  }

  lemma StepKeepsTarget(b: Batch, anchorOf: AnchorFn, st: States, it: Item)
    requires AnchorFnOK(anchorOf) && Indexed(b) && StatesOK(b, anchorOf, st)
    requires ItemInRange(it, |st|) && ItemFits(b, anchorOf, it)
    ensures StateOK(b, anchorOf, Step(st, it), it.dst)
  {
    assert StateOK(b, anchorOf, st, it.src) && StateOK(b, anchorOf, st, it.dst);
    if !it.isProperty && it.anchor.AnchorAt? {
      assert IsNodeAt(b, it.anchor.id, NodeKey(ANCHOR_TYPE, it.anchorName));
      assert StateOK(b, anchorOf, st, it.anchor.id);
      assert it.anchor.id != it.dst;
    }
  }

  lemma StepKeepsStates(b: Batch, anchorOf: AnchorFn, st: States, it: Item)
    requires AnchorFnOK(anchorOf) && Indexed(b) && StatesOK(b, anchorOf, st)
    requires ItemInRange(it, |st|) && ItemFits(b, anchorOf, it)
    ensures StatesOK(b, anchorOf, Step(st, it))
  {
    hide StateOK;
    forall v: nat | b.Has(v) ensures StateOK(b, anchorOf, Step(st, it), v) {
      if v == it.dst {
        StepKeepsTarget(b, anchorOf, st, it);
      } else {
        StepKeepsRest(b, anchorOf, st, it, v);
      }
    }
  }

  /** An anchored entity whose anchor is not in the batch keeps the depths it was loaded with. */
  ghost predicate Untouched(b: Batch, anchorOf: AnchorFn, st0: States, st: States) {
    |st| == |st0| == |b.entities| + 1 &&
    forall v: nat :: b.Has(v) && AnchorNameOf(b, anchorOf, v) != "" && AnchorNode(b, anchorOf, v) == 0 ==>
          SameDepths(st0[v], st[v])
  }

  predicate SameDepths(s: EntityState, s': EntityState) {
    s'.strict == s.strict && s'.relaxed == s.relaxed && s'.anchor == s.anchor
  }

  lemma StepUntouched(b: Batch, anchorOf: AnchorFn, st0: States, st: States, it: Item)
    requires AnchorFnOK(anchorOf) && Indexed(b) && Untouched(b, anchorOf, st0, st)
    requires ItemInRange(it, |st|) && ItemFits(b, anchorOf, it)
    ensures Untouched(b, anchorOf, st0, Step(st, it))
  {
    if !it.isProperty && it.anchor.AnchorAt? {
      assert IsNodeAt(b, it.anchor.id, NodeKey(ANCHOR_TYPE, it.anchorName));
    }
  }

  ghost predicate LoopInv(b: Batch, anchorOf: AnchorFn, st0: States, st: States) {
    StatesOK(b, anchorOf, st) && Untouched(b, anchorOf, st0, st) && SameMarks(st0, st)
  }

  /** The loop leaves scope and anchor marks alone. */
  predicate SameMarks(st: States, st': States) {
    |st'| == |st| && forall v :: 0 <= v < |st| ==>
          st'[v].isAnchor == st[v].isAnchor && st'[v].outOfScope == st[v].outOfScope
  }

  lemma StepKeepsMarks(st: States, it: Item)
    requires ItemInRange(it, |st|)
    ensures SameMarks(st, Step(st, it))
  {
  }

  lemma SameMarksTrans(a: States, b: States, c: States)
    requires SameMarks(a, b) && SameMarks(b, c)
    ensures SameMarks(a, c)
  {
  }

  lemma {:induction false} PassKeepsStates(b: Batch, anchorOf: AnchorFn, st0: States, st: States, items: seq<Item>)
    requires AnchorFnOK(anchorOf) && Indexed(b) && LoopInv(b, anchorOf, st0, st)
    requires ItemsInRange(items, |st|) && ItemsFit(b, anchorOf, items)
    ensures LoopInv(b, anchorOf, st0, OnePass(st, items))
    decreases |items|
  {
    if items != [] {
      hide AnchorFnOK, Indexed, StatesOK, Untouched, ItemFits, Step;
      StepKeepsMarks(st, items[0]);
      SameMarksTrans(st0, st, Step(st, items[0]));
      hide SameMarks;
      StepKeepsStates(b, anchorOf, st, items[0]);
      StepUntouched(b, anchorOf, st0, st, items[0]);
      PassKeepsStates(b, anchorOf, st0, Step(st, items[0]), items[1..]);
    }
  }

  lemma {:induction false} PassesKeepStates(b: Batch, anchorOf: AnchorFn, st0: States, st: States, items: seq<Item>,
      k: nat)
    requires AnchorFnOK(anchorOf) && Indexed(b) && LoopInv(b, anchorOf, st0, st)
    requires ItemsInRange(items, |st|) && ItemsFit(b, anchorOf, items)
    ensures LoopInv(b, anchorOf, st0, ManyPasses(st, items, k))
    decreases k
  {
    if k != 0 {
      hide AnchorFnOK, Indexed, LoopInv, ItemsFit;
      PassKeepsStates(b, anchorOf, st0, st, items);
      PassesKeepStates(b, anchorOf, st0, OnePass(st, items), items, k - 1);
    }
  }

  // ------------------------------------------------------------ loading establishes it

  lemma FindNode(db: Db, b: Batch, v: nat)
    requires TableOK(db) && b.Has(v)
    ensures var found := Find(db, NodeProbe(b, v));
            && (found.Some? ==> SameNode(db.rows[found.value], b.Item(v).fields.etype, b.Item(v).fields.value))
            && forall id :: id in db.rows && SameNode(db.rows[id], b.Item(v).fields.etype, b.Item(v).fields.value) ==>
                 found == Some(id)
  {
    var found := Find(db, NodeProbe(b, v));
    forall id | id in db.rows && SameNode(db.rows[id], b.Item(v).fields.etype, b.Item(v).fields.value)
      ensures found == Some(id) {
      assert Collides(db.rows[id], NodeProbe(b, v));
      assert Collides(db.rows[id], db.rows[found.value]);
    }
  }

  /** The root of the batch is the stored source entity. */
  ghost predicate RootOf(db: Db, b: Batch, sourceID: nat) {
    && sourceID in db.rows && b.Has(b.rootID)
    && FieldsOf(db.rows[sourceID]).etype == b.Item(b.rootID).fields.etype
    && FieldsOf(db.rows[sourceID]).value == b.Item(b.rootID).fields.value
    && b.Item(b.rootID).parentID == 0
    && (db.rows[sourceID].category == "property" <==> b.Item(b.rootID).fields.category == "property")
  }

  /** Which database row a batch entity was loaded from. */
  ghost predicate LoadedFrom(db: Db, b: Batch, st: States, v: nat, id: nat)
    requires b.Has(v) && |st| == |b.entities| + 1
  {
    && id in db.rows && SameDepths(Loaded(db, id), st[v])
    && db.rows[id].etype == b.Item(v).fields.etype && db.rows[id].value == b.Item(v).fields.value
    && (db.rows[id].category == "node" <==> IsNode(b.Item(v))) && !IsProperty(b.Item(v))
  }

  predicate Fresh(st: States, v: nat)
    requires v < |st|
  {
    SameDepths(EntityState(0, false, UNRESOLVED, UNRESOLVED, "", false), st[v])
  }

  /** A batch entity starts from the row of the same name, if the database has one. */
  lemma InitialSource(db: Db, b: Batch, sourceID: nat, v: nat) returns (id: nat)
    requires TableOK(db) && RootOf(db, b, sourceID) && b.Has(v)
    ensures var st := InitialStates(db, b, sourceID);
            if id in db.rows then
              LoadedFrom(db, b, st, v, id) && (!IsNode(b.Item(v)) ==> v == b.rootID && id == sourceID)
            else
              && Fresh(st, v) && v != b.rootID
              && (IsNode(b.Item(v)) ==>
                    forall i :: i in db.rows ==> !SameNode(db.rows[i], b.Item(v).fields.etype, b.Item(v).fields.value))
  {
    FindNode(db, b, v);
    assert InitialStates(db, b, sourceID)[v] == InitialState(db, b, sourceID, v);
    assert RowOK(db, sourceID, db.rows[sourceID]);
    var found := Find(db, NodeProbe(b, v));
    if IsNode(b.Item(v)) {
      id := if found.Some? then found.value else db.nextID;
      assert RowOK(db, sourceID, db.rows[sourceID]);
    } else {
      id := if v == b.rootID then sourceID else db.nextID;
    }
    assert db.nextID !in db.rows;
  }

  lemma InitialStateOK(db: Db, b: Batch, sourceID: nat, anchorOf: AnchorFn, v: nat)
    requires DbInv(db, anchorOf) && AnchorFnOK(anchorOf) && Indexed(b) && RootOf(db, b, sourceID) && b.Has(v)
    ensures StateOK(b, anchorOf, InitialStates(db, b, sourceID), v)
  {
    hide DepthsSound, RelationsOK;
    var id := InitialSource(db, b, sourceID, v);
    if id in db.rows {
      LoadedStateOK(db, b, sourceID, anchorOf, v, id);
    }
  }

  lemma LoadedStateOK(db: Db, b: Batch, sourceID: nat, anchorOf: AnchorFn, v: nat, id: nat)
    requires DbInv(db, anchorOf) && AnchorFnOK(anchorOf) && Indexed(b) && RootOf(db, b, sourceID) && b.Has(v)
    requires LoadedFrom(db, b, InitialStates(db, b, sourceID), v, id)
    ensures StateOK(b, anchorOf, InitialStates(db, b, sourceID), v)
  {
    hide DepthsSound, RelationsOK;
    assert RowOK(db, id, db.rows[id]) && RelaxedRowOK(db, anchorOf, db.rows[id]);
    var a := AnchorNode(b, anchorOf, v);
    if db.rows[id].anchor.Some? {
      var aid := db.rows[id].anchor.value;
      assert RowOK(db, aid, db.rows[aid]);
      if a != 0 {
        assert IsNodeAt(b, a, NodeKey(ANCHOR_TYPE, AnchorNameOf(b, anchorOf, v)));
        AnchorLoaded(db, b, sourceID, anchorOf, a, aid);
      }
    }
  }

  /** A domain row has no anchor of its own, so its relaxed depth is loaded as it stands. */
  lemma AnchorLoaded(db: Db, b: Batch, sourceID: nat, anchorOf: AnchorFn, a: nat, aid: nat)
    requires TableOK(db) && AnchorsOK(db, anchorOf) && AnchorFnOK(anchorOf) && RootOf(db, b, sourceID) && b.Has(a)
    requires IsNode(b.Item(a)) && b.Item(a).fields.etype == ANCHOR_TYPE
    requires aid in db.rows && SameNode(db.rows[aid], ANCHOR_TYPE, b.Item(a).fields.value)
    ensures InitialStates(db, b, sourceID)[a].relaxed == db.rows[aid].relaxed
  {
    FindNode(db, b, a);
    assert InitialStates(db, b, sourceID)[a] == InitialState(db, b, sourceID, a);
    assert db.rows[aid].anchor.None?;
  }

  lemma InitialStatesOK(db: Db, b: Batch, sourceID: nat, anchorOf: AnchorFn)
    requires DbInv(db, anchorOf) && AnchorFnOK(anchorOf) && Indexed(b) && RootOf(db, b, sourceID)
    ensures StatesOK(b, anchorOf, InitialStates(db, b, sourceID))
  {
    hide DbInv, StateOK;
    forall v: nat | b.Has(v) ensures StateOK(b, anchorOf, InitialStates(db, b, sourceID), v) {
      InitialStateOK(db, b, sourceID, anchorOf, v);
    }
  }

  // ------------------------------------------------------------ marking

  ghost predicate MarkKeeps(st: States, st': States) {
    |st'| == |st| && forall v :: 0 <= v < |st| ==> SameDepths(st[v], st'[v]) && (st'[v].isAnchor ==> st[v].isAnchor)
  }

  lemma MarkOneKeeps(b: Batch, st: States, r: BatchResult)
    requires |st| == |b.entities| + 1 && b.Has(r.sourceID) && b.Has(r.targetID)
    ensures MarkKeeps(st, MarkResult(b, st, r)) && !MarkResult(b, st, r)[r.targetID].isAnchor
  {
  }

  lemma MarkStays(st: States, st': States, v: nat)
    requires MarkKeeps(st, st') && v < |st| && !st[v].isAnchor
    ensures !st'[v].isAnchor
  {
  }

  lemma MarkKeepsTrans(a: States, b: States, c: States)
    requires MarkKeeps(a, b) && MarkKeeps(b, c)
    ensures MarkKeeps(a, c)
  {
  }

  lemma {:induction false} MarkAllKeeps(b: Batch, st: States, rs: seq<BatchResult>)
    requires |st| == |b.entities| + 1 && forall r <- rs :: b.Has(r.sourceID) && b.Has(r.targetID)
    ensures MarkKeeps(st, MarkAll(b, st, rs))
    ensures forall i :: 0 <= i < |rs| ==> !MarkAll(b, st, rs)[rs[i].targetID].isAnchor
    decreases |rs|
  {
    if rs != [] {
      assert forall r <- rs[1..] :: r in rs;
      var st' := MarkResult(b, st, rs[0]);
      MarkOneKeeps(b, st, rs[0]);
      hide MarkResult, MarkKeeps;
      MarkAllKeeps(b, st', rs[1..]);
      forall i | 0 <= i < |rs| ensures !MarkAll(b, st, rs)[rs[i].targetID].isAnchor {
        if i > 0 {
          assert rs[1..][i - 1] == rs[i];
        } else {
          MarkStays(st', MarkAll(b, st', rs[1..]), rs[0].targetID);
        }
      }
      MarkKeepsTrans(st, st', MarkAll(b, st', rs[1..]));
    }
  }

  /** The result's own flag counts for its target, unless it is a subdomain of the project's
      first domain; for any other subdomain it counts for the anchor as well. */
  predicate Blocks(b: Batch, st: States, r: BatchResult, v: nat)
    requires b.Has(r.targetID) && b.Has(v) && |st| == |b.entities| + 1
  {
    var key := NodeKey(ANCHOR_TYPE, r.result.anchor);
    var known := key in b.nodeIndex && b.nodeIndex[key] < |st|;
    var first := known && st[b.nodeIndex[key]].dbID == 1;
    var subdomain := b.Item(r.targetID).fields.etype == "subdomain";
    || (v == r.targetID && (b.Item(v).outOfScope || (r.result.outOfScope && !(subdomain && first))))
    || (known && v == b.nodeIndex[key] && subdomain && r.result.outOfScope && !first)
  }

  predicate SameIDs(st: States, st': States) {
    |st'| == |st| && forall v :: 0 <= v < |st| ==> st'[v].dbID == st[v].dbID
  }

  lemma MarkOneMeaning(b: Batch, st: States, r: BatchResult, v: nat)
    requires |st| == |b.entities| + 1 && b.Has(r.sourceID) && b.Has(r.targetID) && b.Has(v)
    ensures SameIDs(st, MarkResult(b, st, r))
    ensures MarkResult(b, st, r)[v].outOfScope <==> st[v].outOfScope || Blocks(b, st, r, v)
    ensures MarkResult(b, st, r)[v].isAnchor <==> st[v].isAnchor && v != r.sourceID && v != r.targetID
  {
  }

  lemma SameIDsBlock(b: Batch, st: States, st': States, r: BatchResult, v: nat)
    requires b.Has(r.targetID) && b.Has(v) && |st| == |b.entities| + 1 && SameIDs(st, st')
    ensures Blocks(b, st', r, v) == Blocks(b, st, r, v)
  {
  }

  /** The marks do not depend on the order of the results: an entity ends blocked exactly when
      it was or some result blocks it, a mere anchor exactly when it was and no result names it. */
  lemma {:induction false} MarkMeaning(b: Batch, st: States, rs: seq<BatchResult>, v: nat)
    requires |st| == |b.entities| + 1 && b.Has(v) && forall i :: 0 <= i < |rs| ==>
               b.Has(rs[i].sourceID) && b.Has(rs[i].targetID)
    requires forall r <- rs :: b.Has(r.sourceID) && b.Has(r.targetID)
    ensures MarkAll(b, st, rs)[v].outOfScope <==>
              st[v].outOfScope || exists i :: 0 <= i < |rs| && Blocks(b, st, rs[i], v)
    ensures MarkAll(b, st, rs)[v].isAnchor <==>
              st[v].isAnchor && forall i :: 0 <= i < |rs| ==> v != rs[i].sourceID && v != rs[i].targetID
    decreases |rs|
  {
    if rs != [] {
      var st', rest := MarkResult(b, st, rs[0]), rs[1..];
      MarkOneMeaning(b, st, rs[0], v);
      assert forall r <- rest :: r in rs;
      hide MarkResult, Blocks;
      MarkMeaning(b, st', rest, v);
      RestMarks(b, st, st', rs, v);
    }
  }

  lemma RestMarks(b: Batch, st: States, st': States, rs: seq<BatchResult>, v: nat)
    requires |st| == |b.entities| + 1 && b.Has(v) && forall i :: 0 <= i < |rs| ==>
               b.Has(rs[i].sourceID) && b.Has(rs[i].targetID)
    requires rs != [] && SameIDs(st, st')
    ensures (exists i :: 0 <= i < |rs| && Blocks(b, st, rs[i], v)) <==>
              Blocks(b, st, rs[0], v) || exists i :: 0 <= i < |rs| - 1 && Blocks(b, st', rs[1..][i], v)
    ensures (forall i :: 0 <= i < |rs| ==> v != rs[i].sourceID && v != rs[i].targetID) <==>
              v != rs[0].sourceID && v != rs[0].targetID && forall i :: 0 <= i < |rs| - 1 ==>
                    v != rs[1..][i].sourceID && v != rs[1..][i].targetID
  {
    hide Blocks;
    var rest := rs[1..];
    assert forall i :: 0 < i < |rs| ==> rs[i] == rest[i - 1];
    forall i | 0 < i < |rs| ensures Blocks(b, st', rest[i - 1], v) == Blocks(b, st, rs[i], v) {
      SameIDsBlock(b, st, st', rs[i], v);
    }
    assert forall i :: 0 <= i < |rest| ==>
             rest[i] == rs[i + 1] && Blocks(b, st', rest[i], v) == Blocks(b, st, rs[i + 1], v);
  }

  lemma SameDepthsStatesOK(b: Batch, anchorOf: AnchorFn, st: States, st': States)
    requires StatesOK(b, anchorOf, st) && MarkKeeps(st, st')
    ensures StatesOK(b, anchorOf, st')
  {
    forall v: nat | b.Has(v) ensures StateOK(b, anchorOf, st', v) {
      assert StateOK(b, anchorOf, st, v);
    }
  }

  lemma IntroducedUnmarked(b: Batch, anchorOf: AnchorFn, st: States, v: nat)
    requires AnchorFnOK(anchorOf) && |st| == |b.entities| + 1 && b.Has(b.rootID) && b.Has(v)
    requires AnchorNameOf(b, anchorOf, v) != "" && Introduced(b, v, |b.results|)
    requires !st[b.rootID].isAnchor
    requires forall i :: 0 <= i < |b.results| ==> b.Has(b.results[i].targetID) && !st[b.results[i].targetID].isAnchor
    ensures !st[v].isAnchor
  {
    if v != b.rootID {
      var j :| 0 <= j < |b.results| && (b.results[j].targetID == v || Anchors(b, b.results[j], v));
      assert b.results[j].targetID == v;
    }
  }

  /** Entities with an anchor of their own are written as regular nodes. */
  ghost predicate AnchoredUnmarked(b: Batch, anchorOf: AnchorFn, st: States)
    requires |st| == |b.entities| + 1
  {
    forall v: nat :: b.Has(v) && AnchorNameOf(b, anchorOf, v) != "" ==> !st[v].isAnchor
  }

  ghost predicate TargetsUnmarked(b: Batch, st: States) {
    && |st| == |b.entities| + 1 && b.Has(b.rootID) && !st[b.rootID].isAnchor
    && forall i :: 0 <= i < |b.results| ==> b.Has(b.results[i].targetID) && !st[b.results[i].targetID].isAnchor
  }

  lemma MarksFrom(b: Batch, st0: States)
    requires |st0| == |b.entities| + 1 && b.Has(b.rootID) && forall r <- b.results ::
               b.Has(r.sourceID) && b.Has(r.targetID)
    ensures var st := MarkAll(b, ClearAnchorMark(st0, b.rootID), b.results);
            MarkKeeps(st0, st) && TargetsUnmarked(b, st)
  {
    var st1 := ClearAnchorMark(st0, b.rootID);
    MarkAllKeeps(b, st1, b.results);
    assert MarkKeeps(st0, st1);
    assert !st1[b.rootID].isAnchor;
  }

  lemma MarksOnly(db: Db, b: Batch, sourceID: nat)
    requires WellFormed(b) && sourceID in db.rows
    ensures MarkKeeps(InitialStates(db, b, sourceID), MarkedStates(db, b, sourceID))
    ensures TargetsUnmarked(b, MarkedStates(db, b, sourceID))
  {
    assert b.Has(b.rootID);
    hide WellFormed, MarkKeeps, TargetsUnmarked;
    ItemsOK(b);
    MarksFrom(b, InitialStates(db, b, sourceID));
  }

  lemma MarkedStatesOK(db: Db, b: Batch, sourceID: nat, anchorOf: AnchorFn)
    requires DbInv(db, anchorOf) && AnchorFnOK(anchorOf) && RootOf(db, b, sourceID)
    requires WellFormed(b) && Indexed(b)
    ensures StatesOK(b, anchorOf, MarkedStates(db, b, sourceID))
    ensures MarkKeeps(InitialStates(db, b, sourceID), MarkedStates(db, b, sourceID))
    ensures AnchoredUnmarked(b, anchorOf, MarkedStates(db, b, sourceID))
  {
    hide DbInv, AnchorFnOK, IndexesAgree, ResultOK, Introduced, StateOK, MarkedStates;
    InitialStatesOK(db, b, sourceID, anchorOf);
    MarksOnly(db, b, sourceID);
    var st := MarkedStates(db, b, sourceID);
    SameDepthsStatesOK(b, anchorOf, InitialStates(db, b, sourceID), st);
    forall v: nat | b.Has(v) && AnchorNameOf(b, anchorOf, v) != "" ensures !st[v].isAnchor {
      IntroducedUnmarked(b, anchorOf, st, v);
    }
  }

  lemma SameMarksUnmarked(b: Batch, st: States, st': States)
    requires TargetsUnmarked(b, st) && SameMarks(st, st')
    ensures TargetsUnmarked(b, st')
  {
  }

  /** What the writer may rely on. */
  lemma FinalStatesOK(db: Db, b: Batch, sourceID: nat, anchorOf: AnchorFn)
    requires DbInv(db, anchorOf) && AnchorFnOK(anchorOf) && RootOf(db, b, sourceID)
    requires WellFormed(b) && Plain(b, anchorOf)
    ensures StatesOK(b, anchorOf, FinalStates(db, b, sourceID))
    ensures Untouched(b, anchorOf, InitialStates(db, b, sourceID), FinalStates(db, b, sourceID))
    ensures AnchoredUnmarked(b, anchorOf, FinalStates(db, b, sourceID))
            && TargetsUnmarked(b, FinalStates(db, b, sourceID))
  {
    hide DbInv, AnchorFnOK, WellFormed, StateOK, MarkedStates, TargetsUnmarked;
    MarksOnly(db, b, sourceID);
    ItemsOK(b);
    ItemsOfFit(b, anchorOf);
    MarkedStatesOK(db, b, sourceID, anchorOf);
    var st := MarkedStates(db, b, sourceID);
    PassesKeepStates(b, anchorOf, st, st, Items(b, b.results), |b.entities|);
    SameMarksUnmarked(b, st, FinalStates(db, b, sourceID));
  }
}
