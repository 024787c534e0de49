/**
 Runs of the database: a new project followed by any sequence of `Store` calls and scope
 updates.  Every database of every run is hop-sound, never has a relaxed depth above the
 strict one, and keeps parents before their properties.
 */
module History {
  import opened Schema
  import opened StoreBatch
  import opened DepthLoop
  import opened Database
  import opened StoreDb
  import opened BatchFacts
  import opened EntityStates
  import opened StoreWrites
  import opened StoreStep
  import opened StoreKeeps

  ghost predicate StoreStepTo(db: Db, db': Db, anchorOf: AnchorFn) {
    exists p: Packet, blamed: string, order: seq<nat> :: StoresTo(db, db', anchorOf, p, blamed, order)
  }

  ghost predicate StoresTo(db: Db, db': Db, anchorOf: AnchorFn, p: Packet, blamed: string, order: seq<nat>) {
    && PacketFits(db, p, anchorOf) && LayerOrder(PacketBatch(db, p), order) && Blames(p, blamed)
    && db' == Stored(db, p, blamed, order)
  }

  predicate SameButScope(r: Row, r': Row) {
    r' == r.(scope := r'.scope)
  }

  /** Scope synchronisation rewrites the out_of_scope column and nothing else. */
  ghost predicate ScopeStepTo(db: Db, db': Db) {
    && db' == db.(rows := db'.rows) && db'.rows.Keys == db.rows.Keys
    && forall id :: id in db.rows ==> SameButScope(db.rows[id], db'.rows[id])
  }

  ghost predicate IsHistory(h: seq<Db>, etype: string, value: string, anchorOf: AnchorFn) {
    && h != [] && h[0] == InitialDb(etype, value, anchorOf(etype, value))
    && forall i :: 0 <= i < |h| - 1 ==> StoreStepTo(h[i], h[i + 1], anchorOf) || ScopeStepTo(h[i], h[i + 1])
  }

  lemma ScopeTable(db: Db, db': Db)
    requires TableOK(db) && RelationsOK(db) && ScopeStepTo(db, db')
    ensures TableOK(db') && RelationsOK(db')
  {
    forall id | id in db'.rows ensures RowOK(db', id, db'.rows[id]) {
      assert RowOK(db, id, db.rows[id]);
    }
    forall i, j | i in db'.rows && j in db'.rows && Collides(db'.rows[i], db'.rows[j]) ensures i == j {
      assert Collides(db.rows[i], db.rows[j]);
    }
  }

  lemma ScopeGrows(db: Db, db': Db)
    requires ScopeStepTo(db, db')
    ensures Grows(db, db')
  {
  }

  lemma ScopeKeepsDb(db: Db, db': Db, anchorOf: AnchorFn)
    requires DbInv(db, anchorOf) && ScopeStepTo(db, db')
    ensures DbInv(db', anchorOf)
  {
    ScopeTable(db, db');
    ScopeGrows(db, db');
    hide TableOK, RelationsOK, Grows, Within;
    assert AnchorsOK(db', anchorOf);
    forall id | id in db'.rows ensures RelaxedRowOK(db', anchorOf, db'.rows[id]) {
      assert RelaxedRowOK(db, anchorOf, db.rows[id]);
    }
    forall id | id in db'.rows && db'.rows[id].strict < UNRESOLVED ensures Within(db', id, db'.rows[id].strict) {
      WithinKept(db, db', id, db.rows[id].strict);
    }
  }

  /** All databases of all runs. */
  lemma {:induction false} HistoryInv(h: seq<Db>, etype: string, value: string, anchorOf: AnchorFn, i: nat)
    requires IsHistory(h, etype, value, anchorOf) && AnchorFnOK(anchorOf) && i < |h|
    ensures DbInv(h[i], anchorOf)
  {
    if i == 0 {
      InitialInv(etype, value, anchorOf);
    } else {
      HistoryInv(h, etype, value, anchorOf, i - 1);
      hide DbInv, AnchorFnOK, Stored, PacketFits, LayerOrder, ScopeStepTo, PacketBatch, InitialDb;
      if StoreStepTo(h[i - 1], h[i], anchorOf) {
        var p: Packet, blamed: string, order: seq<nat> :| StoresTo(h[i - 1], h[i], anchorOf, p, blamed, order);
        StoreKeepsDb(h[i - 1], p, blamed, order, anchorOf);
      } else {
        ScopeKeepsDb(h[i - 1], h[i], anchorOf);
      }
    }
  }

  // ------------------------------------------------------------ what that means for a reader of the tables

  /** A row within the strict limit is within that many node hops of the initial target. */
  lemma StrictLimitIsHopLimit(h: seq<Db>, etype: string, value: string, anchorOf: AnchorFn, i: nat, id: nat,
      maxDepth: nat)
    requires IsHistory(h, etype, value, anchorOf) && AnchorFnOK(anchorOf) && i < |h|
    requires id in h[i].rows && h[i].rows[id].strict <= maxDepth < UNRESOLVED
    ensures Within(h[i], id, maxDepth)
  {
    HistoryInv(h, etype, value, anchorOf, i);
    WithinWeakens(h[i], id, h[i].rows[id].strict, maxDepth);
  }

  /** A row within the strict limit is within the relaxed limit, as the queries read it. */
  lemma RelaxedLimitIsWider(h: seq<Db>, etype: string, value: string, anchorOf: AnchorFn, i: nat, id: nat,
      maxDepth: nat)
    requires IsHistory(h, etype, value, anchorOf) && AnchorFnOK(anchorOf) && i < |h|
    requires id in h[i].rows && h[i].rows[id].strict <= maxDepth
    ensures EffectiveRelaxed(h[i], h[i].rows[id]) <= maxDepth
  {
    HistoryInv(h, etype, value, anchorOf, i);
    assert RelaxedRowOK(h[i], anchorOf, h[i].rows[id]);
  }
}
