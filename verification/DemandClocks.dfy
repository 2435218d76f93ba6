/**
  Demand under concurrency. Each stock call reads its clock while it holds the lock of its inventory row, so
  the rows of one item are in time order in every interleaving, although commits of different items are not.
*/
module DemandClocks {
  import opened Wrappers
  import opened Ledger
  import opened LedgerInvariant
  import opened Replay
  import opened DemandLog
  import opened Interleaving

  /** The step at which a call gets the lock of its inventory row, or finds no row. */
  ghost predicate LocksRow(sys: Sys, e: Event) {
    e.Step? && e.t in sys.txns && sys.txns[e.t].Call? && sys.txns[e.t].stage.LockingItem? && IsCall(sys.txns[e.t].op)
  }

  /** `times` are the times at which the events happen; a call's clock is that of its row lock. */
  ghost predicate ClockedAtTheLock(start: Sys, es: seq<Event>, times: seq<Time>) {
    && |times| == |es|
    && (forall i, j :: 0 <= i <= j < |times| ==> times[i] <= times[j])
    && (forall i :: 0 <= i < |es| && LocksRow(Exec(start, es[..i]), es[i]) ==>
          Exec(start, es[..i]).txns[es[i].t].op.now == times[i])
  }

  /** The forecast's window balances in every interleaving. */
  lemma {:induction false} InterleavedWindowBalance(
      start: Sys, es: seq<Event>, times: seq<Time>, key: ItemKey, cutoff: Time)
    requires Quiet(start) && Inv(start.db) && start.db.items == map[] && start.db.audit == []
    requires ClockedAtTheLock(start, es, times) && key in Exec(start, es).db.items
    ensures var now := Exec(start, es).db; var t := now.items[key].tenant;
            Outgoing(now.audit, t, key, cutoff) - Incoming(now.audit, t, key, cutoff)
            == LastQuantity(now.audit[..WindowStart(now.audit, key, cutoff)], key) - now.items[key].quantity
  {
    InterleavingsAreSerial(start, es);
    InterleavingIsTimed(start, es, times, if es == [] then 0 else times[|es| - 1]);
    RunWindowBalance(start.db, Exec(start, es).commits, key, cutoff);
  }

  // ---- what every step keeps about time --------------------------------------------------------------

  predicate Moved(r: AuditRow) { r.ItemRow? && r.before.quantity != r.after.quantity }

  /** The movements of `key` so far were not after `t`. */
  ghost predicate MovedBy(log: seq<AuditRow>, key: ItemKey, t: Time)
  { forall r :: r in log && Moves(r, key) ==> r.at <= t }

  /** A call that has its row lock has read its clock, after every movement of that row. */
  ghost predicate TxnTimed(db: State, txn: Txn, t: Time) {
    txn.Call? && Rank(txn) >= 3 && IsCall(txn.op) && DocFits(txn.op, txn.doc) ==>
      && txn.op.now <= t
      && (ItemOf(txn.op, txn.doc).Some? && txn.item.Some? ==>
            MovedBy(db.audit, ItemOf(txn.op, txn.doc).value, txn.op.now))
  }

  ghost predicate Timed(sys: Sys, t: Time) {
    && (forall key :: InOrder(sys.db.audit, key))
    && (forall key :: MovedBy(sys.db.audit, key, t))
    && (forall u :: u in sys.txns ==> TxnTimed(sys.db, sys.txns[u], t))
  }

  lemma {:induction false} InterleavingIsTimed(start: Sys, es: seq<Event>, times: seq<Time>, t: Time)
    requires Quiet(start) && Inv(start.db) && start.db.items == map[] && start.db.audit == []
    requires ClockedAtTheLock(start, es, times) && (forall i :: 0 <= i < |times| ==> times[i] <= t)
    ensures Timed(Exec(start, es), t)
  {
    if es != [] {
      var n := |es| - 1;
      forall i | 0 <= i < n && LocksRow(Exec(start, es[..n][..i]), es[..n][i])
        ensures Exec(start, es[..n][..i]).txns[es[..n][i].t].op.now == times[..n][i]
      {
        assert es[..n][..i] == es[..i];
      }
      InterleavingIsTimed(start, es[..n], times[..n], times[n]);
      InterleavingsAreSerial(start, es[..n]);
      RunNamesTenants(start.db, Exec(start, es[..n]).commits);
      StepIsTimed(Exec(start, es[..n]), es[n], times[n]);
      LaterIsTimed(Exec(start, es), times[n], t);
    }
  }

  lemma LaterIsTimed(sys: Sys, t: Time, later: Time)
    requires Timed(sys, t) && t <= later
    ensures Timed(sys, later)
  {
    forall key ensures MovedBy(sys.db.audit, key, later) { assert MovedBy(sys.db.audit, key, t); }
  }

  lemma {:induction false} StepIsTimed(sys: Sys, e: Event, t: Time)
    requires SysInv(sys) && RowsNameTheirTenant(sys.db) && Timed(sys, t)
    requires LocksRow(sys, e) ==> sys.txns[e.t].op.now == t
    ensures Timed(Do(sys, e), t)
  {
    if Enabled(sys, e) {
      if e.Step? {
        if sys.txns[e.t].Cycle? {
          CycleIsTimed(sys, e.t, t);
        } else {
          CallIsTimed(sys, e.t, t);
        }
      } else {
        QuietStepIsTimed(sys, e, t);
      }
    }
  }

  lemma {:induction false} QuietStepIsTimed(sys: Sys, e: Event, t: Time)
    requires Timed(sys, t) && Enabled(sys, e) && !e.Step?
    ensures Timed(Do(sys, e), t)
  {
  }

  lemma {:induction false} CallIsTimed(sys: Sys, t: nat, now: Time)
    requires SysInv(sys) && RowsNameTheirTenant(sys.db) && Timed(sys, now)
    requires t in sys.txns && sys.txns[t].Call? && !Blocked(sys, t)
    requires sys.txns[t].stage.LockingItem? ==> sys.txns[t].op.now == now
    ensures Timed(Do(sys, Step(t)), now)
  {
    assert CallOk(sys.db, sys.txns[t]);
    match Advance(sys.db, sys.txns[t])
    case Goto(next) => GotoIsTimed(sys.db, sys.txns[t], next, now);
    case End(_) =>
    case CommitNow =>
      ReadyStepFinishes(sys, t);
      CommitIsTimed(sys, t, now);
  }

  lemma {:induction false} GotoIsTimed(db: State, txn: Txn, next: Txn, now: Time)
    requires txn.Call? && IsCall(txn.op) && Advance(db, txn) == Goto(next) && TxnTimed(db, txn, now)
    requires txn.stage.LockingItem? ==> txn.op.now == now
    requires forall key :: MovedBy(db.audit, key, now)
    ensures TxnTimed(db, next, now)
  {
  }

  /** What a commit may append: rows of items it holds, timed after their earlier movements. */
  ghost predicate RowsFit(sys: Sys, t: nat, rows: seq<AuditRow>, now: Time)
    requires t in sys.txns
  {
    forall r :: r in rows && Moved(r) ==>
      r.at <= now && ItemRes(r.key) in Held(sys.txns[t]) && MovedBy(sys.db.audit + rows, r.key, r.at)
  }

  lemma {:induction false} FinishIsTimed(sys: Sys, t: nat, w: Write, ops: seq<Op>, now: Time)
    requires SysInv(sys) && Timed(sys, now) && t in sys.txns && RowsFit(sys, t, w.rows, now)
    ensures Timed(Finish(sys, t, w, ops), now)
  {
    var log, all := sys.db.audit, sys.db.audit + w.rows;
    forall key ensures InOrder(all, key) && MovedBy(all, key, now) {
      assert InOrder(log, key) && MovedBy(log, key, now);
      LogsJoin(log, w.rows, key);
    }
    forall u | u in sys.txns && u != t ensures TxnTimed(Install(sys.db, w), sys.txns[u], now) {
      assert TxnTimed(sys.db, sys.txns[u], now) && Held(sys.txns[u]) !! Held(sys.txns[t]);
      OtherIsTimed(sys, t, u, w, now);
    }
  }

  lemma {:induction false} LogsJoin(log: seq<AuditRow>, rows: seq<AuditRow>, key: ItemKey)
    requires InOrder(log, key) && (forall r :: r in rows && Moves(r, key) ==> MovedBy(log + rows, key, r.at))
    ensures InOrder(log + rows, key)
  {
    var all := log + rows;
    forall i, j | 0 <= i < j < |all| && Moves(all[i], key) && Moves(all[j], key) ensures all[i].at <= all[j].at {
      if j >= |log| {
        assert all[j] in rows && all[i] in all;
      }
    }
  }

  lemma {:induction false} OtherIsTimed(sys: Sys, t: nat, u: nat, w: Write, now: Time)
    requires SysInv(sys) && t in sys.txns && u in sys.txns && t != u && RowsFit(sys, t, w.rows, now)
    requires TxnTimed(sys.db, sys.txns[u], now) && Held(sys.txns[u]) !! Held(sys.txns[t])
    ensures TxnTimed(Install(sys.db, w), sys.txns[u], now)
  {
    var txn := sys.txns[u];
    if txn.Call? && Rank(txn) >= 3 && IsCall(txn.op) && DocFits(txn.op, txn.doc)
       && ItemOf(txn.op, txn.doc).Some? && txn.item.Some? {
      var key := ItemOf(txn.op, txn.doc).value;
      assert ItemRes(key) in Held(txn);
      assert forall r :: r in w.rows && Moves(r, key) ==> Moved(r);
    }
  }

  lemma {:induction false} CommitIsTimed(sys: Sys, t: nat, now: Time)
    requires SysInv(sys) && RowsNameTheirTenant(sys.db) && Timed(sys, now)
    requires t in sys.txns && sys.txns[t].Call? && sys.txns[t].stage.Ready?
    requires Passed(sys.db, sys.txns[t].op, sys.txns[t].doc, sys.txns[t].item)
    ensures var txn := sys.txns[t];
            Timed(Finish(sys, t, Effect(sys.db.cat, txn.op, txn.doc, txn.item), [txn.op]), now)
  {
    var txn := sys.txns[t];
    var w := Effect(sys.db.cat, txn.op, txn.doc, txn.item);
    assert TxnOk(sys.db, txn) && TxnTimed(sys.db, txn, now);
    EffectRowsAt(sys.db.cat, txn.op, txn.doc, txn.item);
    EffectItemRows(sys.db.cat, txn.op, txn.doc, txn.item);
    EffectWithinHeld(sys.db, txn);
    OwnRowsFit(sys, t, w, now);
    FinishIsTimed(sys, t, w, [txn.op], now);
  }

  /** The item rows of a write are about the row it writes. */
  lemma {:induction false} EffectItemRows(cat: Catalog, op: Op, doc: Doc, item: Option<Item>)
    requires !IsEdit(op) && DocFits(op, doc) && (ItemOf(op, doc).Some? ==> CheckItem(cat, op, doc, item).None?)
    ensures var w := Effect(cat, op, doc, item);
            && (forall r :: r in w.rows && r.ItemRow? ==> ItemOf(op, doc) == Some(r.key))
            && (ItemOf(op, doc).Some? ==> ItemOf(op, doc).value in w.items)
  {
    NoItemRows(op, doc);
    if ItemOf(op, doc).Some? {
      var key, before, after := ItemOf(op, doc).value, BeforeItem(cat, op, doc, item), AfterItem(cat, op, doc, item);
      StockRowTenant(op, key, before, after);
      assert Effect(cat, op, doc, item).rows == DocRows(op, doc) + StockRows(op, key, before, after) + GapRows(op, doc);
    }
  }

  lemma {:induction false} OwnRowsFit(sys: Sys, t: nat, w: Write, now: Time)
    requires t in sys.txns && sys.txns[t].Call? && sys.txns[t].stage.Ready? && RowsNameTheirTenant(sys.db)
    requires Passed(sys.db, sys.txns[t].op, sys.txns[t].doc, sys.txns[t].item) && IsCall(sys.txns[t].op)
    requires TxnTimed(sys.db, sys.txns[t], now) && Within(w, Held(sys.txns[t]))
    requires forall r :: r in w.rows ==> r.at == sys.txns[t].op.now
    requires forall r :: r in w.rows && r.ItemRow? ==> ItemOf(sys.txns[t].op, sys.txns[t].doc) == Some(r.key)
    requires ItemOf(sys.txns[t].op, sys.txns[t].doc).Some? ==> ItemOf(sys.txns[t].op, sys.txns[t].doc).value in w.items
    ensures RowsFit(sys, t, w.rows, now)
  {
    var txn := sys.txns[t];
    forall r | r in w.rows && Moved(r)
      ensures r.at <= now && ItemRes(r.key) in Held(txn) && MovedBy(sys.db.audit + w.rows, r.key, r.at)
    {
      if txn.item.None? { MissingRowNeverMoved(sys.db, txn.op, txn.doc); }
      forall q | q in sys.db.audit + w.rows && Moves(q, r.key) ensures q.at <= r.at {
        assert q in sys.db.audit || q in w.rows;
      }
    }
  }

  /** A row that is about to be inserted has no audit rows. */
  lemma {:induction false} MissingRowNeverMoved(db: State, op: Op, doc: Doc)
    requires RowsNameTheirTenant(db) && Passed(db, op, doc, None) && IsCall(op) && ItemOf(op, doc).Some?
    ensures forall r :: r in db.audit ==> !Moves(r, ItemOf(op, doc).value)
  {
    assert ItemOf(op, doc).value !in db.items;
  }

  // ---- decay cycles move nothing ---------------------------------------------------------------------

  lemma {:induction false} CycleIsTimed(sys: Sys, t: nat, now: Time)
    requires SysInv(sys) && Timed(sys, now) && t in sys.txns && sys.txns[t].Cycle? && !Blocked(sys, t)
    ensures Timed(Do(sys, Step(t)), now)
  {
    var txn := sys.txns[t];
    assert TxnOk(sys.db, txn);
    DecayMovesNothing(sys.db.cat, txn.view, txn.steps);
    FinishIsTimed(sys, t, CycleWrite(sys.db.cat, txn), txn.steps, now);
  }

  lemma {:induction false} DecayMovesNothing(cat: Catalog, view: map<ItemKey, Item>, steps: seq<Op>)
    requires StepsOn(steps, view.Keys)
    ensures forall r :: r in Local(cat, view, steps).audit ==> !Moved(r)
  {
    if steps != [] {
      var prefix, op := steps[..|steps| - 1], steps[|steps| - 1];
      DecayMovesNothing(cat, view, prefix);
      CycleWritesItsView(cat, view, prefix);
      DecayNext(Local(cat, view, prefix), op);
    }
  }
}
