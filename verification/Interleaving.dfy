/**
  Stock transactions as interleaved steps under PostgreSQL's read-committed row locks.

  A call checks without locks, locks and reads its transfer or order row, locks and reads its inventory row,
  claims the unique key of the row it inserts, and commits its buffered writes. FOR UPDATE waits for the
  holder and then reads the committed row; a claim waits for another claim of the same key and aborts on a
  committed one. A decay cycle locks rows one by one with SKIP LOCKED: it takes a free row or passes it by.
  A transaction may also vanish at any point (crash, timeout, rollback). The catalogue does not change.
*/
module Interleaving {
  import opened Wrappers
  import opened Ledger
  import opened LedgerInvariant
  import opened Sums
  import opened Conservation
  import opened Replay
  import opened Lifecycles

  /** What a transaction can hold: a row lock, or the unique key of a row it is inserting. */
  datatype Res = ItemRes(item: ItemKey) | TransferRes(transfer: TransferId) | OrderRes(order: OrderId)

  datatype Stage = Checking | LockingDoc | LockingItem | Inserting | Ready

  /** A transaction in flight with what it has read so far. */
  datatype Txn =
    | Call(op: Op, stage: Stage, doc: Doc, item: Option<Item>)
    | Cycle(scope: Option<Id>, now: Time, users: map<Id, Id>, discounting: bool,
            view: map<ItemKey, Item>, steps: seq<Op>)

  /** The committed tables, the transactions in flight, and the calls committed so far. */
  datatype Sys = Sys(db: State, txns: map<nat, Txn>, commits: seq<Op>)

  function Rank(txn: Txn): nat {
    match txn
    case Call(_, Checking, _, _) => 0
    case Call(_, LockingDoc, _, _) => 1
    case Call(_, LockingItem, _, _) => 2
    case Call(_, Inserting, _, _) => 3
    case Call(_, Ready, _, _) => 4
    case Cycle(_, _, _, _, _, _) => 4
  }

  /** Calls that run as a transaction of their own; decay row steps belong to a cycle. */
  predicate IsCall(op: Op) { !IsEdit(op) && !op.Mark? && !op.Discount? }

  // ---- locks -----------------------------------------------------------------------------------------

  function DocRes(op: Op): set<Res> {
    if TakesTransfer(op) then {TransferRes(op.transfer)} else if TakesOrder(op) then {OrderRes(op.order)} else {}
  }

  /** The row lock on the inventory row, when the lookup found one. */
  function RowRes(op: Op, doc: Doc, item: Option<Item>): set<Res> {
    if DocFits(op, doc) && ItemOf(op, doc).Some? && item.Some? then {ItemRes(ItemOf(op, doc).value)} else {}
  }

  /** The unique key that a call claims by its insert. */
  function InsertRes(op: Op, doc: Doc, item: Option<Item>): set<Res> {
    if op.Create? then {TransferRes(TransferKey(op))}
    else if op.OrderCreate? then {OrderRes(OrderKey(op))}
    else if InsertsItem(op) && DocFits(op, doc) && item.None? then {ItemRes(ItemOf(op, doc).value)}
    else {}
  }

  function Held(txn: Txn): set<Res> {
    match txn
    case Call(op, _, doc, item) =>
      (if Rank(txn) >= 2 then DocRes(op) else {})
      + (if Rank(txn) >= 3 then RowRes(op, doc, item) else {})
      + (if Rank(txn) >= 4 then InsertRes(op, doc, item) else {})
    case Cycle(_, _, _, _, view, _) => set k | k in view :: ItemRes(k)
  }

  predicate InDb(db: State, r: Res) {
    match r
    case ItemRes(k) => k in db.items
    case TransferRes(id) => id in db.transfers
    case OrderRes(id) => id in db.orders
  }

  function LookUp(db: State, op: Op, doc: Doc): Option<Item> {
    if DocFits(op, doc) && ItemOf(op, doc).Some? then FindItem(db, op.tenant, ItemOf(op, doc).value) else None
  }

  /** What the next step of a transaction has to acquire; a decay cycle never waits. */
  function Wanted(db: State, txn: Txn): set<Res> {
    match txn
    case Call(op, LockingDoc, _, _) => if ReadDoc(db, op).Some? then DocRes(op) else {}
    case Call(op, LockingItem, doc, _) => RowRes(op, doc, LookUp(db, op, doc))
    case Call(op, Inserting, doc, item) => set r | r in InsertRes(op, doc, item) && !InDb(db, r)
    case _ => {}
  }

  /** Transaction a waits for transaction b. */
  predicate Waits(sys: Sys, a: nat, b: nat) {
    a in sys.txns && b in sys.txns && a != b && !(Wanted(sys.db, sys.txns[a]) !! Held(sys.txns[b]))
  }

  predicate Blocked(sys: Sys, a: nat) { exists b :: b in sys.txns && Waits(sys, a, b) }

  predicate Free(sys: Sys, t: nat, r: Res) { forall u :: u in sys.txns && u != t ==> r !in Held(sys.txns[u]) }

  // ---- steps -----------------------------------------------------------------------------------------

  datatype Move = Goto(txn: Txn) | End(reply: Reply) | CommitNow

  /** The next step of a call that does not have to wait. */
  function Advance(db: State, txn: Txn): Move
    requires txn.Call? && IsCall(txn.op)
  {
    var op, doc, item := txn.op, txn.doc, txn.item;
    match txn.stage
    case Checking =>
      if Precheck(db, op).Some? then End(Precheck(db, op).value) else Goto(txn.(stage := LockingDoc))
    case LockingDoc =>
      var found := ReadDoc(db, op);
      if found.None? then End(Failed(NotFound))
      else if CheckDoc(db.cat, op, found.value).Some? then End(CheckDoc(db.cat, op, found.value).value)
      else Goto(txn.(stage := LockingItem, doc := found.value))
    case LockingItem =>
      var row := LookUp(db, op, doc);
      if DocFits(op, doc) && ItemOf(op, doc).Some? && CheckItem(db.cat, op, doc, row).Some? then
        End(CheckItem(db.cat, op, doc, row).value)
      else Goto(txn.(stage := Inserting, item := row))
    case Inserting =>
      if DocFits(op, doc) && CheckInsert(db, op, doc, item).Some? then End(CheckInsert(db, op, doc, item).value)
      else Goto(txn.(stage := Ready))
    case Ready => CommitNow
  }

  /** The private tables of a decay cycle: the rows it locked, as its own steps have changed them. */
  function Local(cat: Catalog, view: map<ItemKey, Item>, steps: seq<Op>): State {
    Run(State(cat, view, map[], map[], []), steps)
  }

  function CycleWrite(cat: Catalog, txn: Txn): Write
    requires txn.Cycle?
  {
    var local := Local(cat, txn.view, txn.steps);
    Write(local.items, map[], map[], local.audit)
  }

  /** The row step of a cycle on one inventory row, in its marking or discounting phase. */
  function CycleStep(txn: Txn, key: ItemKey, tenant: Id): Op
    requires txn.Cycle?
  {
    var user := if tenant in txn.users then Some(txn.users[tenant]) else None;
    if txn.discounting then Discount(tenant, txn.now, key, user) else Mark(tenant, txn.now, key, user)
  }

  datatype Event =
    | Begin(t: nat, op: Op)
    | Step(t: nat)
    | Vanish(t: nat)
    | BeginCycle(t: nat, scope: Option<Id>, now: Time, users: map<Id, Id>)
    | Take(t: nat, key: ItemKey)
    | StartDiscounts(t: nat)

  predicate CanTake(sys: Sys, t: nat, key: ItemKey) {
    && t in sys.txns && sys.txns[t].Cycle? && key in sys.db.items && Free(sys, t, ItemRes(key))
    && var txn, tenant := sys.txns[t], sys.db.items[key].tenant;
       var view := if key in txn.view then txn.view else txn.view[key := sys.db.items[key]];
       && (txn.scope.None? || txn.scope.value == tenant)
       && Commits(Local(sys.db.cat, view, txn.steps), CycleStep(txn, key, tenant))
  }

  predicate Enabled(sys: Sys, e: Event) {
    match e
    case Begin(t, op) => t !in sys.txns && IsCall(op)
    case Step(t) => t in sys.txns && !Blocked(sys, t) && (sys.txns[t].Call? ==> IsCall(sys.txns[t].op))
    case Vanish(t) => t in sys.txns
    case BeginCycle(t, _, _, _) => t !in sys.txns
    case Take(t, key) => CanTake(sys, t, key)
    case StartDiscounts(t) => t in sys.txns && sys.txns[t].Cycle?
  }

  function Finish(sys: Sys, t: nat, w: Write, ops: seq<Op>): Sys {
    Sys(Install(sys.db, w), sys.txns - {t}, sys.commits + ops)
  }

  /** One step of the system; an event that is not enabled changes nothing. */
  function Do(sys: Sys, e: Event): Sys {
    if !Enabled(sys, e) then sys
    else
      match e
      case Begin(t, op) => sys.(txns := sys.txns[t := Call(op, Checking, NoDoc, None)])
      case BeginCycle(t, scope, now, users) => sys.(txns := sys.txns[t := Cycle(scope, now, users, false, map[], [])])
      case Vanish(t) => sys.(txns := sys.txns - {t})
      case StartDiscounts(t) => sys.(txns := sys.txns[t := sys.txns[t].(discounting := true)])
      case Take(t, key) =>
        var txn, row := sys.txns[t], sys.db.items[key];
        var view := if key in txn.view then txn.view else txn.view[key := row];
        sys.(txns := sys.txns[t := txn.(view := view, steps := txn.steps + [CycleStep(txn, key, row.tenant)])])
      case Step(t) =>
        var txn := sys.txns[t];
        if txn.Cycle? then Finish(sys, t, CycleWrite(sys.db.cat, txn), txn.steps)
        else
          match Advance(sys.db, txn)
          case Goto(next) => sys.(txns := sys.txns[t := next])
          case End(_) => sys.(txns := sys.txns - {t})
          case CommitNow =>
            if DocFits(txn.op, txn.doc)
               && (ItemOf(txn.op, txn.doc).Some? ==> CheckItem(sys.db.cat, txn.op, txn.doc, txn.item).None?)
            then Finish(sys, t, Effect(sys.db.cat, txn.op, txn.doc, txn.item), [txn.op])
            else sys
  }

  function Exec(sys: Sys, es: seq<Event>): Sys {
    if es == [] then sys else Do(Exec(sys, es[..|es| - 1]), es[|es| - 1])
  }

  // ---- invariant -------------------------------------------------------------------------------------

  /** The unlocked checks passed; since then only the transfer's own key can have appeared. */
  ghost predicate CheckedOnce(db: State, op: Op) {
    Precheck(db, op).None?
    || (op.Create? && op.source != op.destination && CreateEntitiesExist(db.cat, op) && TransferKey(op) in db.transfers)
  }

  /** What a call has read and still holds is what the tables contain. */
  ghost predicate CallOk(db: State, txn: Txn)
    requires txn.Call?
  {
    var op, doc, item := txn.op, txn.doc, txn.item;
    && IsCall(op)
    && (Rank(txn) >= 1 ==> CheckedOnce(db, op))
    && (Rank(txn) >= 2 ==> ReadDoc(db, op) == Some(doc) && CheckDoc(db.cat, op, doc).None?)
    && (Rank(txn) >= 3 ==>
          && (item.Some? ==> ItemOf(op, doc).Some? && item == FindItem(db, op.tenant, ItemOf(op, doc).value))
          && (ItemOf(op, doc).Some? ==> CheckItem(db.cat, op, doc, item).None?))
    && (Rank(txn) >= 4 ==> CheckInsert(db, op, doc, item).None?)
  }

  ghost predicate CycleOk(db: State, txn: Txn)
    requires txn.Cycle?
  {
    && (forall k :: k in txn.view ==> k in db.items && db.items[k] == txn.view[k])
    && (forall i :: 0 <= i < |txn.steps| ==> IsDecayStep(txn.steps[i]) && txn.steps[i].key in txn.view)
  }

  ghost predicate TxnOk(db: State, txn: Txn) { if txn.Call? then CallOk(db, txn) else CycleOk(db, txn) }

  ghost predicate SysInv(sys: Sys) {
    && (forall t :: t in sys.txns ==> TxnOk(sys.db, sys.txns[t]))
    && (forall t, u :: t in sys.txns && u in sys.txns && t != u ==> Held(sys.txns[t]) !! Held(sys.txns[u]))
  }

  /** The writes touch nothing outside `held`. */
  ghost predicate Within(w: Write, held: set<Res>) {
    && (forall k :: k in w.items ==> ItemRes(k) in held)
    && (forall id :: id in w.transfers ==> TransferRes(id) in held)
    && (forall id :: id in w.orders ==> OrderRes(id) in held)
  }

  // ---- serialisation ---------------------------------------------------------------------------------

  /** No transaction is in flight and nothing has been committed yet. */
  predicate Quiet(sys: Sys) { sys.txns == map[] && sys.commits == [] }

  ghost predicate Serialized(start: State, sys: Sys) {
    && sys.db == Run(start, sys.commits)
    && CreatesCommit(start, sys.commits)
    && forall i :: 0 <= i < |sys.commits| ==> !IsEdit(sys.commits[i])
  }

  /**
    Serialisability: whatever the interleaving, the tables and the audit log are those of running the committed
    calls one after the other in commit order. Aborted and vanished transactions leave no trace.
  */
  lemma {:induction false} InterleavingsAreSerial(sys: Sys, es: seq<Event>)
    requires Quiet(sys)
    ensures SysInv(Exec(sys, es)) && Serialized(sys.db, Exec(sys, es))
  {
    if es != [] {
      var prefix := es[..|es| - 1];
      InterleavingsAreSerial(sys, prefix);
      StepIsSerial(sys.db, Exec(sys, prefix), es[|es| - 1]);
    }
  }

  lemma {:induction false} StepIsSerial(start: State, sys: Sys, e: Event)
    requires SysInv(sys) && Serialized(start, sys)
    ensures SysInv(Do(sys, e)) && Serialized(start, Do(sys, e))
  {
    if Enabled(sys, e) {
      match e
      case Begin(t, op) =>
      case BeginCycle(t, _, _, _) =>
      case Vanish(t) =>
      case StartDiscounts(t) =>
        assert Held(sys.txns[t].(discounting := true)) == Held(sys.txns[t]);
      case Take(t, key) => TakeIsSafe(sys, t, key);
      case Step(t) =>
        if sys.txns[t].Cycle? {
          CycleCommitIsSerial(start, sys, t);
        } else {
          CallStepIsSerial(start, sys, t);
        }
    }
  }

  lemma {:induction false} CallStepIsSerial(start: State, sys: Sys, t: nat)
    requires SysInv(sys) && Serialized(start, sys) && t in sys.txns && sys.txns[t].Call? && !Blocked(sys, t)
    ensures SysInv(Do(sys, Step(t))) && Serialized(start, Do(sys, Step(t)))
  {
    assert CallOk(sys.db, sys.txns[t]);
    match Advance(sys.db, sys.txns[t])
    case Goto(next) => GotoIsSafe(sys, t, next);
    case End(_) =>
    case CommitNow =>
      ReadyStepFinishes(sys, t);
      CallCommitIsSerial(start, sys, t);
  }

  lemma {:induction false} ReadyStepFinishes(sys: Sys, t: nat)
    requires t in sys.txns && sys.txns[t].Call? && sys.txns[t].stage.Ready? && CallOk(sys.db, sys.txns[t])
    requires !Blocked(sys, t)
    ensures Passed(sys.db, sys.txns[t].op, sys.txns[t].doc, sys.txns[t].item)
    ensures var txn := sys.txns[t];
            Do(sys, Step(t)) == Finish(sys, t, Effect(sys.db.cat, txn.op, txn.doc, txn.item), [txn.op])
  {
    ReadyHasPassed(sys.db, sys.txns[t]);
  }

  lemma {:induction false} TakeIsSafe(sys: Sys, t: nat, key: ItemKey)
    requires SysInv(sys) && CanTake(sys, t, key)
    ensures SysInv(Do(sys, Take(t, key)))
  {
    var txn, row := sys.txns[t], sys.db.items[key];
    var view := if key in txn.view then txn.view else txn.view[key := row];
    var next := txn.(view := view, steps := txn.steps + [CycleStep(txn, key, row.tenant)]);
    assert Do(sys, Take(t, key)) == sys.(txns := sys.txns[t := next]);
    assert CycleOk(sys.db, next);
    forall r | r in Held(next) ensures r in Held(txn) || r == ItemRes(key) {
    }
    ReplaceIsSafe(sys, t, next, {ItemRes(key)});
  }

  lemma {:induction false} GotoIsSafe(sys: Sys, t: nat, next: Txn)
    requires SysInv(sys) && t in sys.txns && sys.txns[t].Call? && !Blocked(sys, t)
    requires Advance(sys.db, sys.txns[t]) == Goto(next)
    ensures SysInv(sys.(txns := sys.txns[t := next]))
  {
    AdvanceKeepsCallOk(sys.db, sys.txns[t], next);
    AdvanceAcquiresWanted(sys.db, sys.txns[t], next);
    forall u | u in sys.txns && u != t
      ensures Wanted(sys.db, sys.txns[t]) !! Held(sys.txns[u])
    {
      assert !Waits(sys, t, u);
    }
    ReplaceIsSafe(sys, t, next, Wanted(sys.db, sys.txns[t]));
  }

  /** A transaction may go on holding more, as long as nobody else holds it. */
  lemma {:induction false} ReplaceIsSafe(sys: Sys, t: nat, next: Txn, more: set<Res>)
    requires SysInv(sys) && t in sys.txns && TxnOk(sys.db, next)
    requires Held(next) <= Held(sys.txns[t]) + more
    requires forall u :: u in sys.txns && u != t ==> more !! Held(sys.txns[u])
    ensures SysInv(sys.(txns := sys.txns[t := next]))
  {
  }

  lemma {:induction false} AdvanceKeepsCallOk(db: State, txn: Txn, next: Txn)
    requires txn.Call? && CallOk(db, txn) && Advance(db, txn) == Goto(next)
    ensures next.Call? && CallOk(db, next)
  {
  }

  lemma {:induction false} AdvanceAcquiresWanted(db: State, txn: Txn, next: Txn)
    requires txn.Call? && CallOk(db, txn) && Advance(db, txn) == Goto(next)
    ensures Held(next) <= Held(txn) + Wanted(db, txn)
  {
  }

  // ---- commits ---------------------------------------------------------------------------------------

  lemma {:induction false} CallCommitIsSerial(start: State, sys: Sys, t: nat)
    requires SysInv(sys) && Serialized(start, sys)
    requires t in sys.txns && sys.txns[t].Call? && sys.txns[t].stage.Ready?
    requires Passed(sys.db, sys.txns[t].op, sys.txns[t].doc, sys.txns[t].item)
    ensures var txn := sys.txns[t];
            var next := Finish(sys, t, Effect(sys.db.cat, txn.op, txn.doc, txn.item), [txn.op]);
            SysInv(next) && Serialized(start, next)
  {
    var txn := sys.txns[t];
    var op, doc, item := txn.op, txn.doc, txn.item;
    EffectWithinHeld(sys.db, txn);
    FinishIsSafe(sys, t, Effect(sys.db.cat, op, doc, item), [op]);
    PassedIsRun(sys.db, op, doc, item);
    AppendSerial(start, sys, [op]);
  }

  lemma {:induction false} PassedIsRun(db: State, op: Op, doc: Doc, item: Option<Item>)
    requires Passed(db, op, doc, item)
    ensures Commits(Run(db, [op][..0]), op) && Run(db, [op]) == Install(db, Effect(db.cat, op, doc, item))
  {
    PassedCommits(db, op, doc, item);
    CommitPassed(db, op);
    RunOne(db, op);
    assert [op][..0] == [];
  }

  /** At commit every check still holds of the tables as they are then. */
  lemma {:induction false} ReadyHasPassed(db: State, txn: Txn)
    requires txn.Call? && CallOk(db, txn) && txn.stage.Ready?
    ensures Passed(db, txn.op, txn.doc, txn.item)
  {
  }

  lemma {:induction false} EffectWithinHeld(db: State, txn: Txn)
    requires txn.Call? && txn.stage.Ready? && Passed(db, txn.op, txn.doc, txn.item)
    ensures Within(Effect(db.cat, txn.op, txn.doc, txn.item), Held(txn))
  {
  }

  lemma {:induction false} FinishIsSafe(sys: Sys, t: nat, w: Write, ops: seq<Op>)
    requires SysInv(sys) && t in sys.txns && Within(w, Held(sys.txns[t]))
    ensures SysInv(Finish(sys, t, w, ops))
  {
    forall u | u in sys.txns && u != t
      ensures TxnOk(Install(sys.db, w), sys.txns[u])
    {
      OthersKeepTheirReads(sys.db, w, Held(sys.txns[t]), sys.txns[u]);
    }
  }

  /** A commit changes nothing that another transaction has read and relies on. */
  lemma {:induction false} OthersKeepTheirReads(db: State, w: Write, held: set<Res>, txn: Txn)
    requires TxnOk(db, txn) && Within(w, held) && held !! Held(txn)
    ensures TxnOk(Install(db, w), txn)
  {
    if txn.Call? {
      var next := Install(db, w);
      if Rank(txn) >= 1 { assert CheckedOnce(next, txn.op); }
      if Rank(txn) >= 2 { DocIsStable(db, w, held, txn); }
      if Rank(txn) >= 3 { RowIsStable(db, w, held, txn); }
      if Rank(txn) >= 4 { ClaimIsStable(db, w, held, txn); }
    } else {
      forall k | k in txn.view ensures k !in w.items {
        assert ItemRes(k) in Held(txn);
      }
    }
  }

  lemma {:induction false} DocIsStable(db: State, w: Write, held: set<Res>, txn: Txn)
    requires txn.Call? && CallOk(db, txn) && Rank(txn) >= 2 && Within(w, held) && held !! Held(txn)
    ensures ReadDoc(Install(db, w), txn.op) == ReadDoc(db, txn.op)
  {
    if TakesTransfer(txn.op) {
      assert TransferRes(txn.op.transfer) in Held(txn);
    } else if TakesOrder(txn.op) {
      assert OrderRes(txn.op.order) in Held(txn);
    }
  }

  lemma {:induction false} RowIsStable(db: State, w: Write, held: set<Res>, txn: Txn)
    requires txn.Call? && CallOk(db, txn) && Rank(txn) >= 3 && Within(w, held) && held !! Held(txn)
    ensures txn.item.Some? ==>
      FindItem(Install(db, w), txn.op.tenant, ItemOf(txn.op, txn.doc).value)
      == FindItem(db, txn.op.tenant, ItemOf(txn.op, txn.doc).value)
  {
    if txn.item.Some? {
      assert ItemRes(ItemOf(txn.op, txn.doc).value) in Held(txn);
    }
  }

  lemma {:induction false} ClaimIsStable(db: State, w: Write, held: set<Res>, txn: Txn)
    requires txn.Call? && CallOk(db, txn) && Rank(txn) >= 4 && Within(w, held) && held !! Held(txn)
    ensures CheckInsert(Install(db, w), txn.op, txn.doc, txn.item).None?
  {
    assert InsertRes(txn.op, txn.doc, txn.item) <= Held(txn);
    if txn.op.Create? {
      assert TransferRes(TransferKey(txn.op)) in Held(txn);
    } else if txn.op.OrderCreate? {
      assert OrderRes(OrderKey(txn.op)) in Held(txn);
    } else if InsertsItem(txn.op) && txn.item.None? {
      assert ItemRes(ItemOf(txn.op, txn.doc).value) in Held(txn);
    }
  }

  lemma {:induction false} AppendSerial(start: State, sys: Sys, ops: seq<Op>)
    requires Serialized(start, sys)
    requires forall i :: 0 <= i < |ops| ==> !IsEdit(ops[i])
    requires forall i :: 0 <= i < |ops| && ops[i].Create? ==> Commits(Run(sys.db, ops[..i]), ops[i])
    ensures Run(start, sys.commits + ops) == Run(sys.db, ops)
    ensures CreatesCommit(start, sys.commits + ops)
    ensures forall i :: 0 <= i < |sys.commits + ops| ==> !IsEdit((sys.commits + ops)[i])
  {
    RunAppend(start, sys.commits, ops);
    var all, n := sys.commits + ops, |sys.commits|;
    forall i | 0 <= i < |all| && all[i].Create?
      ensures Commits(Run(start, all[..i]), all[i])
    {
      if i < n {
        assert all[..i] == sys.commits[..i];
      } else {
        assert all[..i] == sys.commits + ops[..i - n];
        RunAppend(start, sys.commits, ops[..i - n]);
      }
    }
  }

  // ---- decay cycles ----------------------------------------------------------------------------------

  lemma {:induction false} CycleCommitIsSerial(start: State, sys: Sys, t: nat)
    requires SysInv(sys) && Serialized(start, sys) && t in sys.txns && sys.txns[t].Cycle?
    ensures var next := Finish(sys, t, CycleWrite(sys.db.cat, sys.txns[t]), sys.txns[t].steps);
            SysInv(next) && Serialized(start, next)
  {
    hide Run;
    var txn := sys.txns[t];
    CycleWritesItsView(sys.db.cat, txn.view, txn.steps);
    FinishIsSafe(sys, t, CycleWrite(sys.db.cat, txn), txn.steps);
    CycleWriteIsRun(sys.db, txn);
    AppendSerial(start, sys, txn.steps);
  }

  /** Decay steps on the rows of a small table change only those rows and its log. */
  lemma {:induction false} CycleWritesItsView(cat: Catalog, view: map<ItemKey, Item>, steps: seq<Op>)
    requires StepsOn(steps, view.Keys)
    ensures var local := Local(cat, view, steps);
            local.cat == cat && local.items.Keys == view.Keys && local.transfers == map[] && local.orders == map[]
  {
    if steps != [] {
      var prefix := steps[..|steps| - 1];
      CycleWritesItsView(cat, view, prefix);
      DecayStepShape(Local(cat, view, prefix), steps[|steps| - 1]);
    }
  }

  lemma {:induction false} DecayStepShape(s: State, op: Op)
    requires IsDecayStep(op) && op.key in s.items
    ensures var next := Next(s, op);
            && next.cat == s.cat && next.items.Keys == s.items.Keys
            && next.transfers == s.transfers && next.orders == s.orders
  {
    DecayNext(s, op);
  }

  /** A small table seen inside larger ones. */
  function Widen(s: State, db: State): State {
    State(s.cat, db.items + s.items, db.transfers, db.orders, db.audit + s.audit)
  }

  /** Installing what a cycle computed on its private rows equals running its row steps on the whole tables. */
  lemma {:induction false} CycleWriteIsRun(db: State, txn: Txn)
    requires txn.Cycle? && CycleOk(db, txn)
    ensures Install(db, CycleWrite(db.cat, txn)) == Run(db, txn.steps)
  {
    var small := State(db.cat, txn.view, map[], map[], []);
    assert db.items + txn.view == db.items;
    assert db.audit + [] == db.audit;
    assert Widen(small, db) == db;
    WidenRun(small, db, txn.steps);
    CycleWritesItsView(db.cat, txn.view, txn.steps);
    assert db.transfers + map[] == db.transfers && db.orders + map[] == db.orders;
  }

  lemma {:induction false} WidenRun(small: State, db: State, steps: seq<Op>)
    requires small.transfers == map[] && small.orders == map[] && StepsOn(steps, small.items.Keys)
    ensures Run(Widen(small, db), steps) == Widen(Run(small, steps), db)
    ensures Run(small, steps).items.Keys == small.items.Keys
  {
    if steps != [] {
      var prefix, op := steps[..|steps| - 1], steps[|steps| - 1];
      WidenRun(small, db, prefix);
      DecayStepShape(Run(small, prefix), op);
      WidenStep(Run(small, prefix), db, op);
    }
  }

  lemma {:induction false} WidenStep(s: State, db: State, op: Op)
    requires IsDecayStep(op) && op.key in s.items
    ensures Next(Widen(s, db), op) == Widen(Next(s, op), db)
  {
    DecayNext(s, op);
    DecayNext(Widen(s, db), op);
    var after := DecayResult(s.cat, op, s.items[op.key]);
    if after.Some? {
      WidenUpdate(s, db, op.key, after.value, StockRows(op, op.key, s.items[op.key], after.value));
    }
  }

  lemma {:induction false} WidenUpdate(s: State, db: State, key: ItemKey, after: Item, rows: seq<AuditRow>)
    ensures Widen(s.(items := s.items[key := after], audit := s.audit + rows), db)
            == var wide := Widen(s, db); wide.(items := wide.items[key := after], audit := wide.audit + rows)
  {
    assert db.items + s.items[key := after] == (db.items + s.items)[key := after];
  }

  // ---- waiting ---------------------------------------------------------------------------------------

  /** Whoever is waited for is strictly further along than the one who waits. */
  lemma {:induction false} HolderIsAhead(db: State, a: Txn, b: Txn)
    requires TxnOk(db, a) && TxnOk(db, b) && !(Wanted(db, a) !! Held(b))
    ensures Rank(a) < Rank(b)
  {
    var r :| r in Wanted(db, a) && r in Held(b);
    if Rank(a) == 3 {
      assert !InDb(db, r);
      HeldBeforeInsertIsStored(db, b, r);
    }
  }

  /** Until its insert, a transaction holds only rows that are in the tables. */
  lemma {:induction false} HeldBeforeInsertIsStored(db: State, b: Txn, r: Res)
    requires TxnOk(db, b) && r in Held(b)
    ensures Rank(b) >= 4 || InDb(db, r)
    ensures b.Cycle? ==> InDb(db, r)
  {
  }

  /** p[i] waits for p[i+1], all along. */
  predicate WaitingChain(sys: Sys, p: seq<nat>) {
    forall i :: 0 <= i < |p| - 1 ==> Waits(sys, p[i], p[i + 1])
  }

  lemma {:induction false} ChainClimbs(sys: Sys, p: seq<nat>)
    requires SysInv(sys) && WaitingChain(sys, p) && |p| >= 2
    ensures p[0] in sys.txns && p[|p| - 1] in sys.txns
    ensures 1 <= Rank(sys.txns[p[0]]) && Rank(sys.txns[p[0]]) + |p| - 1 <= Rank(sys.txns[p[|p| - 1]])
  {
    assert Waits(sys, p[0], p[1]);
    HolderIsAhead(sys.db, sys.txns[p[0]], sys.txns[p[1]]);
    if |p| > 2 {
      forall i | 0 <= i < |p[1..]| - 1 ensures Waits(sys, p[1..][i], p[1..][i + 1]) {
        assert Waits(sys, p[i + 1], p[i + 2]);
      }
      ChainClimbs(sys, p[1..]);
    }
  }

  /** Deadlock freedom: in no reachable state do transactions wait in a cycle, and no chain is longer than four. */
  lemma {:induction false} NoDeadlock(start: Sys, es: seq<Event>, p: seq<nat>)
    requires Quiet(start) && |p| >= 2 && WaitingChain(Exec(start, es), p)
    ensures p[0] != p[|p| - 1] && |p| <= 4
  {
    InterleavingsAreSerial(start, es);
    ChainClimbs(Exec(start, es), p);
  }

  /** Some transaction in flight does not have to wait. */
  lemma {:induction false} SomeoneCanMove(sys: Sys) returns (t: nat)
    requires SysInv(sys) && sys.txns != map[]
    ensures t in sys.txns && !Blocked(sys, t)
  {
    t :| t in sys.txns;
    while Blocked(sys, t)
      invariant t in sys.txns
      decreases 4 - Rank(sys.txns[t])
    {
      var b :| b in sys.txns && Waits(sys, t, b);
      HolderIsAhead(sys.db, sys.txns[t], sys.txns[b]);
      t := b;
    }
  }

  /** Steps left before every transaction in flight is done. */
  ghost function StepsLeft(txns: map<nat, Txn>): int { Sum(LeftOf(txns)) }

  ghost function LeftOf(txns: map<nat, Txn>): map<nat, int> { map t | t in txns :: 5 - Rank(txns[t]) }

  /** From every reachable state all transactions in flight can run to their ends by their own steps. */
  lemma {:induction false} EveryoneCanFinish(start: Sys, es: seq<Event>) returns (more: seq<Event>)
    requires Quiet(start)
    ensures forall i :: 0 <= i < |more| ==> more[i].Step?
    ensures Exec(Exec(start, es), more).txns == map[]
  {
    InterleavingsAreSerial(start, es);
    more := Drain(start.db, Exec(start, es));
  }

  lemma {:induction false} Drain(start: State, sys: Sys) returns (more: seq<Event>)
    requires SysInv(sys) && Serialized(start, sys)
    ensures forall i :: 0 <= i < |more| ==> more[i].Step?
    ensures Exec(sys, more).txns == map[]
    decreases StepsLeft(sys.txns)
  {
    if sys.txns == map[] {
      return [];
    }
    var t := SomeoneCanMove(sys);
    assert TxnOk(sys.db, sys.txns[t]);
    StepMovesOn(sys, t);
    StepsLeftShrinks(sys.txns, Do(sys, Step(t)).txns, t);
    StepIsSerial(start, sys, Step(t));
    var rest := Drain(start, Do(sys, Step(t)));
    more := [Step(t)] + rest;
    ExecFirst(sys, Step(t), rest);
  }

  lemma {:induction false} ExecFirst(sys: Sys, e: Event, es: seq<Event>)
    ensures Exec(sys, [e] + es) == Exec(Do(sys, e), es)
  {
    var all := [e] + es;
    if es == [] {
      assert all[..0] == [] && all == [e];
      assert Exec(sys, []) == sys;
    } else {
      assert all[..|all| - 1] == [e] + es[..|es| - 1];
      ExecFirst(sys, e, es[..|es| - 1]);
    }
  }

  lemma {:induction false} StepsLeftShrinks(txns: map<nat, Txn>, next: map<nat, Txn>, t: nat)
    requires t in txns
    requires next == txns - {t} || (t in next && next == txns[t := next[t]] && Rank(next[t]) == Rank(txns[t]) + 1)
    ensures 0 <= StepsLeft(next) < StepsLeft(txns)
  {
    var left, leftNext := LeftOf(txns), LeftOf(next);
    SumRemove(left, t);
    if t in next {
      assert leftNext == left[t := 5 - Rank(next[t])];
      SumUpdate(left, t, 5 - Rank(next[t]));
    } else {
      assert leftNext == left - {t};
    }
    var none: map<nat, int> := map[];
    SumOfPart(none, leftNext);
  }

  lemma {:induction false} StepMovesOn(sys: Sys, t: nat)
    requires t in sys.txns && TxnOk(sys.db, sys.txns[t]) && !Blocked(sys, t)
    ensures var txn, next := sys.txns[t], Do(sys, Step(t)).txns;
            next == sys.txns - {t}
            || (t in next && next == sys.txns[t := next[t]] && Rank(next[t]) == Rank(txn) + 1)
  {
    var txn := sys.txns[t];
    if txn.Call? && txn.stage.Ready? {
      ReadyHasPassed(sys.db, txn);
    }
  }

  // ---- replies ---------------------------------------------------------------------------------------

  /** A call that commits writes and replies what it would alone at that moment. */
  lemma {:induction false} CommittingReplyIsSerial(sys: Sys, t: nat)
    requires SysInv(sys) && t in sys.txns && sys.txns[t].Call? && sys.txns[t].stage.Ready?
    ensures var txn := sys.txns[t];
            && Passed(sys.db, txn.op, txn.doc, txn.item)
            && Decide(sys.db, txn.op) == Commit(Effect(sys.db.cat, txn.op, txn.doc, txn.item),
                                                ReplyOf(sys.db.cat, txn.op, txn.doc, txn.item))
  {
    var txn := sys.txns[t];
    assert CallOk(sys.db, txn);
    ReadyHasPassed(sys.db, txn);
    PassedCommits(sys.db, txn.op, txn.doc, txn.item);
  }

  /**
    The call is past its unlocked checks and about to end in one of two races: a creation whose request somebody
    else has stored meanwhile, or an insert of an inventory row that was missing when it looked.
  */
  predicate LosesRace(db: State, txn: Txn) {
    txn.Call?
    && ((txn.stage.LockingItem? && txn.op.Create? && TransferKey(txn.op) in db.transfers)
        || (txn.stage.Inserting? && InsertsItem(txn.op)))
  }

  /**
    A call that ends without committing replies what it would have replied alone at that moment if and only if
    it does not lose a race. The loser of a creation reports insufficient stock where it would have got the
    stored transfer; the loser of a first insert fails on the unique key where it would not have.
  */
  lemma {:induction false} EndingReplyIsSerial(sys: Sys, t: nat, reply: Reply)
    requires SysInv(sys) && t in sys.txns && sys.txns[t].Call? && Advance(sys.db, sys.txns[t]) == End(reply)
    ensures var op := sys.txns[t].op;
            || Decide(sys.db, op) == Stop(reply)
            || (InsertsItem(op) && reply == Failed(UniqueViolation))
            || (op.Create? && TransferKey(op) in sys.db.transfers && reply == Failed(InsufficientStock))
    ensures !IsEdit(sys.txns[t].op)
    ensures Inv(sys.db) ==> (Decide(sys.db, sys.txns[t].op) == Stop(reply) <==> !LosesRace(sys.db, sys.txns[t]))
    ensures !Blocked(sys, t) ==> Do(sys, Step(t)) == sys.(txns := sys.txns - {t})
  {
    ReplyIfNoRace(sys, t, reply);
    if Inv(sys.db) && LosesRace(sys.db, sys.txns[t]) { LostRaceReply(sys, t, reply); }
  }

  /** The reply of a call that loses a race is not the one it would have got alone. */
  lemma {:induction false} LostRaceReply(sys: Sys, t: nat, reply: Reply)
    requires SysInv(sys) && Inv(sys.db) && t in sys.txns && LosesRace(sys.db, sys.txns[t])
    requires !IsEdit(sys.txns[t].op) && IsCall(sys.txns[t].op) && Advance(sys.db, sys.txns[t]) == End(reply)
    ensures Decide(sys.db, sys.txns[t].op) != Stop(reply)
    ensures sys.txns[t].op.Create? ==>
      && reply == Failed(InsufficientStock) && TransferKey(sys.txns[t].op) in sys.db.transfers
      && Decide(sys.db, sys.txns[t].op) == Stop(TransferReply(sys.db.transfers[TransferKey(sys.txns[t].op)], false))
    ensures InsertsItem(sys.txns[t].op) ==> reply == Failed(UniqueViolation)
  {
    var txn := sys.txns[t];
    assert CallOk(sys.db, txn);
    if txn.op.Create? {
      assert Precheck(sys.db, txn.op).Some?;
    } else {
      assert CheckInsert(sys.db, txn.op, txn.doc, txn.item) == Some(reply);
      SerialCallsNeverCollide(sys.db, txn.op);
    }
  }

  lemma {:induction false} ReplyIfNoRace(sys: Sys, t: nat, reply: Reply)
    requires SysInv(sys) && t in sys.txns && sys.txns[t].Call? && Advance(sys.db, sys.txns[t]) == End(reply)
    ensures !IsEdit(sys.txns[t].op)
    && (!LosesRace(sys.db, sys.txns[t]) ==> Decide(sys.db, sys.txns[t].op) == Stop(reply))
    ensures var op := sys.txns[t].op;
            || Decide(sys.db, op) == Stop(reply)
            || (InsertsItem(op) && reply == Failed(UniqueViolation))
            || (op.Create? && TransferKey(op) in sys.db.transfers && reply == Failed(InsufficientStock))
  {
    var txn := sys.txns[t];
    assert CallOk(sys.db, txn);
    match txn.stage
    case Checking =>
    case LockingDoc => DocEndIsSerial(sys.db, txn, reply);
    case LockingItem => RowEndIsSerial(sys.db, txn, reply);
    case Inserting => InsertEndIsSerial(sys.db, txn, reply);
    case Ready =>
  }

  lemma {:induction false} DocEndIsSerial(db: State, txn: Txn, reply: Reply)
    requires txn.Call? && CallOk(db, txn) && txn.stage.LockingDoc? && Advance(db, txn) == End(reply)
    ensures Decide(db, txn.op) == Stop(reply)
  {
    assert !txn.op.Create?;
  }

  lemma {:induction false} RowEndIsSerial(db: State, txn: Txn, reply: Reply)
    requires txn.Call? && CallOk(db, txn) && txn.stage.LockingItem? && Advance(db, txn) == End(reply)
    ensures Decide(db, txn.op) == Stop(reply)
            || (txn.op.Create? && TransferKey(txn.op) in db.transfers && reply == Failed(InsufficientStock))
  {
    assert ReadDoc(db, txn.op) == Some(txn.doc);
    assert CheckItem(db.cat, txn.op, txn.doc, LookUp(db, txn.op, txn.doc)) == Some(reply);
  }

  lemma {:induction false} InsertEndIsSerial(db: State, txn: Txn, reply: Reply)
    requires txn.Call? && CallOk(db, txn) && txn.stage.Inserting? && Advance(db, txn) == End(reply)
    ensures Decide(db, txn.op) == Stop(reply) || (InsertsItem(txn.op) && reply == Failed(UniqueViolation))
  {
    assert CheckInsert(db, txn.op, txn.doc, txn.item) == Some(reply);
  }

  // ---- what every interleaving keeps -----------------------------------------------------------------

  /** The ledger laws hold of every interleaving, not only of serial runs. */
  lemma {:induction false} EveryInterleavingKeepsTheLaws(start: Sys, es: seq<Event>, t: Id, v: Id)
    requires Quiet(start) && Inv(start.db) && Replays(start.db) && DiscrepanciesNamed(start.db)
    ensures var end := Exec(start, es);
            && Inv(end.db) && Replays(end.db)
            && Balance(end.db, t, v) == Balance(start.db, t, v) + TotalInflow(start.db, end.commits, t, v)
  {
    InterleavingsAreSerial(start, es);
    var ops := Exec(start, es).commits;
    RunKeepsInv(start.db, ops);
    RunReplays(start.db, ops);
    UnitsAreConserved(start.db, ops, t, v);
  }

  /**
    Idempotent creation in every interleaving, even when several callers pass the unlocked check together: one
    committed source debit per stored request, of the stored quantity, and none for a request that is not stored.
  */
  lemma {:induction false} OneDebitPerRequestInterleaved(start: Sys, es: seq<Event>, id: TransferId)
    requires Quiet(start) && Inv(start.db) && id !in start.db.transfers
    ensures var end := Exec(start, es);
            DebitsFor(end.commits, id) == if id in end.db.transfers then [end.db.transfers[id].quantity] else []
  {
    InterleavingsAreSerial(start, es);
    OneDebitPerRequest(start.db, Exec(start, es).commits, id);
  }
}
