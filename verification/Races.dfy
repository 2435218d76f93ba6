/** The two races in which a call's reply is not the one it would get alone, each as a run of two calls. */
module Races {
  import opened Wrappers
  import opened Ledger
  import opened LedgerInvariant
  import opened Conservation
  import opened Lifecycles
  import opened Interleaving

  /** In every reachable state a call that ends replies as it would alone if and only if it does not lose a race. */
  lemma {:induction false} ReplyDiffersIff(start: Sys, es: seq<Event>, t: nat, reply: Reply)
    requires Quiet(start) && Inv(start.db) && t in Exec(start, es).txns
    requires var txn := Exec(start, es).txns[t];
             txn.Call? && IsCall(txn.op) && Advance(Exec(start, es).db, txn) == End(reply)
    ensures var sys := Exec(start, es);
            Decide(sys.db, sys.txns[t].op) == Stop(reply) <==> !LosesRace(sys.db, sys.txns[t])
  {
    InterleavingsAreSerial(start, es);
    RunKeepsInv(start.db, Exec(start, es).commits);
    EndingReplyIsSerial(Exec(start, es), t, reply);
  }

  // ---- two calls side by side ------------------------------------------------------------------------

  function At(op: Op, stage: Stage, item: Option<Item>): Txn { Call(op, stage, NoDoc, item) }

  /** Calls 1 and 2 in flight, nothing committed yet. */
  function Both(db: State, first: Txn, second: Txn): Sys { Sys(db, map[1 := first, 2 := second], []) }

  lemma ExecSnoc(sys: Sys, es: seq<Event>, e: Event)
    ensures Exec(sys, es + [e]) == Do(Exec(sys, es), e)
  {
    assert (es + [e])[..|es|] == es;
  }

  lemma {:induction false} FirstMoves(db: State, a: Txn, b: Txn, next: Txn)
    requires a.Call? && IsCall(a.op) && Advance(db, a) == Goto(next) && Wanted(db, a) !! Held(b)
    ensures Do(Both(db, a, b), Step(1)) == Both(db, next, b)
  {
    var sys := Both(db, a, b);
    assert !Blocked(sys, 1);
    assert sys.txns[1 := next] == map[1 := next, 2 := b];
  }

  lemma {:induction false} SecondMoves(db: State, a: Txn, b: Txn, next: Txn)
    requires b.Call? && IsCall(b.op) && Advance(db, b) == Goto(next) && Wanted(db, b) !! Held(a)
    ensures Do(Both(db, a, b), Step(2)) == Both(db, a, next)
  {
    var sys := Both(db, a, b);
    assert !Blocked(sys, 2);
    assert sys.txns[2 := next] == map[1 := a, 2 := next];
  }

  lemma {:induction false} FirstCommits(db: State, op: Op, item: Option<Item>, b: Txn)
    requires IsCall(op) && Passed(db, op, NoDoc, item)
    ensures Do(Both(db, At(op, Ready, item), b), Step(1))
         == Sys(Install(db, Effect(db.cat, op, NoDoc, item)), map[2 := b], [op])
  {
    hide Effect, Install, Precheck, CheckDoc, CheckInsert;
    var sys := Both(db, At(op, Ready, item), b);
    assert !Blocked(sys, 1);
    assert sys.txns - {1} == map[2 := b];
  }

  lemma {:induction false} LastMoves(sys: Sys, b: Txn, next: Txn)
    requires sys.txns == map[2 := b] && b.Call? && IsCall(b.op) && Advance(sys.db, b) == Goto(next)
    ensures Do(sys, Step(2)) == sys.(txns := map[2 := next]) && !Blocked(sys, 2)
  {
    assert !Blocked(sys, 2);
    assert sys.txns[2 := next] == map[2 := next];
  }

  /** Both calls begin and pass their unlocked checks. */
  function Prelude(op: Op): seq<Event> { [Begin(1, op)] + [Begin(2, op)] + [Step(1)] + [Step(2)] }

  lemma {:induction false} BothPassTheChecks(start: Sys, op: Op)
    requires Quiet(start) && IsCall(op) && Precheck(start.db, op).None?
    ensures Exec(start, Prelude(op)) == Both(start.db, At(op, LockingDoc, None), At(op, LockingDoc, None))
  {
    hide Exec;
    var begun, checked := At(op, Checking, None), At(op, LockingDoc, None);
    ExecNone(start);
    ExecSnoc(start, [], Begin(1, op));
    ExecSnoc(start, [Begin(1, op)], Begin(2, op));
    ExecSnoc(start, [Begin(1, op)] + [Begin(2, op)], Step(1));
    ExecSnoc(start, [Begin(1, op)] + [Begin(2, op)] + [Step(1)], Step(2));
    assert [] + [Begin(1, op)] == [Begin(1, op)];
    BothBegin(start, op);
    FirstMoves(start.db, begun, begun, checked);
    SecondMoves(start.db, checked, begun, checked);
  }

  lemma ExecNone(sys: Sys)
    ensures Exec(sys, []) == sys
  {
  }

  lemma {:induction false} BothBegin(start: Sys, op: Op)
    requires Quiet(start) && IsCall(op)
    ensures Do(Do(start, Begin(1, op)), Begin(2, op)) == Both(start.db, At(op, Checking, None), At(op, Checking, None))
  {
    assert start.txns[1 := At(op, Checking, None)] == map[1 := At(op, Checking, None)];
  }

  /** Where a call that passes every check goes from its row lock on. */
  lemma {:induction false} PassingMoves(db: State, op: Op, item: Option<Item>)
    requires op.Create? || op.Adjust?
    requires Passed(db, op, NoDoc, item)
    ensures Advance(db, At(op, LockingDoc, None)) == Goto(At(op, LockingItem, None))
    ensures Advance(db, At(op, LockingItem, None)) == Goto(At(op, Inserting, item))
    ensures Advance(db, At(op, Inserting, item)) == Goto(At(op, Ready, item))
    ensures Held(At(op, LockingDoc, None)) == {} && Held(At(op, LockingItem, None)) == {}
    ensures Wanted(db, At(op, LockingDoc, None)) == {}
  {
  }

  // ---- two creations of one request ------------------------------------------------------------------

  /** The first call then runs to its commit; only then does the second lock the source row. */
  function CreationRace(op: Op): seq<Event> {
    Prelude(op) + [Step(1)] + [Step(1)] + [Step(1)] + [Step(1)] + [Step(2)]
  }

  /**
    Two calls create the same request, with stock for one. The second is refused for insufficient stock, where
    alone it would get the stored transfer.
  */
  lemma {:induction false} LateCreationIsRefused(start: Sys, op: Op)
    requires Quiet(start) && Inv(start.db) && op.Create? && Commits(start.db, op)
    requires UnitsAt(start.db, ItemKey(op.variant, op.source)) < 2 * op.quantity
    ensures var sys := Exec(start, CreationRace(op));
            && sys.txns == map[2 := At(op, LockingItem, None)] && !Blocked(sys, 2)
            && LosesRace(sys.db, sys.txns[2])
            && Advance(sys.db, sys.txns[2]) == End(Failed(InsufficientStock))
            && Decide(sys.db, op) == Stop(TransferReply(NewTransfer(op), false))
  {
    hide Exec, Do, Advance;
    var db, item := start.db, ItemAt(start.db, op);
    CommitPassed(db, op);
    BothPassTheChecks(start, op);
    PassingMoves(db, op, item);
    var other := At(op, LockingDoc, None);
    FirstMoves(db, At(op, LockingDoc, None), other, At(op, LockingItem, None));
    FirstMoves(db, At(op, LockingItem, None), other, At(op, Inserting, item));
    FirstMoves(db, At(op, Inserting, item), other, At(op, Ready, item));
    FirstCommits(db, op, item, other);
    var end := Sys(Next(db, op), map[2 := other], [op]);
    StillFree(end.db, op);
    LastMoves(end, other, At(op, LockingItem, None));
    ExecSnoc(start, Prelude(op), Step(1));
    ExecSnoc(start, Prelude(op) + [Step(1)], Step(1));
    ExecSnoc(start, Prelude(op) + [Step(1)] + [Step(1)], Step(1));
    ExecSnoc(start, Prelude(op) + [Step(1)] + [Step(1)] + [Step(1)], Step(1));
    ExecSnoc(start, Prelude(op) + [Step(1)] + [Step(1)] + [Step(1)] + [Step(1)], Step(2));
    NoStockLeft(db, op);
    NobodyElse(Exec(start, CreationRace(op)), At(op, LockingItem, None));
  }

  /** A creation and an adjustment lock no transfer or order row first. */
  lemma StillFree(db: State, op: Op)
    requires op.Create? || op.Adjust?
    ensures Advance(db, At(op, LockingDoc, None)) == Goto(At(op, LockingItem, None))
  {
  }

  lemma NobodyElse(sys: Sys, b: Txn)
    requires sys.txns == map[2 := b]
    ensures !Blocked(sys, 2)
  {
  }

  /** After a creation that left too few units, another one for the same request. */
  lemma {:induction false} NoStockLeft(db: State, op: Op)
    requires Inv(db) && op.Create? && Commits(db, op) && UnitsAt(db, ItemKey(op.variant, op.source)) < 2 * op.quantity
    ensures var next := Next(db, op);
            && TransferKey(op) in next.transfers
            && Advance(next, At(op, LockingItem, None)) == End(Failed(InsufficientStock))
            && Decide(next, op) == Stop(TransferReply(NewTransfer(op), false))
  {
    CreateDebitsItsQuantity(db, op);
    assert op.source != op.destination by { CommitPassed(db, op); }
    var next, key := Next(db, op), ItemKey(op.variant, op.source);
    assert key in next.items ==> next.items[key].quantity < op.quantity;
    CreationRefused(next, op);
  }

  lemma {:induction false} CreationRefused(db: State, op: Op)
    requires op.Create? && op.source != op.destination && TransferKey(op) in db.transfers
    requires var key := ItemKey(op.variant, op.source); key in db.items ==> db.items[key].quantity < op.quantity
    ensures Advance(db, At(op, LockingItem, None)) == End(Failed(InsufficientStock))
    ensures Decide(db, op) == Stop(TransferReply(db.transfers[TransferKey(op)], false))
  {
  }

  // ---- two first inserts of one inventory row --------------------------------------------------------

  /** Both calls look for the row and find none; the first then inserts it. */
  function InsertRace(op: Op): seq<Event> {
    Prelude(op) + [Step(1)] + [Step(2)] + [Step(1)] + [Step(2)] + [Step(1)] + [Step(1)]
  }

  /**
    Two adjustments of an inventory row that does not exist yet. The second fails on the unique key, where
    alone it would commit.
  */
  lemma {:induction false} LateInsertFails(start: Sys, op: Op)
    requires Quiet(start) && Inv(start.db) && op.Adjust? && Commits(start.db, op) && op.key !in start.db.items
    ensures var sys := Exec(start, InsertRace(op));
            && sys.txns == map[2 := At(op, Inserting, None)] && !Blocked(sys, 2)
            && LosesRace(sys.db, sys.txns[2])
            && Advance(sys.db, sys.txns[2]) == End(Failed(UniqueViolation))
            && Commits(sys.db, op)
  {
    hide Exec, Do, Advance;
    var db := start.db;
    CommitPassed(db, op);
    BothPassTheChecks(start, op);
    PassingMoves(db, op, None);
    var locked, looking, inserting := At(op, LockingDoc, None), At(op, LockingItem, None), At(op, Inserting, None);
    HoldsNothing(op);
    FirstMoves(db, locked, locked, looking);
    SecondMoves(db, looking, locked, looking);
    FirstMoves(db, looking, looking, inserting);
    SecondMoves(db, inserting, looking, inserting);
    FirstMoves(db, inserting, inserting, At(op, Ready, None));
    FirstCommits(db, op, None, inserting);
    ExecSnoc(start, Prelude(op), Step(1));
    ExecSnoc(start, Prelude(op) + [Step(1)], Step(2));
    ExecSnoc(start, Prelude(op) + [Step(1)] + [Step(2)], Step(1));
    ExecSnoc(start, Prelude(op) + [Step(1)] + [Step(2)] + [Step(1)], Step(2));
    ExecSnoc(start, Prelude(op) + [Step(1)] + [Step(2)] + [Step(1)] + [Step(2)], Step(1));
    ExecSnoc(start, Prelude(op) + [Step(1)] + [Step(2)] + [Step(1)] + [Step(2)] + [Step(1)], Step(1));
    RowIsThere(db, op);
    NobodyElse(Exec(start, InsertRace(op)), inserting);
  }

  lemma HoldsNothing(op: Op)
    requires op.Adjust?
    ensures Held(At(op, LockingDoc, None)) == {} && Held(At(op, LockingItem, None)) == {}
            && Held(At(op, Inserting, None)) == {}
  {
  }

  lemma {:induction false} RowIsThere(db: State, op: Op)
    requires Inv(db) && op.Adjust? && Commits(db, op) && op.key !in db.items
    ensures var next := Next(db, op);
            && Advance(next, At(op, Inserting, None)) == End(Failed(UniqueViolation))
            && Commits(next, op)
  {
    CommitPassed(db, op);
    ItemRowFacts(db, op, NoDoc, None);
    var next := Next(db, op);
    assert op.key in next.items && next.items[op.key].tenant == op.tenant;
    assert next.items[op.key].quantity == op.delta >= 0;
    AdjustAgain(db, next, op);
  }

  lemma {:induction false} AdjustAgain(db: State, next: State, op: Op)
    requires op.Adjust? && Precheck(db, op).None? && next.cat == db.cat
             && FindVariant(db.cat, op.tenant, op.key.variant).Some?
    requires op.key in next.items && next.items[op.key].tenant == op.tenant
             && next.items[op.key].quantity == op.delta >= 0
    ensures Advance(next, At(op, Inserting, None)) == End(Failed(UniqueViolation))
    ensures Commits(next, op)
  {
    PassedCommits(next, op, NoDoc, Some(next.items[op.key]));
  }

  // ---- both races do happen --------------------------------------------------------------------------

  /** One warehouse with five units, another one without a row for the variant. */
  function FiveUnits(settings: Settings): State {
    State(Catalog(settings, map[1 := Variant(7, 500, 300)],
                  map[2 := Warehouse(7, true), 3 := Warehouse(7, true)], map[]),
          map[ItemKey(1, 2) := Item(7, 5, 5, None, Normal, None, 500)], map[], map[], [])
  }

  /** On those tables creations of five units race for the transfer, and adjustments race for the missing row. */
  lemma {:induction false} RacesHappen(settings: Settings)
    ensures var start := Sys(FiveUnits(settings), map[], []);
            var create, adjust := Create(7, 9, 0, "r", 2, 3, 1, 5), Adjust(7, 9, 0, ItemKey(1, 3), 4, "surplus");
            var refused, failed := Exec(start, CreationRace(create)), Exec(start, InsertRace(adjust));
            && Quiet(start) && Inv(start.db)
            && 2 in refused.txns && LosesRace(refused.db, refused.txns[2])
            && 2 in failed.txns && LosesRace(failed.db, failed.txns[2])
  {
    hide Exec, Do, LosesRace;
    var start := Sys(FiveUnits(settings), map[], []);
    var create, adjust := Create(7, 9, 0, "r", 2, 3, 1, 5), Adjust(7, 9, 0, ItemKey(1, 3), 4, "surplus");
    PassedCommits(start.db, create, NoDoc, Some(start.db.items[ItemKey(1, 2)]));
    PassedCommits(start.db, adjust, NoDoc, None);
    LateCreationIsRefused(start, create);
    LateInsertFails(start, adjust);
  }
}
