/** One-way lifecycles of transfers and purchase orders, and what each credits to stock over a whole run. */
module Lifecycles {
  import opened Wrappers
  import opened Ledger
  import opened LedgerInvariant
  import opened Conservation

  function UnitsAt(s: State, key: ItemKey): int { if key in s.items then s.items[key].quantity else 0 }

  /** The inventory row that a confirmation or cancellation of this transfer credits. */
  function CreditKey(op: Op, row: Transfer): ItemKey {
    ItemKey(row.variant, if op.Confirm? then row.destination else row.source)
  }

  /** Units that `op` adds to stock on behalf of transfer `id`, read off the inventory rows. */
  function TransferCredit(s: State, op: Op, id: TransferId): int {
    if Commits(s, op) && TakesTransfer(op) && op.transfer == id && id in s.transfers then
      var key := CreditKey(op, s.transfers[id]);
      UnitsAt(Next(s, op), key) - UnitsAt(s, key)
    else 0
  }

  function TransferCredits(s: State, ops: seq<Op>, id: TransferId): int {
    if ops == [] then 0
    else
      var prefix := ops[..|ops| - 1];
      TransferCredits(s, prefix, id) + TransferCredit(Run(s, prefix), ops[|ops| - 1], id)
  }

  /** Units that `op` adds to stock on behalf of purchase order `id`. */
  function OrderCredit(s: State, op: Op, id: OrderId): int {
    if Commits(s, op) && op.OrderReceive? && op.order == id && id in s.orders then
      var key := ItemKey(s.orders[id].variant, s.orders[id].warehouse);
      UnitsAt(Next(s, op), key) - UnitsAt(s, key)
    else 0
  }

  function OrderCredits(s: State, ops: seq<Op>, id: OrderId): int {
    if ops == [] then 0
    else
      var prefix := ops[..|ops| - 1];
      OrderCredits(s, prefix, id) + OrderCredit(Run(s, prefix), ops[|ops| - 1], id)
  }

  // ---- transfers -------------------------------------------------------------------------------------

  /** What a status says about the units credited so far. */
  ghost predicate CreditFits(row: Transfer, credits: int) {
    match row.status
    case Pending => false
    case InTransit => credits == 0
    case Completed => 1 <= credits <= row.quantity
    case Cancelled => credits == row.quantity
  }

  /**
    A transfer in transit at the start of a run is credited nothing while it stays so, 1..quantity units at its
    destination if it ends completed, and all its units back at its source if it ends cancelled.
  */
  lemma {:induction false} TransferIsCreditedOnce(s: State, ops: seq<Op>, id: TransferId)
    requires Inv(s) && id in s.transfers && s.transfers[id].status.InTransit?
    ensures var end := Run(s, ops);
            id in end.transfers && CreditFits(end.transfers[id], TransferCredits(s, ops, id))
  {
    if ops != [] {
      var prefix := ops[..|ops| - 1];
      TransferIsCreditedOnce(s, prefix, id);
      RunKeepsInv(s, prefix);
      TransferStep(Run(s, prefix), ops[|ops| - 1], id);
    }
  }

  /** A transfer that has left transit never changes again and is never credited again. */
  lemma {:induction false} ClosedTransferIsFinal(s: State, ops: seq<Op>, id: TransferId)
    requires Inv(s) && id in s.transfers && !s.transfers[id].status.InTransit?
    ensures var end := Run(s, ops);
            id in end.transfers && end.transfers[id] == s.transfers[id] && TransferCredits(s, ops, id) == 0
  {
    if ops != [] {
      var prefix := ops[..|ops| - 1];
      ClosedTransferIsFinal(s, prefix, id);
      RunKeepsInv(s, prefix);
      TransferStep(Run(s, prefix), ops[|ops| - 1], id);
    }
  }

  /** One step of a stored transfer. */
  lemma {:induction false} TransferStep(s: State, op: Op, id: TransferId)
    requires Inv(s) && id in s.transfers
    ensures var row, next := s.transfers[id], Next(s, op);
            && id in next.transfers
            && (!row.status.InTransit? ==> next.transfers[id] == row && TransferCredit(s, op, id) == 0)
            && (row.status.InTransit? ==> CreditFits(next.transfers[id], TransferCredit(s, op, id)))
            && next.transfers[id].quantity == row.quantity
  {
    assert TransferOk(s.cat, id, s.transfers[id]);
    if Commits(s, op) && TakesTransfer(op) && op.transfer == id {
      CommitPassed(s, op);
      OwnTransferStep(s, op, DocAt(s, op), ItemAt(s, op));
    } else {
      OtherTransferStep(s, op, id);
    }
  }

  lemma {:induction false} OtherTransferStep(s: State, op: Op, id: TransferId)
    requires id in s.transfers && !(Commits(s, op) && TakesTransfer(op) && op.transfer == id)
    ensures id in Next(s, op).transfers && Next(s, op).transfers[id] == s.transfers[id]
  {
    if Commits(s, op) {
      CommitPassed(s, op);
      TransferWritten(s, op, DocAt(s, op), ItemAt(s, op));
    }
  }

  lemma {:induction false} OwnTransferStep(s: State, op: Op, doc: Doc, item: Option<Item>)
    requires Inv(s) && Passed(s, op, doc, item) && TakesTransfer(op)
    ensures var next := Install(s, Effect(s.cat, op, doc, item)); var id := op.transfer;
            && id in s.transfers && s.transfers[id] == doc.transfer && doc.transfer.status.InTransit?
            && id in next.transfers && next.transfers[id].quantity == doc.transfer.quantity
            && CreditFits(next.transfers[id],
                          UnitsAt(next, CreditKey(op, doc.transfer)) - UnitsAt(s, CreditKey(op, doc.transfer)))
  {
    TransferWritten(s, op, doc, item);
    CreditIsStockChange(s, op, doc, item, op.transfer);
  }

  /** Which transfer row a passed call writes, if any. */
  lemma {:induction false} TransferWritten(s: State, op: Op, doc: Doc, item: Option<Item>)
    requires Passed(s, op, doc, item)
    ensures var w := Effect(s.cat, op, doc, item);
            && w.transfers == (if op.Create? || TakesTransfer(op)
                  then map[TransferKey(op) := AfterDoc(op, doc).transfer]
                  else map[])
            && (op.Create? ==> TransferKey(op) !in s.transfers)
            && (TakesTransfer(op) ==> op.transfer in s.transfers && s.transfers[op.transfer] == doc.transfer
                                      && doc.transfer.status.InTransit?)
  {
  }

  lemma {:induction false} CreditIsStockChange(s: State, op: Op, doc: Doc, item: Option<Item>, id: TransferId)
    requires Inv(s) && Passed(s, op, doc, item) && TakesTransfer(op) && op.transfer == id
    ensures id in s.transfers && s.transfers[id] == doc.transfer
    ensures var key := CreditKey(op, doc.transfer);
            UnitsAt(Install(s, Effect(s.cat, op, doc, item)), key) - UnitsAt(s, key) == StockChange(op, doc)
    ensures if op.Confirm? then 1 <= StockChange(op, doc) <= doc.transfer.quantity
            else StockChange(op, doc) == doc.transfer.quantity
  {
    assert TransferOk(s.cat, id, s.transfers[id]);
    ItemRowFacts(s, op, doc, item);
  }

  /** A transfer in transit can always be confirmed in full and can always be cancelled. */
  lemma {:induction false} InTransitCanAlwaysClose(s: State, id: TransferId, user: Id, now: Time)
    requires Inv(s) && id in s.transfers && s.transfers[id].status.InTransit?
    ensures var confirm := Confirm(id.tenant, user, now, id, None);
            Commits(s, confirm) && TransferCredit(s, confirm, id) == s.transfers[id].quantity
    ensures var cancel := Cancel(id.tenant, user, now, id);
            Commits(s, cancel) && TransferCredit(s, cancel, id) == s.transfers[id].quantity
  {
    CloseCommits(s, id, Confirm(id.tenant, user, now, id, None));
    CloseCommits(s, id, Cancel(id.tenant, user, now, id));
  }

  lemma {:induction false} CloseCommits(s: State, id: TransferId, op: Op)
    requires Inv(s) && id in s.transfers && s.transfers[id].status.InTransit?
    requires TakesTransfer(op) && op.transfer == id && op.tenant == id.tenant && (op.Confirm? ==> op.received.None?)
    ensures Commits(s, op) && TransferCredit(s, op, id) == s.transfers[id].quantity
  {
    var row := s.transfers[id];
    var doc := TransferDoc(row);
    assert TransferOk(s.cat, id, row);
    ItemStageFindsItsRow(s, op, doc);
    var item := FindItem(s, op.tenant, ItemOf(op, doc).value);
    assert CheckItem(s.cat, op, doc, item).None?;
    PassedCommits(s, op, doc, item);
    CommitPassed(s, op);
    CreditIsStockChange(s, op, doc, item, id);
  }

  // ---- purchase orders -------------------------------------------------------------------------------

  ghost predicate OrderCreditFits(row: Order, credits: int) {
    if row.status.Received? then 1 <= credits <= row.quantity && row.submittedAt.Some? else credits == 0
  }

  /** A purchase order credits stock at most once, exactly when it becomes received, with 1..quantity units. */
  lemma {:induction false} OrderIsCreditedOnce(s: State, ops: seq<Op>, id: OrderId)
    requires Inv(s) && id in s.orders && !s.orders[id].status.Received?
    ensures var end := Run(s, ops); id in end.orders && OrderCreditFits(end.orders[id], OrderCredits(s, ops, id))
  {
    if ops != [] {
      var prefix := ops[..|ops| - 1];
      OrderIsCreditedOnce(s, prefix, id);
      RunKeepsInv(s, prefix);
      OrderStep(Run(s, prefix), ops[|ops| - 1], id);
    }
  }

  /** A received order never changes again; a cancelled one stays cancelled; neither is credited again. */
  lemma {:induction false} ClosedOrderIsFinal(s: State, ops: seq<Op>, id: OrderId)
    requires Inv(s) && id in s.orders && (s.orders[id].status.Received? || s.orders[id].status.Voided?)
    ensures var end := Run(s, ops);
            id in end.orders && end.orders[id] == s.orders[id] && OrderCredits(s, ops, id) == 0
  {
    if ops != [] {
      var prefix := ops[..|ops| - 1];
      ClosedOrderIsFinal(s, prefix, id);
      RunKeepsInv(s, prefix);
      OrderStep(Run(s, prefix), ops[|ops| - 1], id);
    }
  }

  lemma {:induction false} OrderStep(s: State, op: Op, id: OrderId)
    requires Inv(s) && id in s.orders
    ensures var row, next := s.orders[id], Next(s, op);
            && id in next.orders
            && (row.status.Received? || row.status.Voided? ==> next.orders[id] == row && OrderCredit(s, op, id) == 0)
            && (!row.status.Received? ==> OrderCreditFits(next.orders[id], OrderCredit(s, op, id)))
            && next.orders[id].quantity == row.quantity
  {
    if Commits(s, op) {
      CommitPassed(s, op);
      var doc, item := DocAt(s, op), ItemAt(s, op);
      OrderWritten(s, op, doc, item);
      if TakesOrder(op) && op.order == id {
        OwnOrderStep(op, doc);
        if op.OrderReceive? { OrderCreditIsStockChange(s, op, doc, item, id); }
        if doc.order.status.Voided? { assert AfterDoc(op, doc).order == doc.order; }
      }
    }
  }

  lemma {:induction false} OwnOrderStep(op: Op, doc: Doc)
    requires TakesOrder(op) && DocFits(op, doc)
    ensures var row := AfterDoc(op, doc).order;
            && row.quantity == doc.order.quantity
            && (op.OrderReceive? ==> row.status.Received? && row.submittedAt == doc.order.submittedAt)
            && (!op.OrderReceive? ==> !row.status.Received?)
  {
  }

  lemma {:induction false} OrderWritten(s: State, op: Op, doc: Doc, item: Option<Item>)
    requires Passed(s, op, doc, item)
    ensures var w := Effect(s.cat, op, doc, item);
            && w.orders == (if op.OrderCreate? || TakesOrder(op)
                  then map[OrderKey(op) := AfterDoc(op, doc).order]
                  else map[])
            && (op.OrderCreate? ==> OrderKey(op) !in s.orders)
            && (TakesOrder(op) ==> op.order in s.orders && s.orders[op.order] == doc.order
                                   && !doc.order.status.Received?
                                   && (doc.order.status.Voided? ==> op.OrderCancel?))
  {
  }

  lemma {:induction false} OrderCreditIsStockChange(s: State, op: Op, doc: Doc, item: Option<Item>, id: OrderId)
    requires Inv(s) && Passed(s, op, doc, item) && op.OrderReceive? && op.order == id
    ensures id in s.orders && s.orders[id] == doc.order && doc.order.submittedAt.Some?
    ensures var key := ItemKey(doc.order.variant, doc.order.warehouse);
            UnitsAt(Install(s, Effect(s.cat, op, doc, item)), key) - UnitsAt(s, key) == StockChange(op, doc)
    ensures 1 <= StockChange(op, doc) <= doc.order.quantity
  {
    assert OrderOk(s.cat, id, s.orders[id]);
    ItemRowFacts(s, op, doc, item);
  }

  // ---- idempotent creation ---------------------------------------------------------------------------

  /** Every creation logged in `ops` commits when its turn comes. */
  ghost predicate CreatesCommit(s: State, ops: seq<Op>) {
    forall i :: 0 <= i < |ops| && ops[i].Create? ==> Commits(Run(s, ops[..i]), ops[i])
  }

  /** The units debited at their source by the creations of transfer `id`. */
  function DebitsFor(ops: seq<Op>, id: TransferId): seq<int> {
    if ops == [] then []
    else
      var op := ops[|ops| - 1];
      DebitsFor(ops[..|ops| - 1], id)
      + if op.Create? && TransferId(op.tenant, op.request) == id then [op.quantity] else []
  }

  /**
    At most one committed creation, hence one source debit, per (tenant, request_id), and its units are those
    of the stored transfer.
  */
  lemma {:induction false} OneDebitPerRequest(s: State, ops: seq<Op>, id: TransferId)
    requires Inv(s) && id !in s.transfers && CreatesCommit(s, ops)
    ensures var end := Run(s, ops);
            DebitsFor(ops, id) == if id in end.transfers then [end.transfers[id].quantity] else []
  {
    hide Inv, Commits;
    if ops != [] {
      var n := |ops| - 1;
      var prefix, op := ops[..n], ops[n];
      forall i | 0 <= i < n && prefix[i].Create?
        ensures Commits(Run(s, prefix[..i]), prefix[i])
      {
        assert prefix[..i] == ops[..i];
      }
      OneDebitPerRequest(s, prefix, id);
      RunKeepsInv(s, prefix);
      var mid := Run(s, prefix);
      if id in mid.transfers {
        TransferStep(mid, op, id);
      }
      if op.Create? { assert Commits(mid, op); }
      TransferAppears(mid, op, id);
    }
  }

  /** Only a committed creation makes a transfer appear, and it is new. */
  lemma {:induction false} TransferAppears(s: State, op: Op, id: TransferId)
    ensures op.Create? && Commits(s, op) && TransferKey(op) == id ==>
              id !in s.transfers && id in Next(s, op).transfers && Next(s, op).transfers[id].quantity == op.quantity
    ensures id !in s.transfers && !(op.Create? && Commits(s, op) && TransferKey(op) == id) ==>
              id !in Next(s, op).transfers
  {
    if Commits(s, op) {
      CommitPassed(s, op);
      TransferWritten(s, op, DocAt(s, op), ItemAt(s, op));
    }
  }

  /** A committed creation takes exactly the transfer's units from the source row. */
  lemma {:induction false} CreateDebitsItsQuantity(s: State, op: Op)
    requires Inv(s) && op.Create? && Commits(s, op)
    ensures var next, key := Next(s, op), ItemKey(op.variant, op.source);
            && TransferKey(op) !in s.transfers && TransferKey(op) in next.transfers
            && next.transfers[TransferKey(op)] == NewTransfer(op)
            && UnitsAt(next, key) == UnitsAt(s, key) - op.quantity >= 0
            && forall k :: k != key ==> UnitsAt(next, k) == UnitsAt(s, k)
  {
    CommitPassed(s, op);
    TransferWritten(s, op, DocAt(s, op), ItemAt(s, op));
    ItemRowFacts(s, op, DocAt(s, op), ItemAt(s, op));
  }

  /** A later repeat of a stored request returns the stored transfer, whatever else it asks for, and writes nothing. */
  lemma {:induction false} RepeatReturnsStored(s: State, ops: seq<Op>, op: Op, again: Op)
    requires Inv(s) && op.Create? && Commits(s, op)
    requires again.Create? && TransferKey(again) == TransferKey(op)
    ensures var end := Run(Next(s, op), ops);
            && TransferKey(op) in end.transfers
            && (again.source != again.destination ==>
                  Apply(end, again) == (end, TransferReply(end.transfers[TransferKey(op)], false)))
            && (again.source == again.destination ==> Apply(end, again) == (end, Failed(InvalidTransfer)))
  {
    CreateDebitsItsQuantity(s, op);
    NextKeepsInv(s, op);
    TransferIsCreditedOnce(Next(s, op), ops, TransferKey(op));
  }
}
