/** What every stock call and catalogue edit keeps about the rows themselves. */
module LedgerInvariant {
  import opened Wrappers
  import opened Ledger

  ghost predicate CatalogOk(cat: Catalog) {
    forall v :: v in cat.variants ==> 0 <= cat.variants[v].floorPrice <= cat.variants[v].sellingPrice
  }

  /** The variant and the warehouse both belong to the tenant. */
  ghost predicate OwnedBy(cat: Catalog, tenant: Id, variant: Id, warehouse: Id) {
    && variant in cat.variants && cat.variants[variant].tenant == tenant
    && warehouse in cat.warehouses && cat.warehouses[warehouse].tenant == tenant
  }

  ghost predicate ItemOk(cat: Catalog, key: ItemKey, item: Item) {
    && OwnedBy(cat, item.tenant, key.variant, key.warehouse)
    && item.quantity >= 0
    && item.price >= 0
    && (item.decayStatus.Liquidating? ==> item.decayStarted.Some?)
  }

  ghost predicate TransferOk(cat: Catalog, id: TransferId, row: Transfer) {
    && row.quantity >= 1
    && row.source != row.destination
    && OwnedBy(cat, id.tenant, row.variant, row.source)
    && OwnedBy(cat, id.tenant, row.variant, row.destination)
    && !row.status.Pending?
    && (row.status.InTransit? <==> row.completedAt.None?)
    && (row.status.Completed? <==> row.confirmedBy.Some?)
  }

  ghost predicate OrderOk(cat: Catalog, id: OrderId, row: Order) {
    && row.quantity >= 1
    && OwnedBy(cat, id.tenant, row.variant, row.warehouse)
    && (row.status.Submitted? || row.status.Confirmed? || row.status.Received? ==> row.submittedAt.Some?)
    && (row.status.Received? <==> row.receivedAt.Some?)
  }

  ghost predicate ItemsOk(s: State) { forall k :: k in s.items ==> ItemOk(s.cat, k, s.items[k]) }

  /** The source row of a transfer exists: cancelling never misses it. */
  ghost predicate TransfersOk(s: State) {
    forall id :: id in s.transfers ==>
      && TransferOk(s.cat, id, s.transfers[id])
      && ItemKey(s.transfers[id].variant, s.transfers[id].source) in s.items
  }

  ghost predicate OrdersOk(s: State) { forall id :: id in s.orders ==> OrderOk(s.cat, id, s.orders[id]) }

  ghost predicate Inv(s: State) { CatalogOk(s.cat) && ItemsOk(s) && TransfersOk(s) && OrdersOk(s) }

  /** Every call keeps the invariant. */
  lemma {:induction false} NextKeepsInv(s: State, op: Op)
    requires Inv(s)
    ensures Inv(Next(s, op))
  {
    if IsEdit(op) {
      EditKeepsInv(s, op);
    } else if Commits(s, op) {
      CommitPassed(s, op);
      CommitKeepsInv(s, op, DocAt(s, op), ItemAt(s, op));
    }
  }

  lemma {:induction false} CommitKeepsInv(s: State, op: Op, doc: Doc, item: Option<Item>)
    requires Inv(s) && Passed(s, op, doc, item)
    ensures Inv(Install(s, Effect(s.cat, op, doc, item)))
  {
    var w := Effect(s.cat, op, doc, item);
    ItemWritesOk(s, op, doc, item, w);
    TransferWritesOk(s, op, doc, item, w);
    OrderWritesOk(s, op, doc, item, w);
    InstallKeepsInv(s, w);
  }

  lemma {:induction false} ItemWritesOk(s: State, op: Op, doc: Doc, item: Option<Item>, w: Write)
    requires Inv(s) && Passed(s, op, doc, item) && w == Effect(s.cat, op, doc, item)
    ensures forall k :: k in w.items ==> ItemOk(s.cat, k, w.items[k])
  {
    if ItemOf(op, doc).Some? { ItemWriteOk(s, op, doc, item); }
  }

  lemma {:induction false} TransferWritesOk(s: State, op: Op, doc: Doc, item: Option<Item>, w: Write)
    requires Inv(s) && Passed(s, op, doc, item) && w == Effect(s.cat, op, doc, item)
    ensures forall id :: id in w.transfers ==>
      && TransferOk(s.cat, id, w.transfers[id])
      && ItemKey(w.transfers[id].variant, w.transfers[id].source) in s.items
  {
    if op.Create? || TakesTransfer(op) { TransferWriteOk(s, op, doc, item); }
  }

  lemma {:induction false} OrderWritesOk(s: State, op: Op, doc: Doc, item: Option<Item>, w: Write)
    requires Inv(s) && Passed(s, op, doc, item) && w == Effect(s.cat, op, doc, item)
    ensures forall id :: id in w.orders ==> OrderOk(s.cat, id, w.orders[id])
  {
    if op.OrderCreate? || TakesOrder(op) { OrderWriteOk(s, op, doc); }
  }

  lemma {:induction false} EditKeepsInv(s: State, op: Op)
    requires Inv(s) && IsEdit(op)
    ensures Inv(Next(s, op))
  {
    var cat := Edit(s.cat, op).0;
    assert CatalogOk(cat);
    forall t, v, w | OwnedBy(s.cat, t, v, w)
      ensures OwnedBy(cat, t, v, w)
    {
    }
    var next := Next(s, op);
    assert next.items == s.items && next.transfers == s.transfers && next.orders == s.orders;
    forall k | k in next.items ensures ItemOk(cat, k, next.items[k]) {
      assert ItemOk(s.cat, k, s.items[k]);
    }
    forall id | id in next.transfers ensures TransferOk(cat, id, next.transfers[id]) {
      assert TransferOk(s.cat, id, s.transfers[id]);
    }
    forall id | id in next.orders ensures OrderOk(cat, id, next.orders[id]) {
      assert OrderOk(s.cat, id, s.orders[id]);
    }
  }

  lemma {:induction false} InstallKeepsInv(s: State, w: Write)
    requires Inv(s)
    requires forall k :: k in w.items ==> ItemOk(s.cat, k, w.items[k])
    requires forall id :: id in w.transfers ==>
      && TransferOk(s.cat, id, w.transfers[id])
      && ItemKey(w.transfers[id].variant, w.transfers[id].source) in s.items
    requires forall id :: id in w.orders ==> OrderOk(s.cat, id, w.orders[id])
    ensures Inv(Install(s, w))
  {
  }

  lemma {:induction false} ItemWriteOk(s: State, op: Op, doc: Doc, item: Option<Item>)
    requires Inv(s) && !IsEdit(op) && ReadDoc(s, op) == Some(doc) && Precheck(s, op).None?
    requires CheckDoc(s.cat, op, doc).None? && ItemOf(op, doc).Some?
    requires item == FindItem(s, op.tenant, ItemOf(op, doc).value) && CheckItem(s.cat, op, doc, item).None?
    ensures ItemOk(s.cat, ItemOf(op, doc).value, AfterItem(s.cat, op, doc, item))
  {
    var key := ItemOf(op, doc).value;
    if TakesTransfer(op) { assert TransferOk(s.cat, op.transfer, doc.transfer); }
    if TakesOrder(op) { assert OrderOk(s.cat, op.order, doc.order); }
    if item.Some? {
      assert ItemOk(s.cat, key, s.items[key]);
    } else {
      assert InsertsItem(op);
    }
    var before := BeforeItem(s.cat, op, doc, item);
    assert ItemOk(s.cat, key, before);
    assert NewQuantity(op, doc, before.quantity) >= 0;
  }

  lemma {:induction false} TransferWriteOk(s: State, op: Op, doc: Doc, item: Option<Item>)
    requires Inv(s) && (op.Create? || TakesTransfer(op)) && ReadDoc(s, op) == Some(doc) && Precheck(s, op).None?
    requires CheckDoc(s.cat, op, doc).None? && item == FindItem(s, op.tenant, ItemOf(op, doc).value)
    requires CheckItem(s.cat, op, doc, item).None?
    ensures var row := AfterDoc(op, doc).transfer;
            TransferOk(s.cat, TransferKey(op), row) && ItemKey(row.variant, row.source) in s.items
  {
    if TakesTransfer(op) { assert TransferOk(s.cat, op.transfer, doc.transfer); }
  }

  lemma {:induction false} OrderWriteOk(s: State, op: Op, doc: Doc)
    requires Inv(s) && (op.OrderCreate? || TakesOrder(op)) && ReadDoc(s, op) == Some(doc) && Precheck(s, op).None?
    requires CheckDoc(s.cat, op, doc).None?
    ensures OrderOk(s.cat, OrderKey(op), AfterDoc(op, doc).order)
  {
    if TakesOrder(op) { assert OrderOk(s.cat, op.order, doc.order); }
  }

  lemma {:induction false} RunKeepsInv(s: State, ops: seq<Op>)
    requires Inv(s)
    ensures Inv(Run(s, ops))
  {
    if ops != [] {
      var prefix := ops[..|ops| - 1];
      RunKeepsInv(s, prefix);
      NextKeepsInv(Run(s, prefix), ops[|ops| - 1]);
    }
  }

  /**
    The tenant-filtered lookup finds exactly the row that uq_variant_warehouse would collide with, so a call
    that runs alone never ends in an IntegrityError on an inventory row, and never meets a missing row that
    the code takes for granted (`.one()`): only a null price in a variant edit is left unhandled.
  */
  lemma {:induction false} SerialCallsNeverCollide(s: State, op: Op)
    requires Inv(s)
    ensures Apply(s, op).1 != Failed(UniqueViolation)
    ensures Apply(s, op).1 == Failed(Unhandled) && !op.Sold? ==>
      op.EditVariant? && (op.selling.Null? || op.floor.Null?)
  {
    hide Inv, Edit;
    if IsEdit(op) {
      EditIsClean(s.cat, op);
    } else if !Commits(s, op) {
      StopsAreClean(s, op, Decide(s, op).reply);
    } else {
      CommitIsClean(s.cat, op, DocAt(s, op), ItemAt(s, op));
    }
  }

  lemma {:induction false} EditIsClean(cat: Catalog, op: Op)
    requires IsEdit(op)
    ensures Edit(cat, op).1 != Failed(UniqueViolation)
    ensures Edit(cat, op).1 == Failed(Unhandled) ==> op.EditVariant? && (op.selling.Null? || op.floor.Null?)
  {
  }

  lemma {:induction false} CommitIsClean(cat: Catalog, op: Op, doc: Doc, item: Option<Item>)
    requires DocFits(op, doc) && (ItemOf(op, doc).Some? ==> CheckItem(cat, op, doc, item).None?)
    ensures !ReplyOf(cat, op, doc, item).Failed?
  {
  }

  lemma {:induction false} StopsAreClean(s: State, op: Op, reply: Reply)
    requires Inv(s) && !IsEdit(op) && Decide(s, op) == Stop(reply)
    ensures reply != Failed(UniqueViolation) && (reply == Failed(Unhandled) ==> op.Sold?)
  {
    if Precheck(s, op).Some? {
      PrecheckIsClean(s, op);
    } else if ReadDoc(s, op).Some? {
      var doc := ReadDoc(s, op).value;
      if CheckDoc(s.cat, op, doc).Some? {
        CheckDocIsClean(s.cat, op, doc);
      } else if ItemOf(op, doc).Some? {
        ItemStageFindsItsRow(s, op, doc);
      }
    }
  }

  lemma {:induction false} PrecheckIsClean(s: State, op: Op)
    ensures Precheck(s, op) != Some(Failed(UniqueViolation)) && Precheck(s, op) != Some(Failed(Unhandled))
  {
  }

  lemma {:induction false} CheckDocIsClean(cat: Catalog, op: Op, doc: Doc)
    requires DocFits(op, doc)
    ensures CheckDoc(cat, op, doc) != Some(Failed(UniqueViolation))
    ensures CheckDoc(cat, op, doc) != Some(Failed(Unhandled))
  {
  }

  /** With the invariant, the tenant filter of the inventory lookup drops nothing and the variant is there. */
  lemma {:induction false} ItemStageFindsItsRow(s: State, op: Op, doc: Doc)
    requires Inv(s) && !IsEdit(op) && Precheck(s, op).None? && ReadDoc(s, op) == Some(doc)
    requires CheckDoc(s.cat, op, doc).None? && ItemOf(op, doc).Some?
    ensures var key := ItemOf(op, doc).value; var item := FindItem(s, op.tenant, key);
            && (InsertsItem(op) || op.Create? || op.Cancel? ==>
                  FindVariant(s.cat, op.tenant, key.variant).Some? && (item.None? <==> key !in s.items))
            && (op.Cancel? ==> item.Some?)
            && (CheckItem(s.cat, op, doc, item) == Some(Failed(Unhandled)) ==> op.Sold?)
            && CheckItem(s.cat, op, doc, item) != Some(Failed(UniqueViolation))
            && CheckInsert(s, op, doc, item) != Some(Failed(UniqueViolation))
            && CheckInsert(s, op, doc, item) != Some(Failed(Unhandled))
  {
    var key := ItemOf(op, doc).value;
    if TakesTransfer(op) { assert TransferOk(s.cat, op.transfer, doc.transfer); }
    if TakesOrder(op) { assert OrderOk(s.cat, op.order, doc.order); }
    if key in s.items { assert ItemOk(s.cat, key, s.items[key]); }
  }
}
