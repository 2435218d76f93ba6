/** Units are conserved: what a tenant holds of a variant changes only by adjustments and purchases. */
module Conservation {
  import opened Wrappers
  import opened Sums
  import opened Ledger
  import opened LedgerInvariant

  function ItemUnits(k: ItemKey, item: Item, t: Id, v: Id): int {
    if item.tenant == t && k.variant == v then item.quantity else 0
  }

  function TransitUnits(id: TransferId, row: Transfer, t: Id, v: Id): int {
    if id.tenant == t && row.variant == v && row.status.InTransit? then row.quantity else 0
  }

  /** Units of variant v on hand over all warehouses of tenant t. */
  ghost function OnHand(s: State, t: Id, v: Id): int {
    Sum(map k | k in s.items :: ItemUnits(k, s.items[k], t, v))
  }

  /** Units of variant v in transfers of tenant t that are in transit. */
  ghost function InTransitUnits(s: State, t: Id, v: Id): int {
    Sum(map id | id in s.transfers :: TransitUnits(id, s.transfers[id], t, v))
  }

  /** Units that one discrepancy row reports as sent and not received. */
  function MissingUnits(transfers: map<TransferId, Transfer>, t: Id, v: Id): AuditRow -> int {
    (r: AuditRow) =>
      if r.DiscrepancyRow? && r.tenant == t && r.transfer in transfers && transfers[r.transfer].variant == v
      then r.expected - r.received else 0
  }

  function Shortfall(s: State, t: Id, v: Id): int { Total(s.audit, MissingUnits(s.transfers, t, v)) }

  /** Units booked from outside: adjustment rows and purchase-order credit rows. */
  function BookedUnits(t: Id, v: Id): AuditRow -> int {
    (r: AuditRow) =>
      if r.ItemRow? && r.tenant == t && r.key.variant == v
         && (r.action.StockAdjustment? || r.action.OrderInventoryCredit?)
      then r.after.quantity - r.before.quantity else 0
  }

  /** Every unit the ledger accounts for. */
  ghost function Balance(s: State, t: Id, v: Id): int {
    OnHand(s, t, v) + InTransitUnits(s, t, v) + Shortfall(s, t, v)
  }

  /** What a call brings in from outside, read off its request: the adjustment delta or the units received. */
  function Inflow(s: State, op: Op, t: Id, v: Id): int {
    if !Commits(s, op) || op.tenant != t then 0
    else
      match op
      case Adjust(_, _, _, key, delta, _) => if key.variant == v then delta else 0
      case OrderReceive(_, _, _, order, received) =>
        var row := DocAt(s, op).order;
        if row.variant != v then 0 else if received.Some? then received.value else row.quantity
      case _ => 0
  }

  function TotalInflow(s: State, ops: seq<Op>, t: Id, v: Id): int {
    if ops == [] then 0
    else
      var prefix := ops[..|ops| - 1];
      TotalInflow(s, prefix, t, v) + Inflow(Run(s, prefix), ops[|ops| - 1], t, v)
  }

  /** Every discrepancy row names a stored transfer. */
  ghost predicate DiscrepanciesNamed(s: State) {
    forall i :: 0 <= i < |s.audit| && s.audit[i].DiscrepancyRow? ==> s.audit[i].transfer in s.transfers
  }

  /**
    Conservation over every run, per tenant and variant: on hand + in transit + reported shortfall grows by
    exactly the adjustment deltas and the units received on purchase orders.
  */
  lemma {:induction false} UnitsAreConserved(s: State, ops: seq<Op>, t: Id, v: Id)
    requires Inv(s) && DiscrepanciesNamed(s)
    ensures Balance(Run(s, ops), t, v) == Balance(s, t, v) + TotalInflow(s, ops, t, v)
    ensures DiscrepanciesNamed(Run(s, ops))
  {
    if ops != [] {
      var prefix, op := ops[..|ops| - 1], ops[|ops| - 1];
      UnitsAreConserved(s, prefix, t, v);
      RunKeepsInv(s, prefix);
      StepConserves(Run(s, prefix), op, t, v);
    }
  }

  /** The same total, read off the audit log: it books exactly what came in. */
  lemma {:induction false} AuditBooksTheInflow(s: State, ops: seq<Op>, t: Id, v: Id)
    requires Inv(s)
    ensures Total(Run(s, ops).audit, BookedUnits(t, v))
            == Total(s.audit, BookedUnits(t, v)) + TotalInflow(s, ops, t, v)
  {
    if ops != [] {
      var prefix, op := ops[..|ops| - 1], ops[|ops| - 1];
      AuditBooksTheInflow(s, prefix, t, v);
      RunKeepsInv(s, prefix);
      StepBooks(Run(s, prefix), op, t, v);
    }
  }

  /** On a run from empty tables the two sides are equal, and no row is ever negative. */
  lemma {:induction false} LedgerBalances(s: State, ops: seq<Op>, t: Id, v: Id)
    requires Inv(s) && s.items == map[] && s.transfers == map[] && s.audit == []
    ensures var end := Run(s, ops);
            && OnHand(end, t, v) + InTransitUnits(end, t, v) + Shortfall(end, t, v)
               == Total(end.audit, BookedUnits(t, v))
            && forall k :: k in end.items ==> end.items[k].quantity >= 0
  {
    UnitsAreConserved(s, ops, t, v);
    AuditBooksTheInflow(s, ops, t, v);
    RunKeepsInv(s, ops);
    EmptyTablesHoldNothing(s, t, v);
    var end := Run(s, ops);
    forall k | k in end.items ensures end.items[k].quantity >= 0 {
      assert ItemOk(end.cat, k, end.items[k]);
    }
  }

  lemma EmptyTablesHoldNothing(s: State, t: Id, v: Id)
    requires s.items == map[] && s.transfers == map[]
    ensures OnHand(s, t, v) == 0 && InTransitUnits(s, t, v) == 0
  {
  }

  // ---- one step --------------------------------------------------------------------------------------

  lemma {:induction false} StepConserves(s: State, op: Op, t: Id, v: Id)
    requires Inv(s) && DiscrepanciesNamed(s)
    ensures Balance(Next(s, op), t, v) == Balance(s, t, v) + Inflow(s, op, t, v)
    ensures DiscrepanciesNamed(Next(s, op))
  {
    if Commits(s, op) {
      CommitPassed(s, op);
      CommitConserves(s, op, DocAt(s, op), ItemAt(s, op), t, v);
    }
  }

  /** Units a passed call adds to its inventory row. */
  function StockChange(op: Op, doc: Doc): int
    requires DocFits(op, doc)
  {
    NewQuantity(op, doc, 0)
  }

  function UnitsIf(b: bool, n: int): int { if b then n else 0 }

  predicate OnVariant(op: Op, doc: Doc, t: Id, v: Id)
    requires DocFits(op, doc)
  {
    op.tenant == t && ItemOf(op, doc).Some? && ItemOf(op, doc).value.variant == v
  }

  /** Units a passed call adds to those in transit. */
  function TransitChange(op: Op, doc: Doc): int
    requires DocFits(op, doc)
  {
    if op.Create? then op.quantity else if TakesTransfer(op) then -doc.transfer.quantity else 0
  }

  /** Units a passed call reports as missing. */
  function MissingChange(op: Op, doc: Doc): int
    requires DocFits(op, doc)
  {
    if op.Confirm? then doc.transfer.quantity - ReceivedQuantity(op.received, doc.transfer.quantity) else 0
  }

  lemma {:induction false} CommitConserves(s: State, op: Op, doc: Doc, item: Option<Item>, t: Id, v: Id)
    requires Inv(s) && DiscrepanciesNamed(s) && Passed(s, op, doc, item)
    ensures var next := Install(s, Effect(s.cat, op, doc, item));
            && Balance(next, t, v) == Balance(s, t, v)
               + (if op.Adjust? || op.OrderReceive? then UnitsIf(OnVariant(op, doc, t, v), StockChange(op, doc)) else 0)
            && DiscrepanciesNamed(next)
  {
    OnHandStep(s, op, doc, item, t, v);
    TransitStep(s, op, doc, item, t, v);
    ShortfallStep(s, op, doc, item, t, v);
    ChangesCancel(op, doc);
  }

  /** Only adjustments and receipts move the total. */
  lemma {:induction false} ChangesCancel(op: Op, doc: Doc)
    requires DocFits(op, doc)
    ensures StockChange(op, doc) + TransitChange(op, doc) + MissingChange(op, doc)
            == if op.Adjust? || op.OrderReceive? then StockChange(op, doc) else 0
  {
  }

  lemma {:induction false} OnHandStep(s: State, op: Op, doc: Doc, item: Option<Item>, t: Id, v: Id)
    requires Inv(s) && Passed(s, op, doc, item)
    ensures OnHand(Install(s, Effect(s.cat, op, doc, item)), t, v)
            == OnHand(s, t, v) + UnitsIf(OnVariant(op, doc, t, v), StockChange(op, doc))
  {
    var w := Effect(s.cat, op, doc, item);
    if ItemOf(op, doc).Some? {
      ItemRowFacts(s, op, doc, item);
      OnHandUpdate(s, w, ItemOf(op, doc).value, AfterItem(s.cat, op, doc, item), t, v);
    } else {
      OnHandSame(s, w, t, v);
    }
  }

  lemma {:induction false} TransitStep(s: State, op: Op, doc: Doc, item: Option<Item>, t: Id, v: Id)
    requires Passed(s, op, doc, item)
    ensures InTransitUnits(Install(s, Effect(s.cat, op, doc, item)), t, v)
            == InTransitUnits(s, t, v) + UnitsIf(OnVariant(op, doc, t, v), TransitChange(op, doc))
  {
    var w := Effect(s.cat, op, doc, item);
    if op.Create? || TakesTransfer(op) {
      TransitUpdate(s, w, TransferKey(op), AfterDoc(op, doc).transfer, t, v);
    } else {
      TransitSame(s, w, t, v);
    }
  }

  /** The inventory row a passed call writes: its tenant's, and changed by exactly StockChange. */
  lemma {:induction false} ItemRowFacts(s: State, op: Op, doc: Doc, item: Option<Item>)
    requires Inv(s) && Passed(s, op, doc, item) && ItemOf(op, doc).Some?
    ensures var key, before := ItemOf(op, doc).value, BeforeItem(s.cat, op, doc, item);
            var after := AfterItem(s.cat, op, doc, item);
            && before.tenant == op.tenant && after.tenant == op.tenant
            && (key in s.items ==> s.items[key] == before)
            && (key !in s.items ==> before.quantity == 0)
            && after.quantity == before.quantity + StockChange(op, doc)
  {
    if item.None? {
      ItemStageFindsItsRow(s, op, doc);
    }
  }

  lemma {:induction false} OnHandUpdate(s: State, w: Write, key: ItemKey, after: Item, t: Id, v: Id)
    requires w.items == map[key := after]
    ensures OnHand(Install(s, w), t, v) == OnHand(s, t, v) + ItemUnits(key, after, t, v)
            - (if key in s.items then ItemUnits(key, s.items[key], t, v) else 0)
  {
    var before := map k | k in s.items :: ItemUnits(k, s.items[k], t, v);
    var next := Install(s, w);
    assert (map k | k in next.items :: ItemUnits(k, next.items[k], t, v)) == before[key := ItemUnits(key, after, t, v)];
    SumUpdate(before, key, ItemUnits(key, after, t, v));
  }

  lemma {:induction false} OnHandSame(s: State, w: Write, t: Id, v: Id)
    requires w.items == map[]
    ensures OnHand(Install(s, w), t, v) == OnHand(s, t, v)
  {
    assert Install(s, w).items == s.items;
  }

  lemma {:induction false} TransitUpdate(s: State, w: Write, id: TransferId, after: Transfer, t: Id, v: Id)
    requires w.transfers == map[id := after]
    ensures InTransitUnits(Install(s, w), t, v) == InTransitUnits(s, t, v) + TransitUnits(id, after, t, v)
            - (if id in s.transfers then TransitUnits(id, s.transfers[id], t, v) else 0)
  {
    var before := map i | i in s.transfers :: TransitUnits(i, s.transfers[i], t, v);
    var next := Install(s, w);
    assert (map i | i in next.transfers :: TransitUnits(i, next.transfers[i], t, v))
        == before[id := TransitUnits(id, after, t, v)];
    SumUpdate(before, id, TransitUnits(id, after, t, v));
  }

  lemma {:induction false} TransitSame(s: State, w: Write, t: Id, v: Id)
    requires w.transfers == map[]
    ensures InTransitUnits(Install(s, w), t, v) == InTransitUnits(s, t, v)
  {
    assert Install(s, w).transfers == s.transfers;
  }

  /** New log entries add their own amounts; the amounts of old discrepancy rows do not move. */
  lemma {:induction false} ShortfallInstall(s: State, w: Write, t: Id, v: Id)
    requires DiscrepanciesNamed(s)
    requires forall id :: id in w.transfers && id in s.transfers ==> w.transfers[id].variant == s.transfers[id].variant
    ensures var next := Install(s, w);
            Shortfall(next, t, v) == Shortfall(s, t, v) + Total(w.rows, MissingUnits(next.transfers, t, v))
  {
    var f := MissingUnits(Install(s, w).transfers, t, v);
    TotalAppend(s.audit, w.rows, f);
    TotalSame(s.audit, MissingUnits(s.transfers, t, v), f);
  }

  lemma {:induction false} ShortfallStep(s: State, op: Op, doc: Doc, item: Option<Item>, t: Id, v: Id)
    requires Inv(s) && DiscrepanciesNamed(s) && Passed(s, op, doc, item)
    ensures var next := Install(s, Effect(s.cat, op, doc, item));
            && Shortfall(next, t, v) == Shortfall(s, t, v)
               + UnitsIf(OnVariant(op, doc, t, v), MissingChange(op, doc))
            && DiscrepanciesNamed(next)
  {
    var w := Effect(s.cat, op, doc, item);
    TransferKeepsVariant(s, op, doc, item);
    ShortfallInstall(s, w, t, v);
    MissingInRows(op, doc, item, w, Install(s, w).transfers, s.cat, t, v);
    DiscrepancyNamesItsTransfer(s.cat, op, doc, item);
    InstallNamesDiscrepancies(s, w);
  }

  lemma {:induction false} TransferKeepsVariant(s: State, op: Op, doc: Doc, item: Option<Item>)
    requires Passed(s, op, doc, item)
    ensures var w := Effect(s.cat, op, doc, item);
            && (forall id :: id in w.transfers && id in s.transfers ==>
                  w.transfers[id].variant == s.transfers[id].variant)
            && (op.Confirm? ==> op.transfer in s.transfers && op.transfer in w.transfers
                                && w.transfers[op.transfer].variant == doc.transfer.variant)
  {
  }

  lemma {:induction false} InstallNamesDiscrepancies(s: State, w: Write)
    requires DiscrepanciesNamed(s)
    requires forall r :: r in w.rows && r.DiscrepancyRow? ==> r.transfer in s.transfers
    ensures DiscrepanciesNamed(Install(s, w))
  {
    var next := Install(s, w);
    forall i | 0 <= i < |next.audit| && next.audit[i].DiscrepancyRow?
      ensures next.audit[i].transfer in next.transfers
    {
      if i >= |s.audit| { assert next.audit[i] in w.rows; }
    }
  }

  lemma {:induction false} MissingInRows(
      op: Op, doc: Doc, item: Option<Item>, w: Write, transfers: map<TransferId, Transfer>, cat: Catalog, t: Id, v: Id)
    requires DocFits(op, doc) && (ItemOf(op, doc).Some? ==> CheckItem(cat, op, doc, item).None?)
    requires w == Effect(cat, op, doc, item)
    requires op.Confirm? ==> op.transfer in transfers && transfers[op.transfer].variant == doc.transfer.variant
    ensures Total(w.rows, MissingUnits(transfers, t, v)) == UnitsIf(OnVariant(op, doc, t, v), MissingChange(op, doc))
  {
    var f := MissingUnits(transfers, t, v);
    EffectTotal(cat, op, doc, item, f);
    DocRowsHoldNoUnits(op, doc, transfers, t, v);
    TotalShort(GapRows(op, doc), f);
    if ItemOf(op, doc).Some? {
      StockRowsMissNothing(
        op, ItemOf(op, doc).value, BeforeItem(cat, op, doc, item), AfterItem(cat, op, doc, item), transfers, t, v);
    }
  }

  lemma {:induction false} DiscrepancyNamesItsTransfer(cat: Catalog, op: Op, doc: Doc, item: Option<Item>)
    requires DocFits(op, doc) && (ItemOf(op, doc).Some? ==> CheckItem(cat, op, doc, item).None?)
    ensures forall r :: r in Effect(cat, op, doc, item).rows && r.DiscrepancyRow? ==>
              op.Confirm? && r.transfer == op.transfer
  {
  }

  /** The new audit rows, part by part. */
  lemma {:induction false} EffectTotal(cat: Catalog, op: Op, doc: Doc, item: Option<Item>, f: AuditRow -> int)
    requires DocFits(op, doc) && (ItemOf(op, doc).Some? ==> CheckItem(cat, op, doc, item).None?)
    ensures Total(Effect(cat, op, doc, item).rows, f) == Total(DocRows(op, doc), f)
            + if ItemOf(op, doc).None? then 0
              else Total(StockRows(op, ItemOf(op, doc).value,
                                   BeforeItem(cat, op, doc, item), AfterItem(cat, op, doc, item)), f)
                   + Total(GapRows(op, doc), f)
  {
    if ItemOf(op, doc).Some? {
      var stock := StockRows(op, ItemOf(op, doc).value, BeforeItem(cat, op, doc, item), AfterItem(cat, op, doc, item));
      TotalAppend(DocRows(op, doc), stock, f);
      TotalAppend(DocRows(op, doc) + stock, GapRows(op, doc), f);
    }
  }

  lemma {:induction false} DocRowsHoldNoUnits(op: Op, doc: Doc, transfers: map<TransferId, Transfer>, t: Id, v: Id)
    requires DocFits(op, doc)
    ensures Total(DocRows(op, doc), MissingUnits(transfers, t, v)) == 0
    ensures Total(DocRows(op, doc), BookedUnits(t, v)) == 0
    ensures Total(GapRows(op, doc), BookedUnits(t, v)) == 0
  {
    NothingCounted(DocRows(op, doc), MissingUnits(transfers, t, v));
    NothingCounted(DocRows(op, doc), BookedUnits(t, v));
    NothingCounted(GapRows(op, doc), BookedUnits(t, v));
  }

  lemma {:induction false} StockRowsMissNothing(
      op: Op, key: ItemKey, before: Item, after: Item, transfers: map<TransferId, Transfer>, t: Id, v: Id)
    ensures Total(StockRows(op, key, before, after), MissingUnits(transfers, t, v)) == 0
  {
    NothingCounted(StockRows(op, key, before, after), MissingUnits(transfers, t, v));
  }

  lemma {:induction false} NothingCounted(rows: seq<AuditRow>, f: AuditRow -> int)
    requires |rows| <= 1 && forall i :: 0 <= i < |rows| ==> f(rows[i]) == 0
    ensures Total(rows, f) == 0
  {
    TotalShort(rows, f);
  }

  lemma {:induction false} StepBooks(s: State, op: Op, t: Id, v: Id)
    requires Inv(s)
    ensures Total(Next(s, op).audit, BookedUnits(t, v))
            == Total(s.audit, BookedUnits(t, v)) + Inflow(s, op, t, v)
  {
    hide Inv, Effect;
    if Commits(s, op) {
      CommitPassed(s, op);
      CommitBooks(s, op, DocAt(s, op), ItemAt(s, op), t, v);
    }
  }

  lemma {:induction false} CommitBooks(s: State, op: Op, doc: Doc, item: Option<Item>, t: Id, v: Id)
    requires Inv(s) && Passed(s, op, doc, item)
    ensures Total(s.audit + Effect(s.cat, op, doc, item).rows, BookedUnits(t, v))
            == Total(s.audit, BookedUnits(t, v))
               + (if op.Adjust? || op.OrderReceive? then UnitsIf(OnVariant(op, doc, t, v), StockChange(op, doc)) else 0)
  {
    var f := BookedUnits(t, v);
    TotalAppend(s.audit, Effect(s.cat, op, doc, item).rows, f);
    EffectTotal(s.cat, op, doc, item, f);
    DocRowsHoldNoUnits(op, doc, s.transfers, t, v);
    if ItemOf(op, doc).Some? {
      ItemRowFacts(s, op, doc, item);
      StockRowBooks(op, doc, ItemOf(op, doc).value,
                    BeforeItem(s.cat, op, doc, item), AfterItem(s.cat, op, doc, item), t, v);
    }
  }

  lemma {:induction false} StockRowBooks(op: Op, doc: Doc, key: ItemKey, before: Item, after: Item, t: Id, v: Id)
    requires DocFits(op, doc) && ItemOf(op, doc) == Some(key)
    requires after.quantity == before.quantity + StockChange(op, doc)
    ensures Total(StockRows(op, key, before, after), BookedUnits(t, v))
            == if op.Adjust? || op.OrderReceive? then UnitsIf(OnVariant(op, doc, t, v), StockChange(op, doc)) else 0
  {
    TotalShort(StockRows(op, key, before, after), BookedUnits(t, v));
  }
}
