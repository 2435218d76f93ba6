/**
  The services as methods over the committed tables. Each method follows the service function's own order
  of checks and writes, and is proved against the serial specification in Ledger.
*/
module LedgerService {
  import opened Wrappers
  import opened DecayPrice
  import opened Ledger
  import opened DecayCycle
  import opened DecayLoop

  /** The counters of a decay cycle. */
  datatype Counts = Counts(marked: nat, discounted: nat)

  class Database {
    var cat: Catalog
    var items: map<ItemKey, Item>
    var transfers: map<TransferId, Transfer>
    var orders: map<OrderId, Order>
    var audit: seq<AuditRow>

    function Tables(): State
      reads this
    {
      State(cat, items, transfers, orders, audit)
    }

    constructor (cat: Catalog)
      ensures Tables() == State(cat, map[], map[], map[], [])
    {
      this.cat := cat;
      items, transfers, orders, audit := map[], map[], map[], [];
    }

    // ---- inventory_service -----------------------------------------------------------------------------

    method AdjustInventory(tenant: Id, user: Id, now: Time, variant: Id, warehouse: Id, delta: int, reason: string)
      returns (reply: Reply)
      modifies this
      ensures (Tables(), reply)
           == Apply(old(Tables()), Adjust(tenant, user, now, ItemKey(variant, warehouse), delta, reason))
    {
      var found := FindVariant(cat, tenant, variant);
      if found.None? { return Failed(NotFound); }
      if !ActiveWarehouse(cat, tenant, warehouse) { return Failed(NotFound); }
      var key := ItemKey(variant, warehouse);
      var row := FindItem(Tables(), tenant, key);
      if row.None? {
        if delta < 0 { return Failed(InsufficientStock); }
        if key in items { return Failed(UniqueViolation); }
        row := Some(FreshItem(tenant, found.value));
      }
      var before := row.value;
      if before.quantity + delta < 0 { return Failed(InsufficientStock); }
      var after := before.(quantity := before.quantity + delta);
      items := items[key := after];
      var stockRow := ItemRow(tenant, user, StockAdjustment(reason), key, before, after, now);
      audit := audit + [stockRow];
      Joined(old(audit), [], [stockRow], []);
      PutItem(old(items), key, after);
      PutNothing(old(Tables()));
      reply := ItemReply(after);
    }

    // ---- transfer_service ------------------------------------------------------------------------------

    method CreateTransfer(
        tenant: Id, user: Id, now: Time, request: string, source: Id, destination: Id, variant: Id, quantity: Pos)
      returns (reply: Reply)
      modifies this
      ensures (Tables(), reply)
           == Apply(old(Tables()), Create(tenant, user, now, request, source, destination, variant, quantity))
    {
      if source == destination { return Failed(InvalidTransfer); }
      var id := TransferId(tenant, request);
      if id in transfers { return TransferReply(transfers[id], false); }
      if !ActiveWarehouse(cat, tenant, source) || !ActiveWarehouse(cat, tenant, destination)
         || FindVariant(cat, tenant, variant).None? {
        return Failed(NotFound);
      }
      var transfer := Transfer(source, destination, variant, quantity, InTransit, user, None, now, None);
      var key := ItemKey(variant, source);
      var row := FindItem(Tables(), tenant, key);
      if row.None? || row.value.quantity < quantity { return Failed(InsufficientStock); }
      var before := row.value;
      var after := before.(quantity := before.quantity - quantity);
      items := items[key := after];
      transfers := transfers[id := transfer];
      var docRow := TransferRow(tenant, user, TransferCreated, id, transfer, now);
      var stockRow := ItemRow(tenant, user, TransferSourceDebit, key, before, after, now);
      audit := audit + [docRow];
      audit := audit + [stockRow];
      Joined(old(audit), [docRow], [stockRow], []);
      PutItem(old(items), key, after);
      PutTransfer(old(transfers), id, transfer);
      PutNothing(old(Tables()));
      reply := TransferReply(transfer, true);
    }

    method ConfirmTransfer(tenant: Id, user: Id, now: Time, id: TransferId, received: Option<Pos>)
      returns (reply: Reply)
      modifies this
      ensures (Tables(), reply) == Apply(old(Tables()), Confirm(tenant, user, now, id, received))
    {
      if id !in transfers || id.tenant != tenant { return Failed(NotFound); }
      var transfer := transfers[id];
      if !transfer.status.InTransit? { return Failed(InvalidState); }
      var receivedQuantity := if received.Some? then received.value else transfer.quantity;
      if receivedQuantity > transfer.quantity { return Failed(OverReceived); }
      var key := ItemKey(transfer.variant, transfer.destination);
      var row := FindItem(Tables(), tenant, key);
      var variant := FindVariant(cat, tenant, transfer.variant);
      if variant.None? { return Failed(Unhandled); }
      if row.None? {
        if key in items { return Failed(UniqueViolation); }
        row := Some(FreshItem(tenant, variant.value));
      }
      var before := row.value;
      var after := before.(quantity := before.quantity + receivedQuantity);
      var done := transfer.(status := Completed, confirmedBy := Some(user), completedAt := Some(now));
      items := items[key := after];
      transfers := transfers[id := done];
      var docRow := TransferRow(tenant, user, TransferCompleted, id, done, now);
      var stockRow := ItemRow(tenant, user, TransferDestinationCredit, key, before, after, now);
      audit := audit + [docRow];
      audit := audit + [stockRow];
      ghost var gap := [];
      if receivedQuantity != transfer.quantity {
        var gapRow := DiscrepancyRow(tenant, user, id, transfer.quantity, receivedQuantity, now);
        audit := audit + [gapRow];
        gap := [gapRow];
      }
      Joined(old(audit), [docRow], [stockRow], gap);
      PutItem(old(items), key, after);
      PutTransfer(old(transfers), id, done);
      PutNothing(old(Tables()));
      reply := TransferReply(done, false);
    }

    method CancelTransfer(tenant: Id, user: Id, now: Time, id: TransferId) returns (reply: Reply)
      modifies this
      ensures (Tables(), reply) == Apply(old(Tables()), Cancel(tenant, user, now, id))
    {
      if id !in transfers || id.tenant != tenant { return Failed(NotFound); }
      var transfer := transfers[id];
      if !transfer.status.InTransit? { return Failed(InvalidState); }
      var key := ItemKey(transfer.variant, transfer.source);
      var row := FindItem(Tables(), tenant, key);
      if row.None? { return Failed(Unhandled); }
      var before := row.value;
      var after := before.(quantity := before.quantity + transfer.quantity);
      var done := transfer.(status := Cancelled, completedAt := Some(now));
      items := items[key := after];
      transfers := transfers[id := done];
      var docRow := TransferRow(tenant, user, TransferCancelled, id, done, now);
      var stockRow := ItemRow(tenant, user, TransferSourceRestore, key, before, after, now);
      audit := audit + [docRow];
      audit := audit + [stockRow];
      Joined(old(audit), [docRow], [stockRow], []);
      PutItem(old(items), key, after);
      PutTransfer(old(transfers), id, done);
      PutNothing(old(Tables()));
      reply := TransferReply(done, false);
    }

    // ---- procurement_service ---------------------------------------------------------------------------

    method CreatePurchaseOrder(
        tenant: Id, user: Id, now: Time, number: string, supplier: Id, warehouse: Id, variant: Id,
        quantity: Pos, unitCost: nat)
      returns (reply: Reply)
      modifies this
      ensures (Tables(), reply)
           == Apply(old(Tables()),
                    OrderCreate(tenant, user, now, number, supplier, warehouse, variant, quantity, unitCost))
    {
      if !ActiveSupplier(cat, tenant, supplier) || !ActiveWarehouse(cat, tenant, warehouse)
         || FindVariant(cat, tenant, variant).None? {
        return Failed(NotFound);
      }
      var id := OrderId(tenant, number);
      if id in orders { return Failed(OrderConflict); }
      var order := Order(supplier, warehouse, variant, quantity, unitCost, Draft, user, None, None, None, now);
      orders := orders[id := order];
      audit := audit + [OrderRow(tenant, user, OrderCreated, id, None, order, now)];
      PutOrder(old(orders), id, order);
      PutNothing(old(Tables()));
      reply := OrderReply(order);
    }

    method SubmitPurchaseOrder(tenant: Id, user: Id, now: Time, id: OrderId) returns (reply: Reply)
      modifies this
      ensures (Tables(), reply) == Apply(old(Tables()), OrderSubmit(tenant, user, now, id))
    {
      if id !in orders || id.tenant != tenant { return Failed(NotFound); }
      var order := orders[id];
      if !order.status.Draft? { return Failed(InvalidState); }
      if !ActiveSupplier(cat, tenant, order.supplier) || !ActiveWarehouse(cat, tenant, order.warehouse)
         || FindVariant(cat, tenant, order.variant).None? {
        return Failed(NotFound);
      }
      reply := Record(tenant, user, now, id, OrderSubmitted, order.(status := Submitted, submittedAt := Some(now)));
      PutOrder(old(orders), id, orders[id]);
      PutNothing(old(Tables()));
    }

    method ConfirmPurchaseOrder(tenant: Id, user: Id, now: Time, id: OrderId) returns (reply: Reply)
      modifies this
      ensures (Tables(), reply) == Apply(old(Tables()), OrderConfirm(tenant, user, now, id))
    {
      if id !in orders || id.tenant != tenant { return Failed(NotFound); }
      var order := orders[id];
      if !order.status.Submitted? { return Failed(InvalidState); }
      reply := Record(tenant, user, now, id, OrderConfirmed, order.(status := Confirmed, confirmedAt := Some(now)));
      PutOrder(old(orders), id, orders[id]);
      PutNothing(old(Tables()));
    }

    method CancelPurchaseOrder(tenant: Id, user: Id, now: Time, id: OrderId) returns (reply: Reply)
      modifies this
      ensures (Tables(), reply) == Apply(old(Tables()), OrderCancel(tenant, user, now, id))
    {
      if id !in orders || id.tenant != tenant { return Failed(NotFound); }
      var order := orders[id];
      if order.status.Received? { return Failed(InvalidState); }
      reply := Record(tenant, user, now, id, OrderCancelled, order.(status := Voided));
      PutOrder(old(orders), id, orders[id]);
      PutNothing(old(Tables()));
    }

    method ReceivePurchaseOrder(tenant: Id, user: Id, now: Time, id: OrderId, received: Option<Pos>)
      returns (reply: Reply)
      modifies this
      ensures (Tables(), reply) == Apply(old(Tables()), OrderReceive(tenant, user, now, id, received))
    {
      if id !in orders || id.tenant != tenant { return Failed(NotFound); }
      var order := orders[id];
      if !order.status.Submitted? && !order.status.Confirmed? { return Failed(InvalidState); }
      var receivedQuantity := if received.Some? then received.value else order.quantity;
      if receivedQuantity > order.quantity { return Failed(OverReceived); }
      var variant := FindVariant(cat, tenant, order.variant);
      if variant.None? { return Failed(NotFound); }
      if !ActiveWarehouse(cat, tenant, order.warehouse) { return Failed(NotFound); }
      var key := ItemKey(order.variant, order.warehouse);
      var row := FindItem(Tables(), tenant, key);
      if row.None? {
        if key in items { return Failed(UniqueViolation); }
        row := Some(FreshItem(tenant, variant.value));
      }
      var before := row.value;
      var after := before.(quantity := before.quantity + receivedQuantity);
      items := items[key := after];
      var done := order.(status := Received, receivedAt := Some(now));
      reply := Record(tenant, user, now, id, OrderReceived, done);
      var stockRow := ItemRow(tenant, user, OrderInventoryCredit, key, before, after, now);
      audit := audit + [stockRow];
      Joined(old(audit), [OrderRow(tenant, user, OrderReceived, id, Some(order), done, now)], [stockRow], []);
      PutItem(old(items), key, after);
      PutOrder(old(orders), id, orders[id]);
      PutNothing(old(Tables()));
    }

    /** Stores an order row with its audit row. */
    method Record(tenant: Id, user: Id, now: Time, id: OrderId, action: Action, order: Order) returns (reply: Reply)
      requires id in orders
      modifies this
      ensures orders == old(orders)[id := order] && reply == OrderReply(order)
      ensures audit == old(audit) + [OrderRow(tenant, user, action, id, Some(old(orders)[id]), order, now)]
      ensures cat == old(cat) && items == old(items) && transfers == old(transfers)
    {
      var before := orders[id];
      orders := orders[id := order];
      audit := audit + [OrderRow(tenant, user, action, id, Some(before), order, now)];
      reply := OrderReply(order);
    }

    // ---- catalog_service -------------------------------------------------------------------------------

    method UpdateProductVariant(tenant: Id, variant: Id, selling: Patch, floor: Patch) returns (reply: Reply)
      modifies this
      ensures (Tables(), reply) == Apply(old(Tables()), EditVariant(tenant, variant, selling, floor))
    {
      var found := FindVariant(cat, tenant, variant);
      if found.None? { return Failed(NotFound); }
      if selling.Null? || floor.Null? { return Failed(Unhandled); }
      var row := found.value;
      var sellingPrice := if selling.Given? then selling.value else row.sellingPrice;
      var floorPrice := if floor.Given? then floor.value else row.floorPrice;
      if floorPrice > sellingPrice { return Failed(InvalidPrice); }
      row := row.(sellingPrice := sellingPrice);
      row := row.(floorPrice := floorPrice);
      cat := cat.(variants := cat.variants[variant := row]);
      reply := Done;
    }

    // ---- decay_service ---------------------------------------------------------------------------------

    /**
      run_decay_cycle. `busyMark` and `busyDiscount` are the rows that others hold locked at the two SELECTs;
      `users` maps a tenant to the user its audit rows name. Every reachable state is Owned. `first` and `second`
      are the orders in which the SELECTs returned their rows; given them, the audit log is fixed.
    */
    method RunDecayCycle(
        scope: Option<Id>, now: Time, users: map<Id, Id>, busyMark: set<ItemKey>, busyDiscount: set<ItemKey>)
      returns (result: Counts, byTenant: map<Id, Counts>, ghost first: seq<ItemKey>, ghost second: seq<ItemKey>)
      requires Owned(cat, items)
      modifies this
      ensures cat == old(cat) && transfers == old(transfers) && orders == old(orders)
      ensures CycledOnly(cat, scope, now, busyMark, busyDiscount, old(items), items)
      ensures var mid := Marked(cat, scope, now, busyMark, old(items));
              var toMark, toDiscount := ToMark(cat, scope, now, busyMark, old(items)),
                  ToDiscount(cat, scope, now, busyDiscount, mid);
              && items == Lowered(cat, scope, now, busyDiscount, mid)
              && result == Counts(|toMark|, |toDiscount|)
              && (forall t ::
                    CountsOf(byTenant, t) == Counts(|OfTenant(toMark, old(items), t)|, |OfTenant(toDiscount, mid, t)|))
              && Lists(first, toMark) && Lists(second, toDiscount)
              && audit == old(audit) + AuditOf(cat, Clock(Marking, now, users), old(items), first)
                          + AuditOf(cat, Clock(Discounting, now, users), mid, second)
              && Tables() == Run(old(Tables()), StepsOf(Clock(Marking, now, users), old(items), first)
                                                + StepsOf(Clock(Discounting, now, users), mid, second))
    {
      hide Halfway, Due, Run, CycledOnly;
      ghost var start := Tables();
      var c := Clock(Marking, now, users);
      MarkingIsMarked(cat, scope, c, busyMark, items);
      var rows := ToMark(cat, scope, now, busyMark, items);
      var marked, marks;
      marked, marks, first := MarkRows(rows, c);
      HalfwayDone(start, c, rows, first, Tables(), marked, marks);

      var d := Clock(Discounting, now, users);
      ghost var mid := Tables();
      DiscountingIsLowered(cat, scope, d, busyDiscount, items);
      rows := ToDiscount(cat, scope, now, busyDiscount, items);
      var discounted, cuts;
      discounted, cuts, second := DiscountRows(rows, d);
      HalfwayDone(mid, d, rows, second, Tables(), discounted, cuts);
      RunAppend(start, StepsOf(c, start.items, first), StepsOf(d, mid.items, second));

      CycleMeaning(cat, scope, now, busyMark, busyDiscount, start.items);
      result := Counts(marked, discounted);
      byTenant := map t | t in marks.Keys + cuts.Keys :: Counts(CountOf(marks, t), CountOf(cuts, t));
    }

    /** The marking loop; `order` is the order in which it met its rows. */
    method MarkRows(rows: set<ItemKey>, c: Clock)
      returns (marked: nat, byTenant: map<Id, nat>, ghost order: seq<ItemKey>)
      requires c.phase.Marking? && AllDue(cat, c, items, rows)
      modifies this
      ensures Halfway(old(Tables()), c, rows, order, Tables(), marked, byTenant)
    {
      hide Halfway, Due;
      marked, byTenant, order := 0, map[], [];
      ghost var start, done := Tables(), {};
      HalfwayStart(start, c);
      var todo := rows;
      while todo != {}
        invariant done + todo == rows && done !! todo
        invariant Halfway(start, c, done, order, Tables(), marked, byTenant)
        decreases todo
      {
        var k :| k in todo;
        marked, byTenant := MarkRow(c, k, marked, byTenant, start, done, order);
        todo, done, order := todo - {k}, done + {k}, order + [k];
      }
    }

    /** The discounting loop. */
    method DiscountRows(rows: set<ItemKey>, c: Clock)
      returns (discounted: nat, byTenant: map<Id, nat>, ghost order: seq<ItemKey>)
      requires c.phase.Discounting? && AllDue(cat, c, items, rows)
      modifies this
      ensures Halfway(old(Tables()), c, rows, order, Tables(), discounted, byTenant)
    {
      hide Halfway, Due;
      discounted, byTenant, order := 0, map[], [];
      ghost var start, done := Tables(), {};
      HalfwayStart(start, c);
      var todo := rows;
      while todo != {}
        invariant done + todo == rows && done !! todo
        invariant Halfway(start, c, done, order, Tables(), discounted, byTenant)
        decreases todo
      {
        var k :| k in todo;
        discounted, byTenant := DiscountRow(c, k, discounted, byTenant, start, done, order);
        todo, done, order := todo - {k}, done + {k}, order + [k];
      }
    }

    /** One turn of the marking loop. */
    method MarkRow(
        c: Clock, k: ItemKey, marked: nat, byTenant: map<Id, nat>,
        ghost start: State, ghost done: set<ItemKey>, ghost order: seq<ItemKey>)
      returns (more: nat, moreByTenant: map<Id, nat>)
      requires c.phase.Marking? && Halfway(start, c, done, order, Tables(), marked, byTenant)
      requires k in start.items && Due(start.cat, c, k, start.items[k]) && k !in done
      modifies this
      ensures Halfway(start, c, done + {k}, order + [k], Tables(), more, moreByTenant)
    {
      HalfwayNext(start, c, done, order, Tables(), marked, byTenant, k);
      var before := items[k];
      Store(c, k, before.(decayStatus := Liquidating, decayStarted := Some(c.now)));
      more := marked + 1;
      moreByTenant := byTenant[before.tenant := CountOf(byTenant, before.tenant) + 1];
    }

    /** One turn of the discounting loop. */
    method DiscountRow(
        c: Clock, k: ItemKey, discounted: nat, byTenant: map<Id, nat>,
        ghost start: State, ghost done: set<ItemKey>, ghost order: seq<ItemKey>)
      returns (more: nat, moreByTenant: map<Id, nat>)
      requires c.phase.Discounting? && Halfway(start, c, done, order, Tables(), discounted, byTenant)
      requires k in start.items && Due(start.cat, c, k, start.items[k]) && k !in done
      modifies this
      ensures Halfway(start, c, done + {k}, order + [k], Tables(), more, moreByTenant)
    {
      HalfwayNext(start, c, done, order, Tables(), discounted, byTenant, k);
      var before, variant := items[k], cat.variants[k.variant];
      var price := CalculateDecayPrice(before.price, variant.floorPrice, cat.settings.pct);
      Store(c, k, before.(price := price, decayStarted := Some(c.now)));
      more := discounted + 1;
      moreByTenant := byTenant[before.tenant := CountOf(byTenant, before.tenant) + 1];
    }

    /** Writes a decayed row and, when its tenant has an acting user, its audit row. */
    method Store(c: Clock, k: ItemKey, after: Item)
      requires k in items
      modifies this
      ensures items == old(items)[k := after] && audit == old(audit) + AuditFor(c, k, old(items)[k], after)
      ensures cat == old(cat) && transfers == old(transfers) && orders == old(orders)
    {
      var before := items[k];
      items := items[k := after];
      audit := audit + AuditFor(c, k, before, after);
    }
  }

  function CountsOf(byTenant: map<Id, Counts>, tenant: Id): Counts {
    if tenant in byTenant then byTenant[tenant] else Counts(0, 0)
  }
}
