/**
  What every call does, said of the tables alone: when it commits, exactly which rows and audit rows it then
  leaves, and with which error it is refused otherwise. Nothing here uses the stages of Ledger.
*/
module Promises {
  import opened Wrappers
  import opened DecayPrice
  import opened Ledger
  import opened LedgerInvariant

  predicate HasVariant(cat: Catalog, t: Id, v: Id) { v in cat.variants && cat.variants[v].tenant == t }

  predicate IsOpen(cat: Catalog, t: Id, w: Id) {
    w in cat.warehouses && cat.warehouses[w].tenant == t && cat.warehouses[w].active
  }

  predicate Supplies(cat: Catalog, t: Id, x: Id) {
    x in cat.suppliers && cat.suppliers[x].tenant == t && cat.suppliers[x].active
  }

  /** The stored row, or the one that is inserted: no units, threshold 5, never sold, the selling price. */
  function RowFor(s: State, t: Id, k: ItemKey): Item
    requires k !in s.items ==> k.variant in s.cat.variants
  {
    if k in s.items then s.items[k] else Item(t, 0, 5, None, Normal, None, s.cat.variants[k.variant].sellingPrice)
  }

  function Units(s: State, k: ItemKey): int { if k in s.items then s.items[k].quantity else 0 }

  // ---- inventory -------------------------------------------------------------------------------------

  /** An adjustment is refused for an unknown variant or a closed warehouse, and when too few units are there. */
  lemma {:induction false} AdjustmentPromise(s: State, t: Id, u: Id, now: Time, k: ItemKey, delta: int, reason: string)
    requires Inv(s)
    ensures Apply(s, Adjust(t, u, now, k, delta, reason)) ==
            if !HasVariant(s.cat, t, k.variant) || !IsOpen(s.cat, t, k.warehouse) then (s, Failed(NotFound))
            else if Units(s, k) + delta < 0 then (s, Failed(InsufficientStock))
            else
              var before := RowFor(s, t, k);
              var after := before.(quantity := before.quantity + delta);
              (s.(items := s.items[k := after],
                  audit := s.audit + [ItemRow(t, u, StockAdjustment(reason), k, before, after, now)]),
               ItemReply(after))
  {
    if HasVariant(s.cat, t, k.variant) && IsOpen(s.cat, t, k.warehouse) {
      RowIsTenants(s, t, k);
      var before := RowFor(s, t, k);
      var after := before.(quantity := before.quantity + delta);
      PutItem(s.items, k, after);
      PutNothing(s);
      Joined(s.audit, [], [ItemRow(t, u, StockAdjustment(reason), k, before, after, now)], []);
    }
  }

  lemma {:induction false} RowIsTenants(s: State, t: Id, k: ItemKey)
    requires Inv(s) && HasVariant(s.cat, t, k.variant)
    ensures k in s.items ==> s.items[k].tenant == t
  {
    if k in s.items { assert ItemOk(s.cat, k, s.items[k]); }
  }

  // ---- transfers -------------------------------------------------------------------------------------

  /**
    A creation returns a stored request as it is. Otherwise it commits if and only if both warehouses are open, the
    variant is the tenant's and the source row holds enough; it takes exactly the quantity from that row.
  */
  lemma {:induction false} CreationPromise(
      s: State, t: Id, u: Id, now: Time, request: string, source: Id, destination: Id, v: Id, n: Pos)
    requires Inv(s)
    ensures var id, k := TransferId(t, request), ItemKey(v, source);
            Apply(s, Create(t, u, now, request, source, destination, v, n)) ==
            if source == destination then (s, Failed(InvalidTransfer))
            else if id in s.transfers then (s, TransferReply(s.transfers[id], false))
            else if !IsOpen(s.cat, t, source) || !IsOpen(s.cat, t, destination) || !HasVariant(s.cat, t, v) then
              (s, Failed(NotFound))
            else if Units(s, k) < n then (s, Failed(InsufficientStock))
            else
              var row := Transfer(source, destination, v, n, InTransit, u, None, now, None);
              var before := RowFor(s, t, k);
              var after := before.(quantity := before.quantity - n);
              (s.(items := s.items[k := after], transfers := s.transfers[id := row],
                  audit := s.audit + [TransferRow(t, u, TransferCreated, id, row, now)]
                           + [ItemRow(t, u, TransferSourceDebit, k, before, after, now)]),
               TransferReply(row, true))
  {
    var id, k := TransferId(t, request), ItemKey(v, source);
    if HasVariant(s.cat, t, v) {
      RowIsTenants(s, t, k);
      var row := Transfer(source, destination, v, n, InTransit, u, None, now, None);
      var before := RowFor(s, t, k);
      var after := before.(quantity := before.quantity - n);
      PutItem(s.items, k, after);
      PutTransfer(s.transfers, id, row);
      PutNothing(s);
      Joined(s.audit, [TransferRow(t, u, TransferCreated, id, row, now)],
             [ItemRow(t, u, TransferSourceDebit, k, before, after, now)], []);
    }
  }

  /**
    A confirmation commits if and only if the tenant's transfer is in transit and at most its quantity is received. It
    credits exactly the units received, and reports the missing ones if and only if some are missing.
  */
  lemma {:induction false} ConfirmationPromise(s: State, t: Id, u: Id, now: Time, id: TransferId, received: Option<Pos>)
    requires Inv(s)
    ensures Apply(s, Confirm(t, u, now, id, received)) ==
            if id !in s.transfers || id.tenant != t then (s, Failed(NotFound))
            else
              var row := s.transfers[id];
              var n := if received.Some? then received.value else row.quantity;
              var k := ItemKey(row.variant, row.destination);
              if row.status != InTransit then (s, Failed(InvalidState))
              else if n > row.quantity then (s, Failed(OverReceived))
              else
                assert TransferOk(s.cat, id, row);
                var before := RowFor(s, t, k);
                var after := before.(quantity := before.quantity + n);
                var done := row.(status := Completed, confirmedBy := Some(u), completedAt := Some(now));
                (s.(items := s.items[k := after], transfers := s.transfers[id := done],
                    audit := s.audit
                             + [TransferRow(t, u, TransferCompleted, id, done, now)]
                             + [ItemRow(t, u, TransferDestinationCredit, k, before, after, now)]
                             + if n < row.quantity then [DiscrepancyRow(t, u, id, row.quantity, n, now)] else []),
                 TransferReply(done, false))
  {
    if id in s.transfers && id.tenant == t {
      var row := s.transfers[id];
      assert TransferOk(s.cat, id, row);
      var n := if received.Some? then received.value else row.quantity;
      var k := ItemKey(row.variant, row.destination);
      RowIsTenants(s, t, k);
      var before := RowFor(s, t, k);
      var after := before.(quantity := before.quantity + n);
      var done := row.(status := Completed, confirmedBy := Some(u), completedAt := Some(now));
      PutItem(s.items, k, after);
      PutTransfer(s.transfers, id, done);
      PutNothing(s);
      Joined(s.audit, [TransferRow(t, u, TransferCompleted, id, done, now)],
             [ItemRow(t, u, TransferDestinationCredit, k, before, after, now)],
             if n < row.quantity then [DiscrepancyRow(t, u, id, row.quantity, n, now)] else []);
    }
  }

  /** A cancellation commits if and only if the tenant's transfer is in transit; the source row gets all units back. */
  lemma {:induction false} CancellationPromise(s: State, t: Id, u: Id, now: Time, id: TransferId)
    requires Inv(s)
    ensures Apply(s, Cancel(t, u, now, id)) ==
            if id !in s.transfers || id.tenant != t then (s, Failed(NotFound))
            else
              var row := s.transfers[id];
              var k := ItemKey(row.variant, row.source);
              if row.status != InTransit then (s, Failed(InvalidState))
              else
                assert TransferOk(s.cat, id, row);
                var before := s.items[k];
                var after := before.(quantity := before.quantity + row.quantity);
                var done := row.(status := Cancelled, completedAt := Some(now));
                (s.(items := s.items[k := after], transfers := s.transfers[id := done],
                    audit := s.audit + [TransferRow(t, u, TransferCancelled, id, done, now)]
                             + [ItemRow(t, u, TransferSourceRestore, k, before, after, now)]),
                 TransferReply(done, false))
  {
    if id in s.transfers && id.tenant == t {
      var row := s.transfers[id];
      assert TransferOk(s.cat, id, row);
      var k := ItemKey(row.variant, row.source);
      RowIsTenants(s, t, k);
      var before := s.items[k];
      var after := before.(quantity := before.quantity + row.quantity);
      var done := row.(status := Cancelled, completedAt := Some(now));
      PutItem(s.items, k, after);
      PutTransfer(s.transfers, id, done);
      PutNothing(s);
      Joined(s.audit, [TransferRow(t, u, TransferCancelled, id, done, now)],
             [ItemRow(t, u, TransferSourceRestore, k, before, after, now)], []);
    }
  }

  // ---- purchase orders -------------------------------------------------------------------------------

  /** An order is stored as a draft if and only if its three parties are there and its number is new to the tenant. */
  lemma {:induction false} OrderingPromise(
      s: State, t: Id, u: Id, now: Time, number: string, x: Id, w: Id, v: Id, n: Pos, cost: nat)
    ensures var id := OrderId(t, number);
            Apply(s, OrderCreate(t, u, now, number, x, w, v, n, cost)) ==
            if !Supplies(s.cat, t, x) || !IsOpen(s.cat, t, w) || !HasVariant(s.cat, t, v) then (s, Failed(NotFound))
            else if id in s.orders then (s, Failed(OrderConflict))
            else
              var row := Order(x, w, v, n, cost, Draft, u, None, None, None, now);
              (s.(orders := s.orders[id := row], audit := s.audit + [OrderRow(t, u, OrderCreated, id, None, row, now)]),
               OrderReply(row))
  {
    PutOrder(s.orders, OrderId(t, number), Order(x, w, v, n, cost, Draft, u, None, None, None, now));
    PutNothing(s);
  }

  /** A submission commits if and only if the tenant's order is a draft whose three parties are still there. */
  lemma {:induction false} SubmissionPromise(s: State, t: Id, u: Id, now: Time, id: OrderId)
    ensures Apply(s, OrderSubmit(t, u, now, id)) ==
            if id !in s.orders || id.tenant != t then (s, Failed(NotFound))
            else
              var row := s.orders[id];
              if row.status != Draft then (s, Failed(InvalidState))
              else if !Supplies(s.cat, t, row.supplier) || !IsOpen(s.cat, t, row.warehouse)
                      || !HasVariant(s.cat, t, row.variant) then (s, Failed(NotFound))
              else Recorded(s, t, u, now, id, OrderSubmitted, row.(status := Submitted, submittedAt := Some(now)))
  {
    if id in s.orders { PutOrder(s.orders, id, s.orders[id].(status := Submitted, submittedAt := Some(now))); }
    PutNothing(s);
  }

  /** The order row replaced, with one audit row. */
  function Recorded(s: State, t: Id, u: Id, now: Time, id: OrderId, action: Action, row: Order): (State, Reply)
    requires id in s.orders
  {
    (s.(orders := s.orders[id := row],
        audit := s.audit + [OrderRow(t, u, action, id, Some(s.orders[id]), row, now)]),
     OrderReply(row))
  }

  /** A confirmation of an order commits if and only if the tenant's order is submitted. */
  lemma {:induction false} OrderConfirmationPromise(s: State, t: Id, u: Id, now: Time, id: OrderId)
    ensures Apply(s, OrderConfirm(t, u, now, id)) ==
            if id !in s.orders || id.tenant != t then (s, Failed(NotFound))
            else if s.orders[id].status != Submitted then (s, Failed(InvalidState))
            else
              Recorded(s, t, u, now, id, OrderConfirmed, s.orders[id].(status := Confirmed, confirmedAt := Some(now)))
  {
    if id in s.orders { PutOrder(s.orders, id, s.orders[id].(status := Confirmed, confirmedAt := Some(now))); }
    PutNothing(s);
  }

  /** A cancellation of an order commits if and only if the tenant's order is not received. */
  lemma {:induction false} OrderCancellationPromise(s: State, t: Id, u: Id, now: Time, id: OrderId)
    ensures Apply(s, OrderCancel(t, u, now, id)) ==
            if id !in s.orders || id.tenant != t then (s, Failed(NotFound))
            else if s.orders[id].status == Received then (s, Failed(InvalidState))
            else Recorded(s, t, u, now, id, OrderCancelled, s.orders[id].(status := Voided))
  {
    if id in s.orders { PutOrder(s.orders, id, s.orders[id].(status := Voided)); }
    PutNothing(s);
  }

  /**
    A receipt commits if and only if the tenant's order is submitted or confirmed, at most its quantity is received and
    its warehouse is open; the variant is always there. It credits exactly the units received.
  */
  lemma {:induction false} ReceiptPromise(s: State, t: Id, u: Id, now: Time, id: OrderId, received: Option<Pos>)
    requires Inv(s)
    ensures Apply(s, OrderReceive(t, u, now, id, received)) ==
            if id !in s.orders || id.tenant != t then (s, Failed(NotFound))
            else
              var row := s.orders[id];
              var n := if received.Some? then received.value else row.quantity;
              var k := ItemKey(row.variant, row.warehouse);
              if row.status != Submitted && row.status != Confirmed then (s, Failed(InvalidState))
              else if n > row.quantity then (s, Failed(OverReceived))
              else if !IsOpen(s.cat, t, row.warehouse) then (s, Failed(NotFound))
              else
                assert OrderOk(s.cat, id, row);
                var before := RowFor(s, t, k);
                var after := before.(quantity := before.quantity + n);
                var done := row.(status := Received, receivedAt := Some(now));
                (s.(items := s.items[k := after], orders := s.orders[id := done],
                    audit := s.audit + [OrderRow(t, u, OrderReceived, id, Some(row), done, now)]
                             + [ItemRow(t, u, OrderInventoryCredit, k, before, after, now)]),
                 OrderReply(done))
  {
    if id in s.orders && id.tenant == t {
      var row := s.orders[id];
      assert OrderOk(s.cat, id, row);
      var n := if received.Some? then received.value else row.quantity;
      var k := ItemKey(row.variant, row.warehouse);
      RowIsTenants(s, t, k);
      var before := RowFor(s, t, k);
      var after := before.(quantity := before.quantity + n);
      var done := row.(status := Received, receivedAt := Some(now));
      PutItem(s.items, k, after);
      PutOrder(s.orders, id, done);
      PutNothing(s);
      Joined(s.audit, [OrderRow(t, u, OrderReceived, id, Some(row), done, now)],
             [ItemRow(t, u, OrderInventoryCredit, k, before, after, now)], []);
    }
  }

  // ---- catalogue -------------------------------------------------------------------------------------

  /** The value a PATCH field leaves, if it is not null. */
  function Left(patch: Patch, current: int): int { if patch.Given? then patch.value else current }

  /** An edit goes through if and only if the tenant has the variant, no price is null and floor <= selling price. */
  lemma {:induction false} VariantEditPromise(s: State, t: Id, v: Id, selling: Patch, floor: Patch)
    ensures Apply(s, EditVariant(t, v, selling, floor)) ==
            if !HasVariant(s.cat, t, v) then (s, Failed(NotFound))
            else
              var row := s.cat.variants[v];
              var top, low := Left(selling, row.sellingPrice), Left(floor, row.floorPrice);
              if selling == Null || floor == Null then (s, Failed(Unhandled))
              else if low > top then (s, Failed(InvalidPrice))
              else (s.(cat := s.cat.(variants := s.cat.variants[v := Variant(t, top, low)])), Done)
  {
  }

  /** Opening or closing a warehouse or a supplier changes its own row of the tenant and nothing else. */
  lemma {:induction false} ActivityPromise(s: State, t: Id, w: Id, active: bool)
    ensures Apply(s, SetWarehouse(t, w, active)) ==
            if w in s.cat.warehouses && s.cat.warehouses[w].tenant == t then
              (s.(cat := s.cat.(warehouses := s.cat.warehouses[w := Warehouse(t, active)])), Done)
            else (s, Failed(NotFound))
    ensures Apply(s, SetSupplier(t, w, active)) ==
            if w in s.cat.suppliers && s.cat.suppliers[w].tenant == t then
              (s.(cat := s.cat.(suppliers := s.cat.suppliers[w := Supplier(t, active)])), Done)
            else (s, Failed(NotFound))
  {
  }

  // ---- decay row steps -------------------------------------------------------------------------------

  /** A row is marked if and only if it is normal and was last sold more than the start age ago. */
  lemma {:induction false} MarkPromise(s: State, t: Id, now: Time, k: ItemKey, user: Option<Id>)
    ensures Apply(s, Mark(t, now, k, user)) ==
            if k in s.items && s.items[k].tenant == t && s.items[k].decayStatus == Normal
               && s.items[k].lastSold.Some? && now - s.items[k].lastSold.value > s.cat.settings.startAge then
              var after := s.items[k].(decayStatus := Liquidating, decayStarted := Some(now));
              var rows := if user.Some? then [ItemRow(t, user.value, DecayMarked, k, s.items[k], after, now)] else [];
              (s.(items := s.items[k := after], audit := s.audit + rows), ItemReply(after))
            else (s, Failed(NotSelected))
  {
    if k in s.items { DecayNext(s, Mark(t, now, k, user)); }
  }

  /** A row is discounted if and only if it is liquidating and its last stamp is at least an interval old. */
  lemma {:induction false} DiscountPromise(s: State, t: Id, now: Time, k: ItemKey, user: Option<Id>)
    requires Inv(s)
    ensures Apply(s, Discount(t, now, k, user)) ==
            if k in s.items && s.items[k].tenant == t && s.items[k].decayStatus == Liquidating
               && s.items[k].decayStarted.Some? && now - s.items[k].decayStarted.value >= s.cat.settings.interval then
              assert ItemOk(s.cat, k, s.items[k]);
              var row, floor := s.items[k], s.cat.variants[k.variant].floorPrice;
              var price := CalculateDecayPrice(row.price, floor, s.cat.settings.pct);
              var after := row.(price := price, decayStarted := Some(now));
              var rows := if user.Some? then [ItemRow(t, user.value, DecayDiscounted, k, row, after, now)] else [];
              (s.(items := s.items[k := after], audit := s.audit + rows), ItemReply(after))
            else (s, Failed(NotSelected))
  {
    if k in s.items {
      assert ItemOk(s.cat, k, s.items[k]);
      DecayNext(s, Discount(t, now, k, user));
    }
  }

  // ---- when calls commit -----------------------------------------------------------------------------

  lemma {:induction false} AdjustmentCommitsIff(
      s: State, t: Id, u: Id, now: Time, k: ItemKey, delta: int, reason: string)
    requires Inv(s)
    ensures Commits(s, Adjust(t, u, now, k, delta, reason))
            <==> HasVariant(s.cat, t, k.variant) && IsOpen(s.cat, t, k.warehouse) && Units(s, k) + delta >= 0
  {
    AdjustmentPromise(s, t, u, now, k, delta, reason);
    CommitReplies(s, Adjust(t, u, now, k, delta, reason));
  }

  lemma {:induction false} TransferCallsCommitIff(
      s: State, t: Id, u: Id, now: Time, id: TransferId, received: Option<Pos>)
    requires Inv(s)
    ensures Commits(s, Confirm(t, u, now, id, received))
            <==> id in s.transfers && id.tenant == t && s.transfers[id].status == InTransit
                 && (received.Some? ==> received.value <= s.transfers[id].quantity)
    ensures Commits(s, Cancel(t, u, now, id))
            <==> id in s.transfers && id.tenant == t && s.transfers[id].status == InTransit
  {
    ConfirmationPromise(s, t, u, now, id, received);
    CommitReplies(s, Confirm(t, u, now, id, received));
    CancellationPromise(s, t, u, now, id);
    CommitReplies(s, Cancel(t, u, now, id));
  }

  lemma {:induction false} OrderCallsCommitIff(s: State, t: Id, u: Id, now: Time, id: OrderId, received: Option<Pos>)
    requires Inv(s)
    ensures Commits(s, OrderReceive(t, u, now, id, received))
            <==> id in s.orders && id.tenant == t && s.orders[id].status in {Submitted, Confirmed}
                 && (received.Some? ==> received.value <= s.orders[id].quantity)
                 && IsOpen(s.cat, t, s.orders[id].warehouse)
    ensures Commits(s, OrderSubmit(t, u, now, id))
            <==> id in s.orders && id.tenant == t && s.orders[id].status == Draft
                 && Supplies(s.cat, t, s.orders[id].supplier) && IsOpen(s.cat, t, s.orders[id].warehouse)
    ensures Commits(s, OrderConfirm(t, u, now, id))
            <==> id in s.orders && id.tenant == t && s.orders[id].status == Submitted
    ensures Commits(s, OrderCancel(t, u, now, id))
            <==> id in s.orders && id.tenant == t && s.orders[id].status != Received
  {
    hide Commits;
    if id in s.orders { assert OrderOk(s.cat, id, s.orders[id]); }
    ReceiptPromise(s, t, u, now, id, received);
    CommitReplies(s, OrderReceive(t, u, now, id, received));
    SubmissionPromise(s, t, u, now, id);
    CommitReplies(s, OrderSubmit(t, u, now, id));
    OrderConfirmationPromise(s, t, u, now, id);
    CommitReplies(s, OrderConfirm(t, u, now, id));
    OrderCancellationPromise(s, t, u, now, id);
    CommitReplies(s, OrderCancel(t, u, now, id));
  }

  /** A stock call other than a repeated creation commits if and only if its reply is no failure. */
  lemma {:induction false} CommitReplies(s: State, op: Op)
    requires !IsEdit(op) && !op.Create?
    ensures Commits(s, op) <==> !Apply(s, op).1.Failed?
  {
  }
}
