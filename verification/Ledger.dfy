/**
  The stock ledger: rows, requests, and what one service call does to the committed tables when it runs
  alone (transfer_service, inventory_service, procurement_service, decay_service, catalog_service).

  A row is named by its unique key: an inventory item by (variant, warehouse), a transfer by
  (tenant, request_id), a purchase order by (tenant, po_number). Key columns never change and rows are
  never deleted, so the key stands for the generated uuid.
*/
module Ledger {
  import opened Wrappers
  import opened DecayPrice

  type Id = nat
  type Time = int
  /** Quantities that the request schemas bound below by one. */
  type Pos = n: int | n >= 1 witness 1

  datatype SettingsRow = Settings(startAge: Time, interval: Time, pct: Percent)
  type Settings = s: SettingsRow | s.startAge >= 1 && s.interval >= 1 witness Settings(1, 1, Pct(10, 1))

  datatype Variant = Variant(tenant: Id, sellingPrice: int, floorPrice: int)
  datatype Warehouse = Warehouse(tenant: Id, active: bool)
  datatype Supplier = Supplier(tenant: Id, active: bool)
  datatype Catalog = Catalog(
    settings: Settings, variants: map<Id, Variant>, warehouses: map<Id, Warehouse>, suppliers: map<Id, Supplier>)

  datatype ItemKey = ItemKey(variant: Id, warehouse: Id)
  datatype DecayStatus = Normal | Liquidating
  datatype Item = Item(
    tenant: Id, quantity: int, threshold: int, lastSold: Option<Time>,
    decayStatus: DecayStatus, decayStarted: Option<Time>, price: int)

  datatype TransferId = TransferId(tenant: Id, request: string)
  datatype TransferStatus = Pending | InTransit | Completed | Cancelled
  datatype Transfer = Transfer(
    source: Id, destination: Id, variant: Id, quantity: int, status: TransferStatus,
    initiatedBy: Id, confirmedBy: Option<Id>, createdAt: Time, completedAt: Option<Time>)

  datatype OrderId = OrderId(tenant: Id, number: string)
  datatype OrderStatus = Draft | Submitted | Confirmed | Received | Voided
  datatype Order = Order(
    supplier: Id, warehouse: Id, variant: Id, quantity: int, unitCost: int, status: OrderStatus, createdBy: Id,
    submittedAt: Option<Time>, confirmedAt: Option<Time>, receivedAt: Option<Time>, createdAt: Time)

  datatype Action =
    | StockAdjustment(reason: string)
    | TransferCreated | TransferSourceDebit
    | TransferCompleted | TransferDestinationCredit
    | TransferCancelled | TransferSourceRestore
    | OrderCreated | OrderSubmitted | OrderConfirmed | OrderReceived | OrderInventoryCredit | OrderCancelled
    | DecayMarked | DecayDiscounted

  /** Audit rows; an item row keeps the whole row before and after, as model_dump does. */
  datatype AuditRow =
    | ItemRow(tenant: Id, user: Id, action: Action, key: ItemKey, before: Item, after: Item, at: Time)
    | TransferRow(tenant: Id, user: Id, action: Action, transfer: TransferId, transferAfter: Transfer, at: Time)
    | DiscrepancyRow(tenant: Id, user: Id, transfer: TransferId, expected: int, received: int, at: Time)
    | OrderRow(tenant: Id, user: Id, action: Action, order: OrderId, orderBefore: Option<Order>, orderAfter: Order,
               at: Time)

  /** The committed tables; `audit` lists the audit rows in commit order. */
  datatype State = State(
    cat: Catalog, items: map<ItemKey, Item>, transfers: map<TransferId, Transfer>, orders: map<OrderId, Order>,
    audit: seq<AuditRow>)

  /** A field of a PATCH body: left out, explicitly null, or given. */
  datatype Patch = Unset | Null | Given(value: nat)

  /** Service calls. Mark and Discount are the per-row steps of a decay cycle; Sold is the environment's. */
  datatype Op =
    | Adjust(tenant: Id, user: Id, now: Time, key: ItemKey, delta: int, reason: string)
    | Create(tenant: Id, user: Id, now: Time, request: string, source: Id, destination: Id, variant: Id, quantity: Pos)
    | Confirm(tenant: Id, user: Id, now: Time, transfer: TransferId, received: Option<Pos>)
    | Cancel(tenant: Id, user: Id, now: Time, transfer: TransferId)
    | OrderCreate(tenant: Id, user: Id, now: Time, number: string, supplier: Id, warehouse: Id, variant: Id,
                  quantity: Pos, unitCost: nat)
    | OrderSubmit(tenant: Id, user: Id, now: Time, order: OrderId)
    | OrderConfirm(tenant: Id, user: Id, now: Time, order: OrderId)
    | OrderReceive(tenant: Id, user: Id, now: Time, order: OrderId, received: Option<Pos>)
    | OrderCancel(tenant: Id, user: Id, now: Time, order: OrderId)
    | Mark(tenant: Id, now: Time, key: ItemKey, auditUser: Option<Id>)
    | Discount(tenant: Id, now: Time, key: ItemKey, auditUser: Option<Id>)
    | Sold(tenant: Id, now: Time, key: ItemKey)
    | EditVariant(tenant: Id, variant: Id, selling: Patch, floor: Patch)
    | SetWarehouse(tenant: Id, warehouse: Id, active: bool)
    | SetSupplier(tenant: Id, supplier: Id, active: bool)

  datatype Error =
    | NotFound | InvalidTransfer | InsufficientStock | InvalidState | OverReceived | OrderConflict | InvalidPrice
    | UniqueViolation  // an IntegrityError that the service re-raises
    | Unhandled        // any other exception that becomes a server error
    | NotSelected      // a decay row step whose row does not match the cycle's filter

  datatype Reply =
    | Done
    | ItemReply(item: Item)
    | TransferReply(row: Transfer, created: bool)
    | OrderReply(order: Order)
    | Failed(error: Error)

  /** The rows a transaction writes at commit. */
  datatype Write = Write(
    items: map<ItemKey, Item>, transfers: map<TransferId, Transfer>, orders: map<OrderId, Order>, rows: seq<AuditRow>)

  datatype Outcome = Commit(write: Write, reply: Reply) | Stop(reply: Reply)

  function Install(s: State, w: Write): State {
    State(s.cat, s.items + w.items, s.transfers + w.transfers, s.orders + w.orders, s.audit + w.rows)
  }

  // ---- tenant-filtered reads -------------------------------------------------------------------------

  function FindVariant(cat: Catalog, tenant: Id, variant: Id): Option<Variant> {
    if variant in cat.variants && cat.variants[variant].tenant == tenant then Some(cat.variants[variant]) else None
  }

  predicate ActiveWarehouse(cat: Catalog, tenant: Id, warehouse: Id) {
    warehouse in cat.warehouses && cat.warehouses[warehouse].tenant == tenant && cat.warehouses[warehouse].active
  }

  predicate ActiveSupplier(cat: Catalog, tenant: Id, supplier: Id) {
    supplier in cat.suppliers && cat.suppliers[supplier].tenant == tenant && cat.suppliers[supplier].active
  }

  function FindItem(s: State, tenant: Id, key: ItemKey): Option<Item> {
    if key in s.items && s.items[key].tenant == tenant then Some(s.items[key]) else None
  }

  /** A row that is inserted on first use: quantity 0, the default threshold, the selling price. */
  function FreshItem(tenant: Id, variant: Variant): Item {
    Item(tenant, 0, 5, None, Normal, None, variant.sellingPrice)
  }

  // ---- stage 1: checks made before any lock ----------------------------------------------------------

  /** The reply with which a call ends before it takes a lock, if it does. */
  function Precheck(s: State, op: Op): Option<Reply> {
    match op
    case Adjust(t, _, _, key, _, _) =>
      if FindVariant(s.cat, t, key.variant).Some? && ActiveWarehouse(s.cat, t, key.warehouse) then None
      else Some(Failed(NotFound))
    case Create(t, _, _, request, source, destination, _, _) =>
      if source == destination then Some(Failed(InvalidTransfer))
      else if TransferId(t, request) in s.transfers then
        Some(TransferReply(s.transfers[TransferId(t, request)], false))
      else if CreateEntitiesExist(s.cat, op) then None
      else Some(Failed(NotFound))
    case OrderCreate(t, _, _, _, supplier, warehouse, variant, _, _) =>
      if ActiveSupplier(s.cat, t, supplier) && ActiveWarehouse(s.cat, t, warehouse)
         && FindVariant(s.cat, t, variant).Some? then None
      else Some(Failed(NotFound))
    case _ => None
  }

  predicate CreateEntitiesExist(cat: Catalog, op: Op)
    requires op.Create?
  {
    ActiveWarehouse(cat, op.tenant, op.source) && ActiveWarehouse(cat, op.tenant, op.destination)
    && FindVariant(cat, op.tenant, op.variant).Some?
  }

  // ---- stage 2: the transfer or order row, read under its lock ---------------------------------------

  datatype Doc = NoDoc | TransferDoc(transfer: Transfer) | OrderDoc(order: Order)

  predicate TakesTransfer(op: Op) { op.Confirm? || op.Cancel? }

  predicate TakesOrder(op: Op) { op.OrderSubmit? || op.OrderConfirm? || op.OrderReceive? || op.OrderCancel? }

  /** None when the tenant-filtered lookup finds no row; NoDoc for calls that take no such row. */
  function ReadDoc(s: State, op: Op): (d: Option<Doc>)
    ensures d.Some? ==> DocFits(op, d.value)
  {
    if TakesTransfer(op) then
      if op.transfer in s.transfers && op.transfer.tenant == op.tenant then Some(TransferDoc(s.transfers[op.transfer]))
      else None
    else if TakesOrder(op) then
      if op.order in s.orders && op.order.tenant == op.tenant then Some(OrderDoc(s.orders[op.order])) else None
    else Some(NoDoc)
  }

  predicate DocFits(op: Op, doc: Doc) {
    if TakesTransfer(op) then doc.TransferDoc? else if TakesOrder(op) then doc.OrderDoc? else doc.NoDoc?
  }

  function ReceivedQuantity(received: Option<Pos>, quantity: int): int {
    if received.Some? then received.value else quantity
  }

  /** The reply with which a call ends after reading its transfer or order row, if it does. */
  function CheckDoc(cat: Catalog, op: Op, doc: Doc): Option<Reply>
    requires DocFits(op, doc)
  {
    match op
    case Confirm(_, _, _, _, received) =>
      if !doc.transfer.status.InTransit? then Some(Failed(InvalidState))
      else if ReceivedQuantity(received, doc.transfer.quantity) > doc.transfer.quantity then Some(Failed(OverReceived))
      else None
    case Cancel(_, _, _, _) =>
      if !doc.transfer.status.InTransit? then Some(Failed(InvalidState)) else None
    case OrderSubmit(t, _, _, _) =>
      if !doc.order.status.Draft? then Some(Failed(InvalidState))
      else if ActiveSupplier(cat, t, doc.order.supplier) && ActiveWarehouse(cat, t, doc.order.warehouse)
              && FindVariant(cat, t, doc.order.variant).Some? then None
      else Some(Failed(NotFound))
    case OrderConfirm(_, _, _, _) =>
      if !doc.order.status.Submitted? then Some(Failed(InvalidState)) else None
    case OrderReceive(t, _, _, _, received) =>
      if !doc.order.status.Submitted? && !doc.order.status.Confirmed? then Some(Failed(InvalidState))
      else if ReceivedQuantity(received, doc.order.quantity) > doc.order.quantity then Some(Failed(OverReceived))
      else if FindVariant(cat, t, doc.order.variant).Some? && ActiveWarehouse(cat, t, doc.order.warehouse) then None
      else Some(Failed(NotFound))
    case OrderCancel(_, _, _, _) =>
      if doc.order.status.Received? then Some(Failed(InvalidState)) else None
    case _ => None
  }

  // ---- stage 3: the inventory row, read under its lock -----------------------------------------------

  /** The inventory row a call works on, if any. */
  function ItemOf(op: Op, doc: Doc): Option<ItemKey>
    requires DocFits(op, doc)
  {
    match op
    case Adjust(_, _, _, key, _, _) => Some(key)
    case Create(_, _, _, _, source, _, variant, _) => Some(ItemKey(variant, source))
    case Confirm(_, _, _, _, _) => Some(ItemKey(doc.transfer.variant, doc.transfer.destination))
    case Cancel(_, _, _, _) => Some(ItemKey(doc.transfer.variant, doc.transfer.source))
    case OrderReceive(_, _, _, _, _) => Some(ItemKey(doc.order.variant, doc.order.warehouse))
    case Mark(_, _, key, _) => Some(key)
    case Discount(_, _, key, _) => Some(key)
    case Sold(_, _, key) => Some(key)
    case _ => None
  }

  /** Calls that insert the inventory row when it is missing. */
  predicate InsertsItem(op: Op) { op.Adjust? || op.Confirm? || op.OrderReceive? }

  predicate MarkFilter(settings: Settings, now: Time, item: Item) {
    item.decayStatus.Normal? && item.lastSold.Some? && item.lastSold.value < now - settings.startAge
  }

  predicate DiscountFilter(settings: Settings, now: Time, item: Item) {
    item.decayStatus.Liquidating? && item.decayStarted.Some? && item.decayStarted.value <= now - settings.interval
  }

  function MarkItem(now: Time, item: Item): Item {
    item.(decayStatus := Liquidating, decayStarted := Some(now))
  }

  function DiscountItem(settings: Settings, now: Time, variant: Variant, item: Item): Item {
    item.(price := CalculateDecayPrice(item.price, variant.floorPrice, settings.pct), decayStarted := Some(now))
  }

  /** The reply with which a call ends after reading its inventory row, if it does. */
  function CheckItem(cat: Catalog, op: Op, doc: Doc, item: Option<Item>): Option<Reply>
    requires DocFits(op, doc) && ItemOf(op, doc).Some?
  {
    var variant := FindVariant(cat, op.tenant, ItemOf(op, doc).value.variant);
    match op
    case Adjust(_, _, _, _, delta, _) =>
      if variant.None? then Some(Failed(NotFound))
      else if (if item.Some? then item.value.quantity else 0) + delta < 0 then Some(Failed(InsufficientStock))
      else None
    case Create(_, _, _, _, _, _, _, quantity) =>
      if item.None? || item.value.quantity < quantity then Some(Failed(InsufficientStock)) else None
    case Mark(_, now, _, _) =>
      if item.Some? && MarkFilter(cat.settings, now, item.value) then None else Some(Failed(NotSelected))
    case Discount(_, now, _, _) =>
      if item.Some? && DiscountFilter(cat.settings, now, item.value) && variant.Some? then None
      else Some(Failed(NotSelected))
    case _ =>
      if InsertsItem(op) then
        if variant.None? then Some(Failed(Unhandled)) else None
      else if item.None? then Some(Failed(Unhandled))
      else None
  }

  // ---- stage 4: unique keys claimed by inserts -------------------------------------------------------

  /** The reply when an insert meets a committed row with its unique key, if it does. */
  function CheckInsert(s: State, op: Op, doc: Doc, item: Option<Item>): Option<Reply>
    requires DocFits(op, doc)
  {
    if op.OrderCreate? && OrderId(op.tenant, op.number) in s.orders then Some(Failed(OrderConflict))
    else if op.Create? && TransferId(op.tenant, op.request) in s.transfers then
      Some(TransferReply(s.transfers[TransferId(op.tenant, op.request)], false))
    else if InsertsItem(op) && item.None? && ItemOf(op, doc).value in s.items then Some(Failed(UniqueViolation))
    else None
  }

  // ---- stage 5: the writes ---------------------------------------------------------------------------

  function NewQuantity(op: Op, doc: Doc, quantity: int): int
    requires DocFits(op, doc)
  {
    match op
    case Adjust(_, _, _, _, delta, _) => quantity + delta
    case Create(_, _, _, _, _, _, _, n) => quantity - n
    case Confirm(_, _, _, _, received) => quantity + ReceivedQuantity(received, doc.transfer.quantity)
    case Cancel(_, _, _, _) => quantity + doc.transfer.quantity
    case OrderReceive(_, _, _, _, received) => quantity + ReceivedQuantity(received, doc.order.quantity)
    case _ => quantity
  }

  /** The inventory row as the call found it, or the fresh row it is about to insert. */
  function BeforeItem(cat: Catalog, op: Op, doc: Doc, item: Option<Item>): Item
    requires DocFits(op, doc) && ItemOf(op, doc).Some? && CheckItem(cat, op, doc, item).None?
  {
    if item.Some? then item.value
    else FreshItem(op.tenant, FindVariant(cat, op.tenant, ItemOf(op, doc).value.variant).value)
  }

  function AfterItem(cat: Catalog, op: Op, doc: Doc, item: Option<Item>): Item
    requires DocFits(op, doc) && ItemOf(op, doc).Some? && CheckItem(cat, op, doc, item).None?
  {
    var before := BeforeItem(cat, op, doc, item);
    match op
    case Mark(_, now, _, _) => MarkItem(now, before)
    case Discount(t, now, key, _) => DiscountItem(cat.settings, now, FindVariant(cat, t, key.variant).value, before)
    case Sold(_, now, _) => before.(lastSold := Some(now))
    case _ => before.(quantity := NewQuantity(op, doc, before.quantity))
  }

  function NewTransfer(op: Op): Transfer
    requires op.Create?
  {
    Transfer(op.source, op.destination, op.variant, op.quantity, InTransit, op.user, None, op.now, None)
  }

  function NewOrder(op: Op): Order
    requires op.OrderCreate?
  {
    Order(op.supplier, op.warehouse, op.variant, op.quantity, op.unitCost, Draft, op.user, None, None, None, op.now)
  }

  /** The transfer or order row after the call. */
  function AfterDoc(op: Op, doc: Doc): Doc
    requires DocFits(op, doc)
  {
    match op
    case Create(_, _, _, _, _, _, _, _) => TransferDoc(NewTransfer(op))
    case Confirm(_, user, now, _, _) =>
      TransferDoc(doc.transfer.(status := Completed, confirmedBy := Some(user), completedAt := Some(now)))
    case Cancel(_, _, now, _) => TransferDoc(doc.transfer.(status := Cancelled, completedAt := Some(now)))
    case OrderCreate(_, _, _, _, _, _, _, _, _) => OrderDoc(NewOrder(op))
    case OrderSubmit(_, _, now, _) => OrderDoc(doc.order.(status := Submitted, submittedAt := Some(now)))
    case OrderConfirm(_, _, now, _) => OrderDoc(doc.order.(status := Confirmed, confirmedAt := Some(now)))
    case OrderReceive(_, _, now, _, _) => OrderDoc(doc.order.(status := Received, receivedAt := Some(now)))
    case OrderCancel(_, _, _, _) => OrderDoc(doc.order.(status := Voided))
    case _ => NoDoc
  }

  /** The key of the transfer row a call writes. */
  function TransferKey(op: Op): TransferId
    requires op.Create? || TakesTransfer(op)
  {
    if op.Create? then TransferId(op.tenant, op.request) else op.transfer
  }

  /** The key of the order row a call writes. */
  function OrderKey(op: Op): OrderId
    requires op.OrderCreate? || TakesOrder(op)
  {
    if op.OrderCreate? then OrderId(op.tenant, op.number) else op.order
  }

  /** The audit row for the transfer or order row, if the call writes one. */
  function DocRows(op: Op, doc: Doc): seq<AuditRow>
    requires DocFits(op, doc)
  {
    var image := AfterDoc(op, doc);
    match op
    case Create(t, u, now, _, _, _, _, _) => [TransferRow(t, u, TransferCreated, TransferKey(op), image.transfer, now)]
    case Confirm(t, u, now, id, _) => [TransferRow(t, u, TransferCompleted, id, image.transfer, now)]
    case Cancel(t, u, now, id) => [TransferRow(t, u, TransferCancelled, id, image.transfer, now)]
    case OrderCreate(t, u, now, _, _, _, _, _, _) =>
      [OrderRow(t, u, OrderCreated, OrderKey(op), None, image.order, now)]
    case OrderSubmit(t, u, now, id) => [OrderRow(t, u, OrderSubmitted, id, Some(doc.order), image.order, now)]
    case OrderConfirm(t, u, now, id) => [OrderRow(t, u, OrderConfirmed, id, Some(doc.order), image.order, now)]
    case OrderReceive(t, u, now, id, _) => [OrderRow(t, u, OrderReceived, id, Some(doc.order), image.order, now)]
    case OrderCancel(t, u, now, id) => [OrderRow(t, u, OrderCancelled, id, Some(doc.order), image.order, now)]
    case _ => []
  }

  /** The audit row for the inventory row; a decay step without an acting user writes none. */
  function StockRows(op: Op, key: ItemKey, before: Item, after: Item): seq<AuditRow> {
    match op
    case Adjust(t, u, now, _, _, reason) => [ItemRow(t, u, StockAdjustment(reason), key, before, after, now)]
    case Create(t, u, now, _, _, _, _, _) => [ItemRow(t, u, TransferSourceDebit, key, before, after, now)]
    case Confirm(t, u, now, _, _) => [ItemRow(t, u, TransferDestinationCredit, key, before, after, now)]
    case Cancel(t, u, now, _) => [ItemRow(t, u, TransferSourceRestore, key, before, after, now)]
    case OrderReceive(t, u, now, _, _) => [ItemRow(t, u, OrderInventoryCredit, key, before, after, now)]
    case Mark(t, now, _, u) => if u.Some? then [ItemRow(t, u.value, DecayMarked, key, before, after, now)] else []
    case Discount(t, now, _, u) =>
      if u.Some? then [ItemRow(t, u.value, DecayDiscounted, key, before, after, now)] else []
    case _ => []
  }

  /** The discrepancy row of a transfer confirmed with fewer units than were sent. */
  function GapRows(op: Op, doc: Doc): seq<AuditRow>
    requires DocFits(op, doc)
  {
    if op.Confirm? && ReceivedQuantity(op.received, doc.transfer.quantity) != doc.transfer.quantity then
      [DiscrepancyRow(op.tenant, op.user, op.transfer, doc.transfer.quantity,
                      ReceivedQuantity(op.received, doc.transfer.quantity), op.now)]
    else []
  }

  /** The whole write of a call that passed every check. */
  function Effect(cat: Catalog, op: Op, doc: Doc, item: Option<Item>): Write
    requires DocFits(op, doc)
    requires ItemOf(op, doc).Some? ==> CheckItem(cat, op, doc, item).None?
  {
    var image := AfterDoc(op, doc);
    var transfers := if op.Create? || TakesTransfer(op) then map[TransferKey(op) := image.transfer] else map[];
    var orders := if op.OrderCreate? || TakesOrder(op) then map[OrderKey(op) := image.order] else map[];
    if ItemOf(op, doc).Some? then
      var key, before := ItemOf(op, doc).value, BeforeItem(cat, op, doc, item);
      var after := AfterItem(cat, op, doc, item);
      Write(map[key := after], transfers, orders,
            DocRows(op, doc) + StockRows(op, key, before, after) + GapRows(op, doc))
    else
      Write(map[], transfers, orders, DocRows(op, doc))
  }

  function ReplyOf(cat: Catalog, op: Op, doc: Doc, item: Option<Item>): Reply
    requires DocFits(op, doc)
    requires ItemOf(op, doc).Some? ==> CheckItem(cat, op, doc, item).None?
  {
    var image := AfterDoc(op, doc);
    if image.TransferDoc? then TransferReply(image.transfer, op.Create?)
    else if image.OrderDoc? then OrderReply(image.order)
    else if ItemOf(op, doc).Some? then ItemReply(AfterItem(cat, op, doc, item))
    else Done
  }

  predicate IsEdit(op: Op) { op.EditVariant? || op.SetWarehouse? || op.SetSupplier? }

  /** What a stock call decides when it runs alone on the committed tables. */
  function Decide(s: State, op: Op): Outcome
    requires !IsEdit(op)
  {
    if Precheck(s, op).Some? then Stop(Precheck(s, op).value)
    else if ReadDoc(s, op).None? then Stop(Failed(NotFound))
    else
      var doc := ReadDoc(s, op).value;
      if CheckDoc(s.cat, op, doc).Some? then Stop(CheckDoc(s.cat, op, doc).value)
      else
        var item := if ItemOf(op, doc).Some? then FindItem(s, op.tenant, ItemOf(op, doc).value) else None;
        if ItemOf(op, doc).Some? && CheckItem(s.cat, op, doc, item).Some? then
          Stop(CheckItem(s.cat, op, doc, item).value)
        else if CheckInsert(s, op, doc, item).Some? then Stop(CheckInsert(s, op, doc, item).value)
        else Commit(Effect(s.cat, op, doc, item), ReplyOf(s.cat, op, doc, item))
  }

  // ---- catalogue edits -------------------------------------------------------------------------------

  function Patched(patch: Patch, current: int): Option<int> {
    match patch
    case Unset => Some(current)
    case Null => None
    case Given(v) => Some(v)
  }

  /** update_product_variant, update_warehouse / deactivate_warehouse, update_supplier / deactivate_supplier. */
  function Edit(cat: Catalog, op: Op): (Catalog, Reply)
    requires IsEdit(op)
  {
    match op
    case EditVariant(t, variant, selling, floor) =>
      var row := FindVariant(cat, t, variant);
      if row.None? then (cat, Failed(NotFound))
      else
        var s, f := Patched(selling, row.value.sellingPrice), Patched(floor, row.value.floorPrice);
        if s.None? || f.None? then (cat, Failed(Unhandled))  // comparing None with a Decimal
        else if f.value > s.value then (cat, Failed(InvalidPrice))
        else (cat.(variants := cat.variants[variant :=
               row.value.(sellingPrice := s.value, floorPrice := f.value)]), Done)
    case SetWarehouse(t, warehouse, active) =>
      if warehouse in cat.warehouses && cat.warehouses[warehouse].tenant == t then
        (cat.(warehouses := cat.warehouses[warehouse := Warehouse(t, active)]), Done)
      else (cat, Failed(NotFound))
    case SetSupplier(t, supplier, active) =>
      if supplier in cat.suppliers && cat.suppliers[supplier].tenant == t then
        (cat.(suppliers := cat.suppliers[supplier := Supplier(t, active)]), Done)
      else (cat, Failed(NotFound))
  }

  // ---- runs ------------------------------------------------------------------------------------------

  /** One call, run alone and to completion. */
  function Apply(s: State, op: Op): (State, Reply) {
    if IsEdit(op) then var (cat, reply) := Edit(s.cat, op); (s.(cat := cat), reply)
    else
      match Decide(s, op)
      case Commit(w, reply) => (Install(s, w), reply)
      case Stop(reply) => (s, reply)
  }

  function Next(s: State, op: Op): State { Apply(s, op).0 }

  /** A serial run. */
  function Run(s: State, ops: seq<Op>): State {
    if ops == [] then s else Next(Run(s, ops[..|ops| - 1]), ops[|ops| - 1])
  }

  predicate Commits(s: State, op: Op) { !IsEdit(op) && Decide(s, op).Commit? }

  /** The transfer or order row that a committing call worked on. */
  function DocAt(s: State, op: Op): (doc: Doc)
    requires Commits(s, op)
    ensures DocFits(op, doc)
  {
    ReadDoc(s, op).value
  }

  /** The inventory row that a committing call found, if it looked for one. */
  function ItemAt(s: State, op: Op): Option<Item>
    requires Commits(s, op)
  {
    if ItemOf(op, DocAt(s, op)).Some? then FindItem(s, op.tenant, ItemOf(op, DocAt(s, op)).value) else None
  }

  /** A call that read `doc` and `item` and passed every check on them. */
  predicate Passed(s: State, op: Op, doc: Doc, item: Option<Item>) {
    && !IsEdit(op) && Precheck(s, op).None? && ReadDoc(s, op) == Some(doc) && CheckDoc(s.cat, op, doc).None?
    && item == (if ItemOf(op, doc).Some? then FindItem(s, op.tenant, ItemOf(op, doc).value) else None)
    && (ItemOf(op, doc).Some? ==> CheckItem(s.cat, op, doc, item).None?)
    && CheckInsert(s, op, doc, item).None?
  }

  /** A committing call passed every check and installs its write. */
  lemma {:induction false} CommitPassed(s: State, op: Op)
    requires Commits(s, op)
    ensures Passed(s, op, DocAt(s, op), ItemAt(s, op))
    ensures Next(s, op) == Install(s, Effect(s.cat, op, DocAt(s, op), ItemAt(s, op)))
  {
  }

  lemma {:induction false} PassedCommits(s: State, op: Op, doc: Doc, item: Option<Item>)
    requires Passed(s, op, doc, item)
    ensures Commits(s, op) && DocAt(s, op) == doc && ItemAt(s, op) == item
    ensures Decide(s, op) == Commit(Effect(s.cat, op, doc, item), ReplyOf(s.cat, op, doc, item))
  {
  }

  predicate IsDecayStep(op: Op) { op.Mark? || op.Discount? }

  /** What a decay row step makes of an inventory row; None when the row does not match the cycle's filter. */
  function DecayResult(cat: Catalog, op: Op, item: Item): Option<Item>
    requires IsDecayStep(op)
  {
    var variant := FindVariant(cat, op.tenant, op.key.variant);
    if item.tenant != op.tenant then None
    else if op.Mark? then
      if MarkFilter(cat.settings, op.now, item) then Some(MarkItem(op.now, item)) else None
    else if DiscountFilter(cat.settings, op.now, item) && variant.Some? then
      Some(DiscountItem(cat.settings, op.now, variant.value, item))
    else None
  }

  /** A decay row step touches its own row and the audit log, or nothing. */
  lemma {:induction false} DecayNext(s: State, op: Op)
    requires IsDecayStep(op) && op.key in s.items
    ensures var row := s.items[op.key]; var after := DecayResult(s.cat, op, row);
            && (Commits(s, op) <==> after.Some?)
            && Next(s, op) ==
               (if after.None? then s
                else s.(items := s.items[op.key := after.value],
                        audit := s.audit + StockRows(op, op.key, row, after.value)))
  {
    var item := FindItem(s, op.tenant, op.key);
    if item.Some? && CheckItem(s.cat, op, NoDoc, item).None? {
      PassedCommits(s, op, NoDoc, item);
      CommitPassed(s, op);
      DecayEffect(s.cat, op, item);
      var w := Effect(s.cat, op, NoDoc, item);
      assert s.items + w.items == s.items[op.key := AfterItem(s.cat, op, NoDoc, item)];
      assert s.transfers + map[] == s.transfers && s.orders + map[] == s.orders;
    }
  }

  predicate StepsOn(steps: seq<Op>, keys: set<ItemKey>) {
    forall i :: 0 <= i < |steps| ==> IsDecayStep(steps[i]) && steps[i].key in keys
  }

  lemma {:induction false} DecayEffect(cat: Catalog, op: Op, item: Option<Item>)
    requires IsDecayStep(op) && item.Some? && CheckItem(cat, op, NoDoc, item).None?
    ensures var after := AfterItem(cat, op, NoDoc, item);
            Effect(cat, op, NoDoc, item)
            == Write(map[op.key := after], map[], map[], StockRows(op, op.key, item.value, after))
  {
  }

  lemma {:induction false} RunAppend(s: State, ops: seq<Op>, more: seq<Op>)
    ensures Run(s, ops + more) == Run(Run(s, ops), more)
  {
    if more == [] {
      assert ops + more == ops;
    } else {
      var all := ops + more;
      assert all[..|all| - 1] == ops + more[..|more| - 1];
      RunAppend(s, ops, more[..|more| - 1]);
    }
  }

  lemma RunSnoc(s: State, ops: seq<Op>, op: Op)
    ensures Run(s, ops + [op]) == Next(Run(s, ops), op)
  {
    assert (ops + [op])[..|ops|] == ops;
  }

  lemma RunOne(s: State, op: Op)
    ensures Run(s, [op]) == Next(s, op)
  {
    assert [op][..0] == [];
  }

  // ---- writing one row and its audit rows ---------------------------------------------------------------

  lemma PutItem(m: map<ItemKey, Item>, k: ItemKey, v: Item)
    ensures m + map[k := v] == m[k := v]
  {
  }

  lemma PutTransfer(m: map<TransferId, Transfer>, k: TransferId, v: Transfer)
    ensures m + map[k := v] == m[k := v]
  {
  }

  lemma PutOrder(m: map<OrderId, Order>, k: OrderId, v: Order)
    ensures m + map[k := v] == m[k := v]
  {
  }

  lemma Joined(log: seq<AuditRow>, docRows: seq<AuditRow>, stock: seq<AuditRow>, gap: seq<AuditRow>)
    ensures log + docRows + stock + gap == log + (docRows + stock + gap)
    ensures gap == [] ==> log + docRows + stock == log + (docRows + stock + gap)
    ensures docRows == [] ==> log + stock + gap == log + (docRows + stock + gap)
    ensures docRows == [] && gap == [] ==> log + stock == log + (docRows + stock + gap)
  {
  }

  lemma PutNothing(s: State)
    ensures s.items + map[] == s.items && s.transfers + map[] == s.transfers && s.orders + map[] == s.orders
  {
  }
}
