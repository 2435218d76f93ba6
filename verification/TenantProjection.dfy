/** Tenant isolation: a tenant's rows and replies are those of a run in which nobody else exists. */
module TenantProjection {
  import opened Wrappers
  import opened Ledger
  import opened LedgerInvariant

  /** The part of the catalogue that belongs to tenant a. */
  function CatalogOf(cat: Catalog, a: Id): Catalog {
    Catalog(
      cat.settings,
      map v | v in cat.variants && cat.variants[v].tenant == a :: cat.variants[v],
      map w | w in cat.warehouses && cat.warehouses[w].tenant == a :: cat.warehouses[w],
      map s | s in cat.suppliers && cat.suppliers[s].tenant == a :: cat.suppliers[s])
  }

  function RowsOf(log: seq<AuditRow>, a: Id): seq<AuditRow> {
    if log == [] then []
    else RowsOf(log[..|log| - 1], a) + if log[|log| - 1].tenant == a then [log[|log| - 1]] else []
  }

  function ItemsOf(items: map<ItemKey, Item>, a: Id): map<ItemKey, Item> {
    map k | k in items && items[k].tenant == a :: items[k]
  }

  function TransfersOf(transfers: map<TransferId, Transfer>, a: Id): map<TransferId, Transfer> {
    map id | id in transfers && id.tenant == a :: transfers[id]
  }

  function OrdersOf(orders: map<OrderId, Order>, a: Id): map<OrderId, Order> {
    map id | id in orders && id.tenant == a :: orders[id]
  }

  /** Everything that belongs to tenant a, and nothing else. */
  function Project(s: State, a: Id): State {
    State(CatalogOf(s.cat, a), ItemsOf(s.items, a), TransfersOf(s.transfers, a),
          OrdersOf(s.orders, a), RowsOf(s.audit, a))
  }

  function OpsOf(ops: seq<Op>, a: Id): seq<Op> {
    if ops == [] then []
    else OpsOf(ops[..|ops| - 1], a) + if ops[|ops| - 1].tenant == a then [ops[|ops| - 1]] else []
  }

  /** The replies given to tenant a along a run. */
  function RepliesTo(s: State, ops: seq<Op>, a: Id): seq<Reply> {
    if ops == [] then []
    else
      var prefix, op := ops[..|ops| - 1], ops[|ops| - 1];
      RepliesTo(s, prefix, a) + if op.tenant == a then [Apply(Run(s, prefix), op).1] else []
  }

  /**
    Tenant projection: deleting the other tenants' calls, and even all their rows, leaves tenant a's rows,
    audit rows and replies exactly as they were.
  */
  lemma {:induction false} OtherTenantsDoNotMatter(s: State, ops: seq<Op>, a: Id)
    requires Inv(s)
    ensures Run(Project(s, a), OpsOf(ops, a)) == Project(Run(s, ops), a)
    ensures RepliesTo(Project(s, a), OpsOf(ops, a), a) == RepliesTo(s, ops, a)
  {
    if ops != [] {
      var prefix, op := ops[..|ops| - 1], ops[|ops| - 1];
      OtherTenantsDoNotMatter(s, prefix, a);
      RunKeepsInv(s, prefix);
      var mid := Run(s, prefix);
      if op.tenant == a {
        var own := OpsOf(prefix, a) + [op];
        assert own[..|own| - 1] == OpsOf(prefix, a);
        OwnCallProjects(mid, op, a);
      } else {
        assert OpsOf(ops, a) == OpsOf(prefix, a);
        OtherCallIsInvisible(mid, op, a);
      }
    }
  }

  // ---- a call of the tenant itself -------------------------------------------------------------------

  lemma {:induction false} OwnCallProjects(s: State, op: Op, a: Id)
    requires Inv(s) && op.tenant == a
    ensures Next(Project(s, a), op) == Project(Next(s, op), a)
    ensures Apply(Project(s, a), op).1 == Apply(s, op).1
  {
    if IsEdit(op) {
      OwnEditProjects(s.cat, op, a);
    } else {
      OwnDecisionProjects(s, op, a);
      match Decide(s, op)
      case Stop(_) =>
      case Commit(w, _) =>
        CommitBelongs(s, op);
        InstallProjects(s, w, a);
    }
  }

  lemma {:induction false} CommitBelongs(s: State, op: Op)
    requires Inv(s) && Commits(s, op)
    ensures Belongs(s, Decide(s, op).write, op.tenant)
  {
    CommitPassed(s, op);
    EffectBelongsTo(s, op, DocAt(s, op), ItemAt(s, op), op.tenant);
  }

  lemma {:induction false} OwnEditProjects(cat: Catalog, op: Op, a: Id)
    requires IsEdit(op) && op.tenant == a
    ensures Edit(CatalogOf(cat, a), op) == (CatalogOf(Edit(cat, op).0, a), Edit(cat, op).1)
  {
    var small, after := CatalogOf(cat, a), Edit(cat, op).0;
    if Edit(cat, op).1.Done? {
      match op
      case EditVariant(_, v, _, _) =>
        assert CatalogOf(after, a).variants == small.variants[v := after.variants[v]];
      case SetWarehouse(_, w, _) =>
        assert CatalogOf(after, a).warehouses == small.warehouses[w := after.warehouses[w]];
      case SetSupplier(_, x, _) =>
        assert CatalogOf(after, a).suppliers == small.suppliers[x := after.suppliers[x]];
    }
  }

  /** The tenant-filtered reads see the same in the projection. */
  lemma {:induction false} ReadsProject(s: State, a: Id)
    ensures forall v :: FindVariant(CatalogOf(s.cat, a), a, v) == FindVariant(s.cat, a, v)
    ensures forall w :: ActiveWarehouse(CatalogOf(s.cat, a), a, w) == ActiveWarehouse(s.cat, a, w)
    ensures forall x :: ActiveSupplier(CatalogOf(s.cat, a), a, x) == ActiveSupplier(s.cat, a, x)
    ensures forall k :: FindItem(Project(s, a), a, k) == FindItem(s, a, k)
  {
  }

  lemma {:induction false} OwnDecisionProjects(s: State, op: Op, a: Id)
    requires Inv(s) && !IsEdit(op) && op.tenant == a
    ensures Decide(Project(s, a), op) == Decide(s, op)
  {
    PrecheckProjects(s, op, a);
    if Precheck(s, op).None? && ReadDoc(s, op).Some? {
      var doc := ReadDoc(s, op).value;
      CheckDocProjects(s, op, doc, a);
      if CheckDoc(s.cat, op, doc).None? {
        RowStageProjects(s, op, doc, a);
        EffectProjects(s, op, doc, a);
      }
    }
  }

  lemma {:induction false} PrecheckProjects(s: State, op: Op, a: Id)
    requires op.tenant == a
    ensures Precheck(Project(s, a), op) == Precheck(s, op)
    ensures ReadDoc(Project(s, a), op) == ReadDoc(s, op)
  {
    ReadsProject(s, a);
  }

  lemma {:induction false} CheckDocProjects(s: State, op: Op, doc: Doc, a: Id)
    requires op.tenant == a && DocFits(op, doc)
    ensures CheckDoc(CatalogOf(s.cat, a), op, doc) == CheckDoc(s.cat, op, doc)
  {
    ReadsProject(s, a);
  }

  lemma {:induction false} RowStageProjects(s: State, op: Op, doc: Doc, a: Id)
    requires Inv(s) && !IsEdit(op) && op.tenant == a && Precheck(s, op).None?
    requires ReadDoc(s, op) == Some(doc) && CheckDoc(s.cat, op, doc).None?
    ensures var item := if ItemOf(op, doc).Some? then FindItem(s, a, ItemOf(op, doc).value) else None;
            var cat := CatalogOf(s.cat, a);
            && (ItemOf(op, doc).Some? ==> FindItem(Project(s, a), a, ItemOf(op, doc).value) == item)
            && (ItemOf(op, doc).Some? ==> CheckItem(cat, op, doc, item) == CheckItem(s.cat, op, doc, item))
            && CheckInsert(Project(s, a), op, doc, item) == CheckInsert(s, op, doc, item)
  {
    ReadsProject(s, a);
    if ItemOf(op, doc).Some? {
      ItemStageFindsItsRow(s, op, doc);
      CheckItemProjects(s, op, doc, a);
    }
  }

  lemma {:induction false} EffectProjects(s: State, op: Op, doc: Doc, a: Id)
    requires op.tenant == a && DocFits(op, doc)
    ensures var item := if ItemOf(op, doc).Some? then FindItem(s, a, ItemOf(op, doc).value) else None;
            var cat := CatalogOf(s.cat, a);
            && (ItemOf(op, doc).Some? ==> CheckItem(cat, op, doc, item) == CheckItem(s.cat, op, doc, item))
            && ((ItemOf(op, doc).Some? ==> CheckItem(s.cat, op, doc, item).None?) ==>
                  && Effect(cat, op, doc, item) == Effect(s.cat, op, doc, item)
                  && ReplyOf(cat, op, doc, item) == ReplyOf(s.cat, op, doc, item))
  {
    hide Inv;
    if ItemOf(op, doc).Some? {
      CheckItemProjects(s, op, doc, a);
    }
  }

  lemma {:induction false} CheckItemProjects(s: State, op: Op, doc: Doc, a: Id)
    requires op.tenant == a && DocFits(op, doc) && ItemOf(op, doc).Some?
    ensures var cat, item := CatalogOf(s.cat, a), FindItem(s, a, ItemOf(op, doc).value);
            && CheckItem(cat, op, doc, item) == CheckItem(s.cat, op, doc, item)
            && (CheckItem(s.cat, op, doc, item).None? ==>
                  && BeforeItem(cat, op, doc, item) == BeforeItem(s.cat, op, doc, item)
                  && AfterItem(cat, op, doc, item) == AfterItem(s.cat, op, doc, item))
  {
    ReadsProject(s, a);
  }

  // ---- writes ----------------------------------------------------------------------------------------

  /** A write that concerns one tenant only: its rows, over its rows. */
  ghost predicate Belongs(s: State, w: Write, t: Id) {
    && (forall k :: k in w.items ==> w.items[k].tenant == t && (k in s.items ==> s.items[k].tenant == t))
    && (forall id :: id in w.transfers ==> id.tenant == t)
    && (forall id :: id in w.orders ==> id.tenant == t)
    && (forall r :: r in w.rows ==> r.tenant == t)
  }

  lemma {:induction false} EffectBelongsTo(s: State, op: Op, doc: Doc, item: Option<Item>, t: Id)
    requires Inv(s) && Passed(s, op, doc, item) && op.tenant == t
    ensures Belongs(s, Effect(s.cat, op, doc, item), t)
  {
    RowsBelongTo(s.cat, op, doc, item);
    RowBelongsTo(s, op, doc, item);
    KeysBelongTo(s, op, doc, item);
  }

  lemma {:induction false} RowBelongsTo(s: State, op: Op, doc: Doc, item: Option<Item>)
    requires Inv(s) && Passed(s, op, doc, item)
    ensures var w := Effect(s.cat, op, doc, item);
            forall k :: k in w.items ==>
              w.items[k].tenant == op.tenant && (k in s.items ==> s.items[k].tenant == op.tenant)
  {
    if ItemOf(op, doc).Some? && item.None? {
      ItemStageFindsItsRow(s, op, doc);
    }
  }

  lemma {:induction false} KeysBelongTo(s: State, op: Op, doc: Doc, item: Option<Item>)
    requires Passed(s, op, doc, item)
    ensures var w := Effect(s.cat, op, doc, item);
            && (forall id :: id in w.transfers ==> id.tenant == op.tenant)
            && (forall id :: id in w.orders ==> id.tenant == op.tenant)
  {
  }

  lemma {:induction false} RowsBelongTo(cat: Catalog, op: Op, doc: Doc, item: Option<Item>)
    requires DocFits(op, doc) && (ItemOf(op, doc).Some? ==> CheckItem(cat, op, doc, item).None?)
    ensures forall r :: r in Effect(cat, op, doc, item).rows ==> r.tenant == op.tenant
  {
  }

  lemma {:induction false} InstallProjects(s: State, w: Write, a: Id)
    requires Belongs(s, w, a)
    ensures Project(Install(s, w), a) == Install(Project(s, a), w)
  {
    RowsOfAppend(s.audit, w.rows, a);
    OwnRows(w.rows, a);
    OwnItems(s.items, w.items, a);
    OwnTransfers(s.transfers, w.transfers, a);
    OwnOrders(s.orders, w.orders, a);
  }

  lemma OwnItems(items: map<ItemKey, Item>, more: map<ItemKey, Item>, a: Id)
    requires forall k :: k in more ==> more[k].tenant == a
    ensures ItemsOf(items + more, a) == ItemsOf(items, a) + more
  {
  }

  lemma OwnTransfers(transfers: map<TransferId, Transfer>, more: map<TransferId, Transfer>, a: Id)
    requires forall id :: id in more ==> id.tenant == a
    ensures TransfersOf(transfers + more, a) == TransfersOf(transfers, a) + more
  {
  }

  lemma OwnOrders(orders: map<OrderId, Order>, more: map<OrderId, Order>, a: Id)
    requires forall id :: id in more ==> id.tenant == a
    ensures OrdersOf(orders + more, a) == OrdersOf(orders, a) + more
  {
  }

  lemma {:induction false} RowsOfAppend(log: seq<AuditRow>, rows: seq<AuditRow>, a: Id)
    ensures RowsOf(log + rows, a) == RowsOf(log, a) + RowsOf(rows, a)
  {
    if rows == [] {
      assert log + rows == log;
    } else {
      var all, n := log + rows, |rows| - 1;
      assert all[..|all| - 1] == log + rows[..n];
      RowsOfAppend(log, rows[..n], a);
    }
  }

  lemma {:induction false} OwnRows(rows: seq<AuditRow>, a: Id)
    ensures (forall r :: r in rows ==> r.tenant == a) ==> RowsOf(rows, a) == rows
    ensures (forall r :: r in rows ==> r.tenant != a) ==> RowsOf(rows, a) == []
  {
    if rows != [] {
      var n := |rows| - 1;
      OwnRows(rows[..n], a);
      assert rows == rows[..n] + [rows[n]];
      assert rows[n] in rows;
      assert forall r :: r in rows[..n] ==> r in rows;
    }
  }

  // ---- a call of another tenant ----------------------------------------------------------------------

  lemma {:induction false} OtherCallIsInvisible(s: State, op: Op, a: Id)
    requires Inv(s) && op.tenant != a
    ensures Project(Next(s, op), a) == Project(s, a)
  {
    if IsEdit(op) {
      OtherEditIsInvisible(s.cat, op, a);
    } else if Commits(s, op) {
      CommitPassed(s, op);
      var doc, item := DocAt(s, op), ItemAt(s, op);
      EffectBelongsTo(s, op, doc, item, op.tenant);
      OtherWriteIsInvisible(s, Effect(s.cat, op, doc, item), op.tenant, a);
    }
  }

  lemma {:induction false} OtherEditIsInvisible(cat: Catalog, op: Op, a: Id)
    requires IsEdit(op) && op.tenant != a
    ensures CatalogOf(Edit(cat, op).0, a) == CatalogOf(cat, a)
  {
    var after := Edit(cat, op).0;
    assert CatalogOf(after, a).variants == CatalogOf(cat, a).variants;
    assert CatalogOf(after, a).warehouses == CatalogOf(cat, a).warehouses;
    assert CatalogOf(after, a).suppliers == CatalogOf(cat, a).suppliers;
  }

  lemma {:induction false} OtherWriteIsInvisible(s: State, w: Write, t: Id, a: Id)
    requires Belongs(s, w, t) && t != a
    ensures Project(Install(s, w), a) == Project(s, a)
  {
    RowsOfAppend(s.audit, w.rows, a);
    OwnRows(w.rows, a);
    var next := Install(s, w);
    assert ItemsOf(next.items, a) == ItemsOf(s.items, a);
    assert TransfersOf(next.transfers, a) == TransfersOf(s.transfers, a);
    assert OrdersOf(next.orders, a) == OrdersOf(s.orders, a);
  }
}
