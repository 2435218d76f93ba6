/** Demand read off the audit log: what the rows of a time window say about one inventory item. */
module DemandLog {
  import opened Wrappers
  import opened DecayPrice
  import opened Sums
  import opened Ledger
  import opened LedgerInvariant
  import opened Conservation
  import opened Replay

  /** The rows that the forecast's audit query returns for a tenant, apart from its list of items. */
  predicate InWindow(r: AuditRow, tenant: Id, cutoff: Time) { r.ItemRow? && r.tenant == tenant && r.at >= cutoff }

  function DropOf(r: AuditRow, key: ItemKey): nat {
    if r.ItemRow? && r.key == key then Max(r.before.quantity - r.after.quantity, 0) else 0
  }

  /** Units that left the item in the window, row by row. */
  ghost function Outgoing(log: seq<AuditRow>, tenant: Id, key: ItemKey, cutoff: Time): int {
    Total(log, (r: AuditRow) => if InWindow(r, tenant, cutoff) then DropOf(r, key) else 0)
  }

  /** Units that came in. */
  ghost function Incoming(log: seq<AuditRow>, tenant: Id, key: ItemKey, cutoff: Time): int {
    Total(log, (r: AuditRow) =>
            if InWindow(r, tenant, cutoff) && r.key == key then Max(r.after.quantity - r.before.quantity, 0) else 0)
  }

  lemma {:induction false} OutgoingStep(log: seq<AuditRow>, r: AuditRow, tenant: Id, key: ItemKey, cutoff: Time)
    ensures Outgoing(log + [r], tenant, key, cutoff)
         == Outgoing(log, tenant, key, cutoff) + if InWindow(r, tenant, cutoff) then DropOf(r, key) else 0
    ensures Incoming(log + [r], tenant, key, cutoff) - Outgoing(log + [r], tenant, key, cutoff)
         == Incoming(log, tenant, key, cutoff) - Outgoing(log, tenant, key, cutoff)
            + if InWindow(r, tenant, cutoff) then Change(key)(r) else 0
  {
    assert (log + [r])[..|log|] == log;
  }

  /** Demand is the sum of the item's drops whose rows are the tenant's and not older than the cutoff. */
  lemma {:induction false} OutgoingMeaning(log: seq<AuditRow>, r: AuditRow, tenant: Id, key: ItemKey, cutoff: Time)
    ensures Outgoing([], tenant, key, cutoff) == 0
    ensures Outgoing(log + [r], tenant, key, cutoff) ==
            Outgoing(log, tenant, key, cutoff)
            + if r.ItemRow? && r.key == key && r.tenant == tenant && r.at >= cutoff
                 && r.after.quantity < r.before.quantity
              then r.before.quantity - r.after.quantity else 0
  {
    OutgoingStep(log, r, tenant, key, cutoff);
  }

  // ---- the window is the end of the item's rows ------------------------------------------------------

  /** A row that changes the item's quantity; decay rows do not. */
  predicate Moves(r: AuditRow, key: ItemKey) {
    r.ItemRow? && r.key == key && r.before.quantity != r.after.quantity
  }

  /** The item's own rows are in the order of their timestamps; nothing is asked of rows of different items. */
  ghost predicate InOrder(log: seq<AuditRow>, key: ItemKey) {
    forall i, j :: 0 <= i < j < |log| && Moves(log[i], key) && Moves(log[j], key) ==> log[i].at <= log[j].at
  }

  /** How long the log was after the item's last movement before the window. */
  function WindowStart(log: seq<AuditRow>, key: ItemKey, cutoff: Time): (n: nat)
    ensures n <= |log|
  {
    if log == [] then 0
    else if Moves(log[|log| - 1], key) && log[|log| - 1].at < cutoff then |log|
    else WindowStart(log[..|log| - 1], key, cutoff)
  }

  lemma {:induction false} WindowIsSuffix(log: seq<AuditRow>, key: ItemKey, cutoff: Time)
    requires InOrder(log, key)
    ensures forall i :: 0 <= i < |log| && Moves(log[i], key) ==>
              (log[i].at >= cutoff <==> i >= WindowStart(log, key, cutoff))
  {
    if log != [] && !(Moves(log[|log| - 1], key) && log[|log| - 1].at < cutoff) {
      WindowIsSuffix(log[..|log| - 1], key, cutoff);
    }
  }

  /** The rows of an item carry its tenant. */
  ghost predicate RowsNameTheirTenant(s: State) {
    forall i :: 0 <= i < |s.audit| && s.audit[i].ItemRow? ==>
      s.audit[i].key in s.items && s.audit[i].tenant == s.items[s.audit[i].key].tenant
  }

  /**
    With the item's rows in time order, what left it in the window less what came in is what it held when the
    window opened less what it holds now.
  */
  lemma {:induction false} WindowBalance(s: State, key: ItemKey, cutoff: Time)
    requires Replays(s) && RowsNameTheirTenant(s) && InOrder(s.audit, key) && key in s.items
    ensures var t := s.items[key].tenant;
            Outgoing(s.audit, t, key, cutoff) - Incoming(s.audit, t, key, cutoff)
            == LastQuantity(s.audit[..WindowStart(s.audit, key, cutoff)], key) - s.items[key].quantity
  {
    WindowIsSuffix(s.audit, key, cutoff);
    ChainTelescopes(s.audit, WindowStart(s.audit, key, cutoff), key);
    ChangesInWindow(s.audit, WindowStart(s.audit, key, cutoff), s.items[key].tenant, key, cutoff);
  }

  lemma {:induction false} ChangesInWindow(log: seq<AuditRow>, from: nat, tenant: Id, key: ItemKey, cutoff: Time)
    requires from <= |log|
    requires forall i :: 0 <= i < |log| && Moves(log[i], key) ==>
               log[i].tenant == tenant && (log[i].at >= cutoff <==> i >= from)
    ensures Incoming(log, tenant, key, cutoff) - Outgoing(log, tenant, key, cutoff) == Total(log[from..], Change(key))
  {
    if log == [] {
      assert log[from..] == [];
    } else {
      var n := |log| - 1;
      OutgoingStep(log[..n], log[n], tenant, key, cutoff);
      assert log == log[..n] + [log[n]];
      if from <= n {
        ChangesInWindow(log[..n], from, tenant, key, cutoff);
        assert log[from..][..n - from] == log[..n][from..];
      } else {
        ChangesBefore(log[..n], tenant, key, cutoff);
        assert log[from..] == [];
      }
    }
  }

  lemma {:induction false} ChangesBefore(log: seq<AuditRow>, tenant: Id, key: ItemKey, cutoff: Time)
    requires forall i :: 0 <= i < |log| && Moves(log[i], key) ==> log[i].at < cutoff
    ensures Incoming(log, tenant, key, cutoff) == Outgoing(log, tenant, key, cutoff)
  {
    if log != [] {
      var n := |log| - 1;
      ChangesBefore(log[..n], tenant, key, cutoff);
      OutgoingStep(log[..n], log[n], tenant, key, cutoff);
      assert log == log[..n] + [log[n]];
    }
  }

  // ---- reachable tables meet what WindowBalance asks for ---------------------------------------------

  /** On every run that leaves the item's own rows in time order the forecast's window balances. */
  lemma {:induction false} RunWindowBalance(s: State, ops: seq<Op>, key: ItemKey, cutoff: Time)
    requires Inv(s) && s.items == map[] && s.audit == [] && key in Run(s, ops).items
    requires InOrder(Run(s, ops).audit, key)
    ensures var now := Run(s, ops); var t := now.items[key].tenant;
            Outgoing(now.audit, t, key, cutoff) - Incoming(now.audit, t, key, cutoff)
            == LastQuantity(now.audit[..WindowStart(now.audit, key, cutoff)], key) - now.items[key].quantity
  {
    RunReplays(s, ops);
    RunNamesTenants(s, ops);
    WindowBalance(Run(s, ops), key, cutoff);
  }

  lemma {:induction false} RunNamesTenants(s: State, ops: seq<Op>)
    requires Inv(s) && RowsNameTheirTenant(s)
    ensures RowsNameTheirTenant(Run(s, ops))
  {
    if ops != [] {
      var prefix, op := ops[..|ops| - 1], ops[|ops| - 1];
      RunNamesTenants(s, prefix);
      RunKeepsInv(s, prefix);
      var mid := Run(s, prefix);
      if Commits(mid, op) {
        CommitPassed(mid, op);
        CommitNamesTenants(mid, op, DocAt(mid, op), ItemAt(mid, op));
      }
    }
  }

  lemma {:induction false} CommitNamesTenants(s: State, op: Op, doc: Doc, item: Option<Item>)
    requires Inv(s) && RowsNameTheirTenant(s) && Passed(s, op, doc, item)
    ensures RowsNameTheirTenant(Install(s, Effect(s.cat, op, doc, item)))
  {
    var w := Effect(s.cat, op, doc, item);
    NoItemRows(op, doc);
    if ItemOf(op, doc).Some? {
      var key := ItemOf(op, doc).value;
      var before, after := BeforeItem(s.cat, op, doc, item), AfterItem(s.cat, op, doc, item);
      ItemRowFacts(s, op, doc, item);
      StockRowTenant(op, key, before, after);
      InstallNamesTenants(s, w, DocRows(op, doc), StockRows(op, key, before, after), GapRows(op, doc), key, after);
    } else {
      InstallDocNamesTenants(s, w);
    }
  }

  lemma StockRowTenant(op: Op, key: ItemKey, before: Item, after: Item)
    ensures forall r :: r in StockRows(op, key, before, after) ==> r.ItemRow? && r.key == key && r.tenant == op.tenant
  {
  }

  lemma {:induction false} InstallNamesTenants(
      s: State, w: Write, docRows: seq<AuditRow>, stock: seq<AuditRow>, gap: seq<AuditRow>, key: ItemKey, after: Item)
    requires RowsNameTheirTenant(s) && w.items == map[key := after] && w.rows == docRows + stock + gap
    requires NoItemRow(docRows) && NoItemRow(gap)
    requires key in s.items ==> s.items[key].tenant == after.tenant
    requires forall r :: r in stock ==> r.ItemRow? && r.key == key && r.tenant == after.tenant
    ensures RowsNameTheirTenant(Install(s, w))
  {
    var next := Install(s, w);
    forall i | 0 <= i < |next.audit| && next.audit[i].ItemRow?
      ensures next.audit[i].key in next.items && next.audit[i].tenant == next.items[next.audit[i].key].tenant
    {
      if i >= |s.audit| {
        var r := next.audit[i];
        assert r in w.rows;
        assert r in docRows || r in stock || r in gap;
      }
    }
  }

  lemma {:induction false} InstallDocNamesTenants(s: State, w: Write)
    requires RowsNameTheirTenant(s) && w.items == map[] && NoItemRow(w.rows)
    ensures RowsNameTheirTenant(Install(s, w))
  {
    var next := Install(s, w).audit;
    assert forall i :: |s.audit| <= i < |next| ==> next[i] in w.rows;
  }

  lemma {:induction false} EffectRowsAt(cat: Catalog, op: Op, doc: Doc, item: Option<Item>)
    requires !IsEdit(op) && DocFits(op, doc) && (ItemOf(op, doc).Some? ==> CheckItem(cat, op, doc, item).None?)
    ensures forall r :: r in Effect(cat, op, doc, item).rows ==> r.at == op.now
  {
    DocRowsAt(op, doc);
    if ItemOf(op, doc).Some? {
      var key, before, after := ItemOf(op, doc).value, BeforeItem(cat, op, doc, item), AfterItem(cat, op, doc, item);
      StockRowsAt(op, key, before, after);
      assert Effect(cat, op, doc, item).rows == DocRows(op, doc) + StockRows(op, key, before, after) + GapRows(op, doc);
    } else {
      assert Effect(cat, op, doc, item).rows == DocRows(op, doc);
    }
  }

  lemma DocRowsAt(op: Op, doc: Doc)
    requires !IsEdit(op) && DocFits(op, doc)
    ensures forall r :: r in DocRows(op, doc) + GapRows(op, doc) ==> r.at == op.now
  {
  }

  lemma StockRowsAt(op: Op, key: ItemKey, before: Item, after: Item)
    requires !IsEdit(op)
    ensures forall r :: r in StockRows(op, key, before, after) ==> r.at == op.now
  {
  }
}
