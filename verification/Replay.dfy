/** Replaying the audit log: the item rows of the log are a gap-free chain that ends at the stored quantity. */
module Replay {
  import opened Wrappers
  import opened Sums
  import opened Ledger
  import opened LedgerInvariant
  import opened Conservation

  /** The quantity after the last audit row of an inventory item; 0 before its first. */
  function LastQuantity(log: seq<AuditRow>, key: ItemKey): int {
    if log == [] then 0
    else
      var row := log[|log| - 1];
      if row.ItemRow? && row.key == key then row.after.quantity else LastQuantity(log[..|log| - 1], key)
  }

  /** Each item row starts from the quantity at which the previous row of the same item ended. */
  ghost predicate Chained(log: seq<AuditRow>) {
    forall i :: 0 <= i < |log| && log[i].ItemRow? ==> log[i].before.quantity == LastQuantity(log[..i], log[i].key)
  }

  ghost predicate Replays(s: State) {
    && Chained(s.audit)
    && forall k :: LastQuantity(s.audit, k) == (if k in s.items then s.items[k].quantity else 0)
  }

  /** Every serial run keeps the chain and its end, whether or not decay steps leave rows. */
  lemma {:induction false} RunReplays(s: State, ops: seq<Op>)
    requires Inv(s) && Replays(s)
    ensures Replays(Run(s, ops))
  {
    if ops != [] {
      var prefix := ops[..|ops| - 1];
      RunReplays(s, prefix);
      RunKeepsInv(s, prefix);
      NextReplays(Run(s, prefix), ops[|ops| - 1]);
    }
  }

  /** The chain telescopes: from any point on, the item's changes add up to the difference of its quantities. */
  lemma {:induction false} ChainTelescopes(log: seq<AuditRow>, from: nat, key: ItemKey)
    requires Chained(log) && from <= |log|
    ensures Total(log[from..], Change(key)) == LastQuantity(log, key) - LastQuantity(log[..from], key)
  {
    if from < |log| {
      var n := |log| - 1;
      assert Chained(log[..n]) by {
        forall i | 0 <= i < n && log[..n][i].ItemRow?
          ensures log[..n][i].before.quantity == LastQuantity(log[..n][..i], log[..n][i].key)
        {
          assert log[..n][..i] == log[..i];
        }
      }
      ChainTelescopes(log[..n], from, key);
      assert log[from..][..|log[from..]| - 1] == log[..n][from..];
      assert log[..n][..from] == log[..from];
    } else {
      assert log[..from] == log;
    }
  }

  function Change(key: ItemKey): AuditRow -> int {
    (r: AuditRow) => if r.ItemRow? && r.key == key then r.after.quantity - r.before.quantity else 0
  }

  // ---- one step --------------------------------------------------------------------------------------

  lemma {:induction false} NextReplays(s: State, op: Op)
    requires Inv(s) && Replays(s)
    ensures Replays(Next(s, op))
  {
    if Commits(s, op) {
      CommitPassed(s, op);
      CommitReplays(s, op, DocAt(s, op), ItemAt(s, op));
    }
  }

  lemma {:induction false} CommitReplays(s: State, op: Op, doc: Doc, item: Option<Item>)
    requires Inv(s) && Replays(s) && Passed(s, op, doc, item)
    ensures Replays(Install(s, Effect(s.cat, op, doc, item)))
  {
    var w := Effect(s.cat, op, doc, item);
    NoItemRows(op, doc);
    if ItemOf(op, doc).Some? {
      var key, before := ItemOf(op, doc).value, BeforeItem(s.cat, op, doc, item);
      var after := AfterItem(s.cat, op, doc, item);
      ItemRowFacts(s, op, doc, item);
      StockRowFacts(op, doc, key, before, after);
      InstallReplays(s, w, DocRows(op, doc), StockRows(op, key, before, after), GapRows(op, doc), key, before, after);
    } else {
      InstallDocReplays(s, w);
    }
  }

  ghost predicate NoItemRow(rows: seq<AuditRow>) { forall r :: r in rows ==> !r.ItemRow? }

  lemma {:induction false} NoItemRows(op: Op, doc: Doc)
    requires DocFits(op, doc)
    ensures NoItemRow(DocRows(op, doc)) && NoItemRow(GapRows(op, doc))
  {
  }

  lemma {:induction false} StockRowFacts(op: Op, doc: Doc, key: ItemKey, before: Item, after: Item)
    requires DocFits(op, doc) && ItemOf(op, doc) == Some(key)
    requires after.quantity == before.quantity + StockChange(op, doc)
    ensures var rows := StockRows(op, key, before, after);
            && (rows == [] ==> after.quantity == before.quantity)
            && (rows != [] ==> |rows| == 1 && rows[0].ItemRow? && rows[0].key == key
                               && rows[0].before == before && rows[0].after == after)
  {
  }

  lemma {:induction false} InstallReplays(
      s: State, w: Write, docRows: seq<AuditRow>, stock: seq<AuditRow>, gap: seq<AuditRow>,
      key: ItemKey, before: Item, after: Item)
    requires Replays(s) && w.items == map[key := after] && w.rows == docRows + stock + gap
    requires before.quantity == (if key in s.items then s.items[key].quantity else 0)
    requires NoItemRow(docRows) && NoItemRow(gap)
    requires stock == [] ==> after.quantity == before.quantity
    requires stock != [] ==> |stock| == 1 && stock[0].ItemRow? && stock[0].key == key
                             && stock[0].before == before && stock[0].after == after
    ensures Replays(Install(s, w))
  {
    AppendParts(s.audit, docRows, stock, gap, key, before, after);
    assert Install(s, w).audit == s.audit + docRows + stock + gap;
  }

  lemma {:induction false} AppendParts(
      log: seq<AuditRow>, docRows: seq<AuditRow>, stock: seq<AuditRow>, gap: seq<AuditRow>,
      key: ItemKey, before: Item, after: Item)
    requires Chained(log) && LastQuantity(log, key) == before.quantity
    requires NoItemRow(docRows) && NoItemRow(gap)
    requires stock == [] ==> after.quantity == before.quantity
    requires stock != [] ==> |stock| == 1 && stock[0].ItemRow? && stock[0].key == key
                             && stock[0].before == before && stock[0].after == after
    ensures Chained(log + docRows + stock + gap)
    ensures forall k :: LastQuantity(log + docRows + stock + gap, k)
                        == if k == key then after.quantity else LastQuantity(log, k)
  {
    AppendQuiet(log, docRows);
    AppendStock(log + docRows, stock, key, before, after);
    AppendQuiet(log + docRows + stock, gap);
  }

  lemma {:induction false} AppendStock(
      log: seq<AuditRow>, stock: seq<AuditRow>, key: ItemKey, before: Item, after: Item)
    requires Chained(log) && LastQuantity(log, key) == before.quantity
    requires stock == [] ==> after.quantity == before.quantity
    requires stock != [] ==> |stock| == 1 && stock[0].ItemRow? && stock[0].key == key
                             && stock[0].before == before && stock[0].after == after
    ensures Chained(log + stock)
    ensures forall k :: LastQuantity(log + stock, k) == if k == key then after.quantity else LastQuantity(log, k)
  {
    var all := log + stock;
    if stock == [] {
      assert all == log;
    } else {
      assert stock == [stock[0]];
      assert all[..|all| - 1] == log;
      AppendChained(log, stock[0]);
    }
  }

  lemma {:induction false} InstallDocReplays(s: State, w: Write)
    requires Replays(s) && w.items == map[] && NoItemRow(w.rows)
    ensures Replays(Install(s, w))
  {
    AppendQuiet(s.audit, w.rows);
  }

  /** Rows that are not about inventory items change neither the chain nor its ends. */
  lemma {:induction false} AppendQuiet(log: seq<AuditRow>, rows: seq<AuditRow>)
    requires NoItemRow(rows)
    ensures Chained(log) ==> Chained(log + rows)
    ensures forall k :: LastQuantity(log + rows, k) == LastQuantity(log, k)
  {
    if rows == [] {
      assert log + rows == log;
    } else {
      var n := |rows| - 1;
      AppendQuiet(log, rows[..n]);
      var all := log + rows;
      assert all[..|all| - 1] == log + rows[..n];
      assert all[|all| - 1] == rows[n];
      assert rows[n] in rows;
      if Chained(log) {
        AppendChained(log + rows[..n], rows[n]);
        assert log + rows == log + rows[..n] + [rows[n]];
      }
    }
  }

  lemma {:induction false} AppendChained(log: seq<AuditRow>, row: AuditRow)
    requires Chained(log)
    requires row.ItemRow? ==> row.before.quantity == LastQuantity(log, row.key)
    ensures Chained(log + [row])
  {
    var all := log + [row];
    forall i | 0 <= i < |all| && all[i].ItemRow?
      ensures all[i].before.quantity == LastQuantity(all[..i], all[i].key)
    {
      if i < |log| {
        assert all[..i] == log[..i];
      } else {
        assert all[..i] == log;
      }
    }
  }
}
