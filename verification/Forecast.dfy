/** forecast_reorder_suggestions: demand per item, the rounded daily average, the order quantity, and its pages. */
module Forecast {
  import opened Wrappers
  import opened DecayPrice
  import opened Sums
  import opened Ledger
  import opened LedgerInvariant
  import opened DemandLog
  import opened Paging

  // ---- arithmetic ------------------------------------------------------------------------------------

  /** math.ceil(n / d). */
  function Ceiling(n: int, d: int): int
    requires d > 0
  {
    -((-n) / d)
  }

  /** average_daily_demand, in hundredths of a unit. */
  function Average(outgoing: nat, window: int): int
    requires window >= 1
  {
    RoundHalfUp(100 * outgoing, window)
  }

  /** recommended_quantity. */
  function Recommended(outgoing: nat, window: int, lead: nat, threshold: int, quantity: int): nat
    requires window >= 1
  {
    Max(0, Ceiling(Average(outgoing, window) * lead + 100 * threshold - 100 * quantity, 100))
  }

  /** What it would be without rounding the average. */
  ghost function ExactNeed(outgoing: nat, window: int, lead: nat, threshold: int, quantity: int): nat
    requires window >= 1
  {
    Max(0, Ceiling(outgoing * lead + window * threshold - window * quantity, window))
  }

  lemma {:induction false} CeilingLeast(n: int, d: int, m: int)
    requires d > 0
    ensures m >= Ceiling(n, d) <==> m * d >= n
  {
    var q, r := (-n) / d, (-n) % d;
    assert -n == q * d + r;
    if m >= -q {
      MulMonotone(-q, m, d);
      assert (-q) * d == -(q * d);
    } else {
      MulGap(m, -q, d);
      assert (-q) * d == -(q * d);
    }
  }

  /** The recommended quantity is the least that covers the rounded demand over the lead time plus the threshold. */
  lemma {:induction false} RecommendedIsLeast(
      outgoing: nat, window: int, lead: nat, threshold: int, quantity: int, n: nat)
    requires window >= 1
    ensures n >= Recommended(outgoing, window, lead, threshold, quantity)
            <==> 100 * (quantity + n) >= Average(outgoing, window) * lead + 100 * threshold
  {
    CeilingLeast(Average(outgoing, window) * lead + 100 * threshold - 100 * quantity, 100, n);
  }

  lemma {:induction false} ExactNeedIsLeast(
      outgoing: nat, window: int, lead: nat, threshold: int, quantity: int, n: nat)
    requires window >= 1
    ensures n >= ExactNeed(outgoing, window, lead, threshold, quantity)
            <==> window * (quantity + n) >= outgoing * lead + window * threshold
  {
    CeilingLeast(outgoing * lead + window * threshold - window * quantity, window, n);
    assert window * (quantity + n) == window * quantity + n * window;
  }

  /** Twice the window's rounding error, over the lead time. */
  lemma {:induction false} AverageError(outgoing: nat, window: int, lead: nat)
    requires window >= 1 && lead <= 200
    ensures 200 * (outgoing * lead) - 200 * window
            <= 2 * (window * (Average(outgoing, window) * lead))
            <= 200 * (outgoing * lead) + 200 * window
  {
    var a := Average(outgoing, window);
    RoundHalfUpIsNearest(100 * outgoing, window, a);
    var low, mid, high := 200 * outgoing - window, 2 * (a * window), 200 * outgoing + window;
    MulMonotone(low, mid, lead);
    MulMonotone(mid, high, lead);
    MulMonotone(lead, 200, window);
    assert low * lead == 200 * (outgoing * lead) - lead * window;
    assert high * lead == 200 * (outgoing * lead) + lead * window;
    assert mid * lead == 2 * (window * (a * lead));
  }

  /** Rounding the average changes the recommendation by at most one unit; the router admits lead times up to 120. */
  lemma {:induction false} RoundingCostsAtMostOne(outgoing: nat, window: int, lead: nat, threshold: int, quantity: int)
    requires window >= 1 && lead <= 200
    ensures -1 <= Recommended(outgoing, window, lead, threshold, quantity)
                  - ExactNeed(outgoing, window, lead, threshold, quantity) <= 1
  {
    var r := Recommended(outgoing, window, lead, threshold, quantity);
    var e := ExactNeed(outgoing, window, lead, threshold, quantity);
    AverageError(outgoing, window, lead);
    RecommendedIsLeast(outgoing, window, lead, threshold, quantity, r);
    RecommendedIsLeast(outgoing, window, lead, threshold, quantity, e + 1);
    ExactNeedIsLeast(outgoing, window, lead, threshold, quantity, e);
    ExactNeedIsLeast(outgoing, window, lead, threshold, quantity, r + 1);
    var target := Average(outgoing, window) * lead;
    ScaleUp(window, target, outgoing * lead, threshold, quantity + r);
    ScaleDown(window, target, outgoing * lead, threshold, quantity + e);
  }

  lemma {:induction false} ScaleUp(window: int, target: int, demand: int, threshold: int, stock: int)
    requires window >= 1 && 200 * demand - 200 * window <= 2 * (window * target)
    requires 100 * stock >= target + 100 * threshold
    ensures window * (stock + 1) >= demand + window * threshold
  {
    MulMonotone(target + 100 * threshold, 100 * stock, window);
    assert (target + 100 * threshold) * window == window * target + 100 * (window * threshold);
    assert (100 * stock) * window == 100 * (window * stock);
    assert window * (stock + 1) == window * stock + window;
  }

  lemma {:induction false} ScaleDown(window: int, target: int, demand: int, threshold: int, stock: int)
    requires window >= 1 && 2 * (window * target) <= 200 * demand + 200 * window
    requires window * stock >= demand + window * threshold
    ensures 100 * (stock + 1) >= target + 100 * threshold
  {
    assert (target + 100 * threshold) * window == window * target + 100 * (window * threshold);
    assert (100 * (stock + 1)) * window == 100 * (window * stock) + 100 * window;
    if 100 * (stock + 1) < target + 100 * threshold {
      MulGap(100 * (stock + 1), target + 100 * threshold, window);
    }
  }

  /** More demand, a longer lead time, a higher threshold or less stock never lower the recommendation. */
  lemma {:induction false} RecommendedIsMonotone(
      out1: nat, out2: nat, window: int, lead1: nat, lead2: nat, threshold1: int, threshold2: int, q1: int, q2: int)
    requires window >= 1 && out1 <= out2 && lead1 <= lead2 && threshold1 <= threshold2 && q1 >= q2
    ensures Recommended(out1, window, lead1, threshold1, q1) <= Recommended(out2, window, lead2, threshold2, q2)
  {
    var n := Recommended(out2, window, lead2, threshold2, q2);
    RecommendedIsLeast(out2, window, lead2, threshold2, q2, n);
    RecommendedIsLeast(out1, window, lead1, threshold1, q1, n);
    DemandIsMonotone(out1, out2, window, lead1, lead2);
  }

  lemma {:induction false} DemandIsMonotone(out1: nat, out2: nat, window: int, lead1: nat, lead2: nat)
    requires window >= 1 && out1 <= out2 && lead1 <= lead2
    ensures Average(out1, window) * lead1 <= Average(out2, window) * lead2
  {
    RoundHalfUpMonotone(100 * out1, 100 * out2, window);
    MulMonotone(Average(out1, window), Average(out2, window), lead1);
    AverageIsNatural(out2, window);
    MulMonotone(lead1, lead2, Average(out2, window));
  }

  lemma AverageIsNatural(outgoing: nat, window: int)
    requires window >= 1
    ensures Average(outgoing, window) >= 0
  {
  }

  /** Each unit received lowers the recommendation by one; the recommended quantity lowers it to 0. */
  lemma {:induction false} OrderingSettles(outgoing: nat, window: int, lead: nat, threshold: int, quantity: int, n: nat)
    requires window >= 1
    ensures Recommended(outgoing, window, lead, threshold, quantity + n)
         == Max(0, Recommended(outgoing, window, lead, threshold, quantity) - n)
  {
    var before := Recommended(outgoing, window, lead, threshold, quantity);
    var after := Recommended(outgoing, window, lead, threshold, quantity + n);
    RecommendedIsLeast(outgoing, window, lead, threshold, quantity, before);
    RecommendedIsLeast(outgoing, window, lead, threshold, quantity, n + after);
    RecommendedIsLeast(outgoing, window, lead, threshold, quantity + n, after);
    RecommendedIsLeast(outgoing, window, lead, threshold, quantity + n, Max(0, before - n));
  }

  // ---- one suggestion --------------------------------------------------------------------------------

  datatype Urgency = ReorderNow | Watch | NoUrgency

  datatype Suggestion = Suggestion(
    id: Key, quantity: int, threshold: int, outgoing: int, average: int, recommended: nat, urgency: Urgency)

  /** A request; the schema bounds the window to 1..365 days and the lead time to 1..120. */
  datatype QueryRow = Query(
    tenant: Id, warehouse: Option<Id>, window: int, lead: nat, reorderOnly: bool, cutoff: Time)
  type Query = q: QueryRow | q.window >= 1 witness Query(0, None, 1, 1, false, 0)

  function Suggest(q: Query, id: Key, item: Item, outgoing: nat): Suggestion {
    var recommended := Recommended(outgoing, q.window, q.lead, item.threshold, item.quantity);
    var urgency := if item.quantity <= item.threshold then ReorderNow else if recommended > 0 then Watch else NoUrgency;
    Suggestion(id, item.quantity, item.threshold, outgoing, Average(outgoing, q.window), recommended, urgency)
  }

  /** The row is not skipped. */
  predicate Keeps(q: Query, row: Suggestion) { !(q.reorderOnly && row.recommended == 0 && row.urgency.NoUrgency?) }

  /** A row is urgent exactly when stock is at the threshold or below what the lead time will use up. */
  lemma {:induction false} UrgencyMeaning(q: Query, id: Key, item: Item, outgoing: nat)
    ensures var row := Suggest(q, id, item, outgoing);
            && (Keeps(q, row) <==> !q.reorderOnly || !row.urgency.NoUrgency?)
            && (row.urgency.NoUrgency? <==>
                  item.quantity > item.threshold
                  && 100 * item.quantity >= Average(outgoing, q.window) * q.lead + 100 * item.threshold)
            && (row.urgency.ReorderNow? <==> item.quantity <= item.threshold)
            && (row.urgency.Watch? <==>
                  item.quantity > item.threshold
                  && 100 * item.quantity < Average(outgoing, q.window) * q.lead + 100 * item.threshold)
  {
    RecommendedIsLeast(outgoing, q.window, q.lead, item.threshold, item.quantity, 0);
  }

  // ---- the demand loop -------------------------------------------------------------------------------

  /** What the audit query returns for the items on the page, in log order. */
  ghost function Fetched(log: seq<AuditRow>, q: Query, keys: set<ItemKey>): seq<AuditRow> {
    if log == [] then []
    else
      var r, prefix := log[|log| - 1], Fetched(log[..|log| - 1], q, keys);
      if InWindow(r, q.tenant, q.cutoff) && r.key in keys then prefix + [r] else prefix
  }

  /** The drops of one item over some rows. */
  ghost function Drops(rows: seq<AuditRow>, k: ItemKey): int { Total(rows, (r: AuditRow) => DropOf(r, k)) }

  lemma DropsStep(rows: seq<AuditRow>, r: AuditRow, k: ItemKey)
    ensures Drops(rows + [r], k) == Drops(rows, k) + DropOf(r, k)
  {
    assert (rows + [r])[..|rows|] == rows;
  }

  lemma {:induction false} FetchedRows(log: seq<AuditRow>, q: Query, keys: set<ItemKey>)
    ensures forall r :: r in Fetched(log, q, keys) ==> r.ItemRow? && r.key in keys
  {
    if log != [] {
      FetchedRows(log[..|log| - 1], q, keys);
    }
  }

  lemma {:induction false} FetchedDrops(log: seq<AuditRow>, q: Query, keys: set<ItemKey>, k: ItemKey)
    requires k in keys
    ensures Drops(Fetched(log, q, keys), k) == Outgoing(log, q.tenant, k, q.cutoff)
  {
    if log != [] {
      var n := |log| - 1;
      FetchedDrops(log[..n], q, keys, k);
      OutgoingStep(log[..n], log[n], q.tenant, k, q.cutoff);
      assert log == log[..n] + [log[n]];
      DropsStep(Fetched(log[..n], q, keys), log[n], k);
    }
  }

  /** The accumulation loop over the fetched rows, in whatever order they come. */
  method OutgoingByItem(rows: seq<AuditRow>, keys: set<ItemKey>) returns (outgoing: map<ItemKey, int>)
    requires forall r :: r in rows ==> r.ItemRow? && r.key in keys
    ensures outgoing.Keys == keys
    ensures forall k :: k in keys ==> outgoing[k] == Drops(rows, k)
  {
    outgoing := map k | k in keys :: 0;
    var i := 0;
    while i < |rows|
      invariant 0 <= i <= |rows| && outgoing.Keys == keys
      invariant forall k :: k in keys ==> outgoing[k] == Drops(rows[..i], k)
    {
      var row := rows[i];
      forall k | k in keys ensures Drops(rows[..i + 1], k) == Drops(rows[..i], k) + DropOf(row, k) {
        assert rows[..i + 1] == rows[..i] + [row];
        DropsStep(rows[..i], row, k);
      }
      outgoing := outgoing[row.key := outgoing[row.key] + Max(row.before.quantity - row.after.quantity, 0)];
      i := i + 1;
    }
    assert rows[..|rows|] == rows;
  }

  // ---- the page --------------------------------------------------------------------------------------

  /** The id column of the inventory table. */
  ghost predicate IdsOf(ids: map<Key, ItemKey>, s: State) { forall id :: id in ids ==> ids[id] in s.items }

  /** The rows `filters` selects. */
  function Counted(s: State, ids: map<Key, ItemKey>, q: Query): set<Key>
    requires IdsOf(ids, s)
  {
    set id | id in ids && s.items[ids[id]].tenant == q.tenant
             && (q.warehouse.Some? ==> ids[id].warehouse == q.warehouse.value)
  }

  /** Those whose variant joins. */
  function Joined(s: State, ids: map<Key, ItemKey>, q: Query): set<Key>
    requires IdsOf(ids, s)
  {
    set id | id in Counted(s, ids, q) && FindVariant(s.cat, q.tenant, ids[id].variant).Some?
  }

  /** On reachable tables the join drops no row, so `total_count`, which is taken without it, agrees. */
  lemma {:induction false} JoinDropsNothing(s: State, ids: map<Key, ItemKey>, q: Query)
    requires Inv(s) && IdsOf(ids, s)
    ensures Joined(s, ids, q) == Counted(s, ids, q)
  {
    forall id | id in Counted(s, ids, q) ensures FindVariant(s.cat, q.tenant, ids[id].variant).Some? {
      assert ItemOk(s.cat, ids[id], s.items[ids[id]]);
    }
  }

  lemma {:induction false} OutgoingIsNatural(log: seq<AuditRow>, tenant: Id, key: ItemKey, cutoff: Time)
    ensures Outgoing(log, tenant, key, cutoff) >= 0
  {
    if log != [] {
      var n := |log| - 1;
      OutgoingIsNatural(log[..n], tenant, key, cutoff);
      OutgoingStep(log[..n], log[n], tenant, key, cutoff);
      assert log == log[..n] + [log[n]];
    }
  }

  /** The suggestion for one inventory row, straight from the whole audit log. */
  ghost function SuggestionFor(s: State, ids: map<Key, ItemKey>, q: Query, id: Key): Suggestion
    requires IdsOf(ids, s) && id in ids
  {
    OutgoingIsNatural(s.audit, q.tenant, ids[id], q.cutoff);
    Suggest(q, id, s.items[ids[id]], Outgoing(s.audit, q.tenant, ids[id], q.cutoff))
  }

  /** The suggestions for a list of rows, less those that `reorder_only` skips. */
  ghost function Suggestions(s: State, ids: map<Key, ItemKey>, q: Query, rows: seq<Key>): seq<Suggestion>
    requires IdsOf(ids, s) && forall id :: id in rows ==> id in ids
  {
    if rows == [] then []
    else
      var n := |rows| - 1;
      var row := SuggestionFor(s, ids, q, rows[n]);
      Suggestions(s, ids, q, rows[..n]) + if Keeps(q, row) then [row] else []
  }

  /** What the row of one inventory item says: its stored figures, the demand of its log, and what follows from them. */
  ghost predicate Describes(s: State, ids: map<Key, ItemKey>, q: Query, row: Suggestion)
    requires IdsOf(ids, s)
  {
    && row.id in ids
    && var item, units := s.items[ids[row.id]], 100 * row.quantity;
       var target := row.average * q.lead + 100 * row.threshold;
       && row.quantity == item.quantity && row.threshold == item.threshold
       && row.outgoing == Outgoing(s.audit, q.tenant, ids[row.id], q.cutoff)
       && NearestTo(row.average, 100 * row.outgoing, q.window)
       && units + 100 * row.recommended >= target
       && (row.recommended > 0 ==> units + 100 * (row.recommended - 1) < target)
       && (row.urgency == ReorderNow <==> row.quantity <= row.threshold)
       && (row.urgency == Watch <==> row.quantity > row.threshold && units < target)
       && (row.urgency == NoUrgency <==> row.quantity > row.threshold && units >= target)
  }

  lemma {:induction false} SuggestionMeaning(s: State, ids: map<Key, ItemKey>, q: Query, id: Key)
    requires IdsOf(ids, s) && id in ids
    ensures var row := SuggestionFor(s, ids, q, id);
            row.id == id && Describes(s, ids, q, row) && (Keeps(q, row) <==> !q.reorderOnly || row.urgency != NoUrgency)
  {
    var row, item := SuggestionFor(s, ids, q, id), s.items[ids[id]];
    OutgoingIsNatural(s.audit, q.tenant, ids[id], q.cutoff);
    RoundHalfUpIsNearest(100 * row.outgoing, q.window, row.average);
    RecommendedIsLeast(row.outgoing, q.window, q.lead, item.threshold, item.quantity, row.recommended);
    RecommendedIsLeast(row.outgoing, q.window, q.lead, item.threshold, item.quantity, 0);
    if row.recommended > 0 {
      RecommendedIsLeast(row.outgoing, q.window, q.lead, item.threshold, item.quantity, row.recommended - 1);
    }
  }

  /** The list has a row for an item exactly when `reorder_only` is off or the item is short, and every row is right. */
  ghost predicate ListsThem(s: State, ids: map<Key, ItemKey>, q: Query, rows: seq<Key>, data: seq<Suggestion>)
    requires IdsOf(ids, s) && forall id :: id in rows ==> id in ids
  {
    && (forall i :: 0 <= i < |data| ==> data[i].id in rows && Describes(s, ids, q, data[i]))
    && (forall i :: 0 <= i < |data| && q.reorderOnly ==> data[i].urgency != NoUrgency)
    && (forall id :: id in rows ==>
          var row := SuggestionFor(s, ids, q, id); row in data <==> !q.reorderOnly || row.urgency != NoUrgency)
  }

  lemma {:induction false} SuggestionsMeaning(s: State, ids: map<Key, ItemKey>, q: Query, rows: seq<Key>)
    requires IdsOf(ids, s) && forall id :: id in rows ==> id in ids
    ensures ListsThem(s, ids, q, rows, Suggestions(s, ids, q, rows))
  {
    if rows != [] {
      hide Describes, ListsThem, SuggestionFor, Keeps;
      var n := |rows| - 1;
      SuggestionsMeaning(s, ids, q, rows[..n]);
      SuggestionMeaning(s, ids, q, rows[n]);
      OneMoreListed(s, ids, q, rows, Suggestions(s, ids, q, rows[..n]));
    }
  }

  lemma {:induction false} OneMoreListed(
      s: State, ids: map<Key, ItemKey>, q: Query, rows: seq<Key>, data: seq<Suggestion>)
    requires IdsOf(ids, s) && rows != [] && forall id :: id in rows ==> id in ids
    requires ListsThem(s, ids, q, rows[..|rows| - 1], data)
    requires var row := SuggestionFor(s, ids, q, rows[|rows| - 1]);
             && row.id == rows[|rows| - 1] && Describes(s, ids, q, row)
             && (Keeps(q, row) <==> !q.reorderOnly || row.urgency != NoUrgency)
    ensures var row := SuggestionFor(s, ids, q, rows[|rows| - 1]);
            ListsThem(s, ids, q, rows, data + if Keeps(q, row) then [row] else [])
  {
    hide Describes, Keeps, SuggestionFor;
    var n := |rows| - 1;
    var last := SuggestionFor(s, ids, q, rows[n]);
    var all := data + if Keeps(q, last) then [last] else [];
    forall id | id in rows
      ensures var row := SuggestionFor(s, ids, q, id); row in all <==> !q.reorderOnly || row.urgency != NoUrgency
    {
      var row := SuggestionFor(s, ids, q, id);
      assert row in all <==> row in data || (Keeps(q, last) && row == last);
      if id !in rows[..n] { assert id == rows[n]; }
    }
  }

  /** Which rows a request selects: the tenant's, of the asked warehouse if any. */
  lemma SelectedRowsMeaning(s: State, ids: map<Key, ItemKey>, q: Query, id: Key)
    requires IdsOf(ids, s)
    ensures id in Counted(s, ids, q)
            <==> id in ids && s.items[ids[id]].tenant == q.tenant
                 && (q.warehouse == None || q.warehouse == Some(ids[id].warehouse))
    ensures id in Joined(s, ids, q)
            <==> id in Counted(s, ids, q) && ids[id].variant in s.cat.variants
                 && s.cat.variants[ids[id].variant].tenant == q.tenant
  {
  }

  datatype ForecastPage = ForecastPage(next: Option<Key>, hasMore: bool, totalCount: nat, data: seq<Suggestion>)

  lemma {:induction false} PageIsListed(s: State, ids: map<Key, ItemKey>, q: Query, cursor: Option<Key>, limit: nat)
    requires IdsOf(ids, s)
    ensures forall id :: id in PageOf(Joined(s, ids, q), cursor, limit).data ==> id in Joined(s, ids, q) && id in ids
  {
    PageFacts(Joined(s, ids, q), cursor, limit);
  }

  ghost function PageKeys(s: State, ids: map<Key, ItemKey>, q: Query, cursor: Option<Key>, limit: nat): set<ItemKey>
    requires IdsOf(ids, s)
  {
    PageIsListed(s, ids, q, cursor, limit);
    set id | id in PageOf(Joined(s, ids, q), cursor, limit).data :: ids[id]
  }

  /** One request. `rows` is the audit query's answer, which has no ORDER BY. */
  method ReadForecast(s: State, ids: map<Key, ItemKey>, q: Query, cursor: Option<Key>, limit: nat, rows: seq<AuditRow>)
    returns (page: ForecastPage)
    requires IdsOf(ids, s)
    requires multiset(rows) == multiset(Fetched(s.audit, q, PageKeys(s, ids, q, cursor, limit)))
    ensures var listed := PageOf(Joined(s, ids, q), cursor, limit);
            && (forall id :: id in listed.data ==> id in ids)
            && page == ForecastPage(listed.next, listed.hasMore, |After(Counted(s, ids, q), cursor)|,
                                    Suggestions(s, ids, q, listed.data))
            && ListsThem(s, ids, q, listed.data, page.data)
  {
    PageIsListed(s, ids, q, cursor, limit);
    var listed := PageOf(Joined(s, ids, q), cursor, limit);
    var keys := set id | id in listed.data :: ids[id];
    assert keys == PageKeys(s, ids, q, cursor, limit);
    FetchedKeys(s, q, keys, rows);
    var outgoing := OutgoingByItem(rows, keys);
    forall k | k in keys ensures outgoing[k] == Outgoing(s.audit, q.tenant, k, q.cutoff) {
      FetchedTotal(s, q, keys, rows, k);
    }
    var data := BuildData(s, ids, q, listed.data, outgoing);
    SuggestionsMeaning(s, ids, q, listed.data);
    page := ForecastPage(listed.next, listed.hasMore, |After(Counted(s, ids, q), cursor)|, data);
  }

  /** The loop that turns rows into suggestions. */
  method BuildData(s: State, ids: map<Key, ItemKey>, q: Query, listed: seq<Key>, outgoing: map<ItemKey, int>)
    returns (data: seq<Suggestion>)
    requires IdsOf(ids, s) && (forall id :: id in listed ==> id in ids && ids[id] in outgoing)
    requires forall k :: k in outgoing ==> outgoing[k] == Outgoing(s.audit, q.tenant, k, q.cutoff)
    ensures data == Suggestions(s, ids, q, listed)
  {
    data := [];
    var i := 0;
    while i < |listed|
      invariant 0 <= i <= |listed| && data == Suggestions(s, ids, q, listed[..i])
    {
      var id := listed[i];
      OutgoingIsNatural(s.audit, q.tenant, ids[id], q.cutoff);
      var row := Suggest(q, id, s.items[ids[id]], outgoing[ids[id]]);
      assert listed[..i + 1][..i] == listed[..i];
      if Keeps(q, row) {
        data := data + [row];
      }
      i := i + 1;
    }
    assert listed[..i] == listed;
  }

  lemma {:induction false} FetchedKeys(s: State, q: Query, keys: set<ItemKey>, rows: seq<AuditRow>)
    requires multiset(rows) == multiset(Fetched(s.audit, q, keys))
    ensures forall r :: r in rows ==> r.ItemRow? && r.key in keys
  {
    forall r | r in rows ensures r.ItemRow? && r.key in keys {
      FetchedRows(s.audit, q, keys);
      assert r in multiset(rows);
    }
  }

  lemma {:induction false} FetchedTotal(s: State, q: Query, keys: set<ItemKey>, rows: seq<AuditRow>, k: ItemKey)
    requires multiset(rows) == multiset(Fetched(s.audit, q, keys)) && k in keys
    ensures Drops(rows, k) == Outgoing(s.audit, q.tenant, k, q.cutoff)
  {
    FetchedDrops(s.audit, q, keys, k);
    TotalOfAnyOrder(rows, Fetched(s.audit, q, keys), (r: AuditRow) => DropOf(r, k));
  }

  // ---- all pages -------------------------------------------------------------------------------------

  /** Every id on the pages is in the table. */
  ghost predicate AllKnown(ids: map<Key, ItemKey>, pages: seq<Page>) {
    forall i :: 0 <= i < |pages| ==> forall id :: id in pages[i].data ==> id in ids
  }

  /** The data of the pages a walk fetches, one after the other; each request takes a cutoff of its own. */
  ghost function AllData(s: State, ids: map<Key, ItemKey>, q: Query, cutoffs: seq<Time>, pages: seq<Page>)
    : seq<Suggestion>
    requires IdsOf(ids, s) && AllKnown(ids, pages) && |cutoffs| == |pages|
  {
    if pages == [] then []
    else Suggestions(s, ids, q.(cutoff := cutoffs[0]), pages[0].data) + AllData(s, ids, q, cutoffs[1..], pages[1..])
  }

  /** No row lies between the two cutoffs. */
  ghost predicate SameWindow(log: seq<AuditRow>, tenant: Id, a: Time, b: Time) {
    forall i :: 0 <= i < |log| ==> (InWindow(log[i], tenant, a) <==> InWindow(log[i], tenant, b))
  }

  lemma {:induction false} SameOutgoing(log: seq<AuditRow>, tenant: Id, k: ItemKey, a: Time, b: Time)
    requires SameWindow(log, tenant, a, b)
    ensures Outgoing(log, tenant, k, a) == Outgoing(log, tenant, k, b)
  {
    if log != [] {
      var n := |log| - 1;
      SameOutgoing(log[..n], tenant, k, a, b);
      OutgoingStep(log[..n], log[n], tenant, k, a);
      OutgoingStep(log[..n], log[n], tenant, k, b);
      assert log == log[..n] + [log[n]];
    }
  }

  lemma {:induction false} SameSuggestions(s: State, ids: map<Key, ItemKey>, q: Query, cutoff: Time, rows: seq<Key>)
    requires IdsOf(ids, s) && (forall id :: id in rows ==> id in ids) && SameWindow(s.audit, q.tenant, cutoff, q.cutoff)
    ensures Suggestions(s, ids, q.(cutoff := cutoff), rows) == Suggestions(s, ids, q, rows)
  {
    if rows != [] {
      var n := |rows| - 1;
      SameSuggestions(s, ids, q, cutoff, rows[..n]);
      SameOutgoing(s.audit, q.tenant, ids[rows[n]], cutoff, q.cutoff);
    }
  }

  lemma {:induction false} SuggestionsAppend(s: State, ids: map<Key, ItemKey>, q: Query, a: seq<Key>, b: seq<Key>)
    requires IdsOf(ids, s) && (forall id :: id in a ==> id in ids) && (forall id :: id in b ==> id in ids)
    ensures forall id :: id in a + b ==> id in ids
    ensures Suggestions(s, ids, q, a + b) == Suggestions(s, ids, q, a) + Suggestions(s, ids, q, b)
  {
    if b == [] {
      assert a + b == a;
    } else {
      var n := |b| - 1;
      assert (a + b)[..|a + b| - 1] == a + b[..n];
      SuggestionsAppend(s, ids, q, a, b[..n]);
    }
  }

  lemma {:induction false} AllDataIsOneList(
      s: State, ids: map<Key, ItemKey>, q: Query, cutoffs: seq<Time>, pages: seq<Page>)
    requires IdsOf(ids, s) && AllKnown(ids, pages) && |cutoffs| == |pages|
    requires forall i :: 0 <= i < |cutoffs| ==> SameWindow(s.audit, q.tenant, cutoffs[i], q.cutoff)
    ensures forall id :: id in Listed(pages) ==> id in ids
    ensures AllData(s, ids, q, cutoffs, pages) == Suggestions(s, ids, q, Listed(pages))
  {
    if pages != [] {
      AllDataIsOneList(s, ids, q, cutoffs[1..], pages[1..]);
      SameSuggestions(s, ids, q, cutoffs[0], pages[0].data);
      SuggestionsAppend(s, ids, q, pages[0].data, Listed(pages[1..]));
    }
  }

  lemma {:induction false} WalkPagesListed(keys: set<Key>, cursor: Option<Key>, limit: nat)
    ensures forall i :: 0 <= i < |Walk(keys, cursor, limit)| ==>
              forall id :: id in Walk(keys, cursor, limit)[i].data ==> id in keys
    decreases |After(keys, cursor)|
  {
    PageFacts(keys, cursor, limit);
    var page := PageOf(keys, cursor, limit);
    if page.next.Some? {
      PageMeaning(keys, cursor, limit);
      NextSelectsTheRest(keys, cursor, limit);
      WalkPagesListed(keys, page.next, limit);
    }
  }

  /**
    On data that stands still the pages of a forecast, short or empty as `reorder_only` may leave them, make up
    the forecast of all rows at once. Each page's request computes its own cutoff; it is enough that no audit row
    of the tenant lies between them.
  */
  lemma {:induction false} ForecastPagesMakeTheWhole(
      s: State, ids: map<Key, ItemKey>, q: Query, cutoffs: seq<Time>, limit: nat)
    requires IdsOf(ids, s) && limit >= 1 && |cutoffs| == |Walk(Joined(s, ids, q), None, limit)|
    requires forall i :: 0 <= i < |cutoffs| ==> SameWindow(s.audit, q.tenant, cutoffs[i], q.cutoff)
    ensures var pages, keys := Walk(Joined(s, ids, q), None, limit), Joined(s, ids, q);
            && AllKnown(ids, pages) && (forall id :: id in Sorted(keys) ==> id in ids)
            && AllData(s, ids, q, cutoffs, pages) == Suggestions(s, ids, q, Sorted(keys))
  {
    var keys := Joined(s, ids, q);
    WalkPagesListed(keys, None, limit);
    AllDataIsOneList(s, ids, q, cutoffs, Walk(keys, None, limit));
    WalkListsAll(keys, None, limit);
    assert After(keys, None) == keys;
  }

  /** `reorder_only` drops exactly the rows without urgency. */
  lemma {:induction false} ReorderOnlyDropsTheRest(s: State, ids: map<Key, ItemKey>, q: Query, rows: seq<Key>)
    requires IdsOf(ids, s) && (forall id :: id in rows ==> id in ids) && q.reorderOnly
    ensures Suggestions(s, ids, q, rows) == Urgent(Suggestions(s, ids, q.(reorderOnly := false), rows))
  {
    if rows != [] {
      var n := |rows| - 1;
      var all := q.(reorderOnly := false);
      ReorderOnlyDropsTheRest(s, ids, q, rows[..n]);
      var row, before := SuggestionFor(s, ids, all, rows[n]), Suggestions(s, ids, all, rows[..n]);
      assert row == SuggestionFor(s, ids, q, rows[n]);
      assert (before + [row])[..|before|] == before;
    }
  }

  function Urgent(rows: seq<Suggestion>): seq<Suggestion> {
    if rows == [] then []
    else
      var n := |rows| - 1;
      Urgent(rows[..n]) + if rows[n].urgency.NoUrgency? then [] else [rows[n]]
  }
}
