/** The dead-stock decay cycle: what one cycle does to all rows, and what any number of cycles can do to one row. */
module DecayCycle {
  import opened Wrappers
  import opened DecayPrice
  import opened Ledger
  import opened LedgerInvariant
  import opened Interleaving

  /** A cycle's scope: one tenant (the admin's manual run) or all of them (the scheduled run). */
  predicate InScope(scope: Option<Id>, tenant: Id) { scope.None? || scope.value == tenant }

  /** The variants a cycle loads. */
  function ScopedVariant(cat: Catalog, scope: Option<Id>, variant: Id): Option<Variant> {
    if variant in cat.variants && InScope(scope, cat.variants[variant].tenant) then Some(cat.variants[variant])
    else None
  }

  /** The rows the first SELECT returns when `busy` are locked by others. */
  function ToMark(cat: Catalog, scope: Option<Id>, now: Time, busy: set<ItemKey>, items: map<ItemKey, Item>)
    : set<ItemKey>
  {
    set k | k in items && k !in busy && InScope(scope, items[k].tenant) && MarkFilter(cat.settings, now, items[k])
  }

  /** The rows the second SELECT returns, less those whose variant was not loaded. */
  function ToDiscount(cat: Catalog, scope: Option<Id>, now: Time, busy: set<ItemKey>, items: map<ItemKey, Item>)
    : set<ItemKey>
  {
    set k | k in items && k !in busy && InScope(scope, items[k].tenant) && DiscountFilter(cat.settings, now, items[k])
            && ScopedVariant(cat, scope, k.variant).Some?
  }

  function Marked(cat: Catalog, scope: Option<Id>, now: Time, busy: set<ItemKey>, items: map<ItemKey, Item>)
    : map<ItemKey, Item>
  {
    map k | k in items :: if k in ToMark(cat, scope, now, busy, items) then MarkItem(now, items[k]) else items[k]
  }

  function Lowered(cat: Catalog, scope: Option<Id>, now: Time, busy: set<ItemKey>, items: map<ItemKey, Item>)
    : map<ItemKey, Item>
  {
    map k | k in items ::
      if k in ToDiscount(cat, scope, now, busy, items)
      then DiscountItem(cat.settings, now, cat.variants[k.variant], items[k]) else items[k]
  }

  /** One whole cycle that finds no row locked. */
  function Cycled(cat: Catalog, scope: Option<Id>, now: Time, items: map<ItemKey, Item>): map<ItemKey, Item> {
    Lowered(cat, scope, now, {}, Marked(cat, scope, now, {}, items))
  }

  function MarkedCount(cat: Catalog, scope: Option<Id>, now: Time, items: map<ItemKey, Item>): nat {
    |ToMark(cat, scope, now, {}, items)|
  }

  function DiscountedCount(cat: Catalog, scope: Option<Id>, now: Time, items: map<ItemKey, Item>): nat {
    |ToDiscount(cat, scope, now, {}, Marked(cat, scope, now, {}, items))|
  }

  /** Every item and its variant belong to the same tenant. */
  ghost predicate Owned(cat: Catalog, items: map<ItemKey, Item>) {
    forall k :: k in items ==> FindVariant(cat, items[k].tenant, k.variant).Some?
  }

  /** Reachable tables meet this, so a cycle never skips a row because its variant was not loaded. */
  lemma {:induction false} ReachableIsOwned(s: State, ops: seq<Op>)
    requires Inv(s)
    ensures Owned(Run(s, ops).cat, Run(s, ops).items)
  {
    RunKeepsInv(s, ops);
    var end := Run(s, ops);
    forall k | k in end.items ensures FindVariant(end.cat, end.items[k].tenant, k.variant).Some? {
      assert ItemOk(end.cat, k, end.items[k]);
    }
  }

  /** What a cycle makes of one row in its scope. */
  function CycledItem(cat: Catalog, now: Time, key: ItemKey, item: Item): Item
    requires FindVariant(cat, item.tenant, key.variant).Some?
  {
    if MarkFilter(cat.settings, now, item) then MarkItem(now, item)
    else if DiscountFilter(cat.settings, now, item) then
      DiscountItem(cat.settings, now, FindVariant(cat, item.tenant, key.variant).value, item)
    else item
  }

  /** A row marked in a cycle is not discounted in the same cycle, and each row is handled on its own. */
  lemma {:induction false} CycleIsPerItem(cat: Catalog, scope: Option<Id>, now: Time, items: map<ItemKey, Item>)
    requires Owned(cat, items)
    ensures Cycled(cat, scope, now, items)
            == map k | k in items ::
                 if InScope(scope, items[k].tenant) then CycledItem(cat, now, k, items[k]) else items[k]
    ensures ToDiscount(cat, scope, now, {}, Marked(cat, scope, now, {}, items))
            == (set k | k in items && InScope(scope, items[k].tenant) && DiscountFilter(cat.settings, now, items[k]))
    ensures Owned(cat, Cycled(cat, scope, now, items))
  {
    var mid := Marked(cat, scope, now, {}, items);
    forall k | k in items
      ensures mid[k].tenant == items[k].tenant
      ensures k in ToDiscount(cat, scope, now, {}, mid)
              <==> InScope(scope, items[k].tenant) && DiscountFilter(cat.settings, now, items[k])
    {
      assert FindVariant(cat, items[k].tenant, k.variant).Some?;
      MarkedIsNotDue(cat.settings, now, items[k]);
    }
  }

  /** The row is to be marked: normal, and last sold more than the start age ago. */
  ghost predicate Stale(cat: Catalog, scope: Option<Id>, now: Time, busy: set<ItemKey>, k: ItemKey, row: Item) {
    && (scope.None? || scope.value == row.tenant) && k !in busy && row.decayStatus == Normal
    && row.lastSold.Some? && now - row.lastSold.value > cat.settings.startAge
  }

  /** The row is to be discounted: liquidating, and last stamped at least an interval ago. */
  ghost predicate Ripe(cat: Catalog, scope: Option<Id>, now: Time, busy: set<ItemKey>, k: ItemKey, row: Item) {
    && (scope.None? || scope.value == row.tenant) && k !in busy && row.decayStatus == Liquidating
    && row.decayStarted.Some? && now - row.decayStarted.value >= cat.settings.interval
  }

  /** Stale rows are marked, ripe rows are discounted, and nothing else is touched. */
  ghost predicate CycledOnly(
      cat: Catalog, scope: Option<Id>, now: Time, busyMark: set<ItemKey>, busyDiscount: set<ItemKey>,
      before: map<ItemKey, Item>, after: map<ItemKey, Item>)
  {
    && after.Keys == before.Keys
    && forall k :: k in before ==>
         && k.variant in cat.variants
         && after[k] ==
            var row := before[k];
            if Stale(cat, scope, now, busyMark, k, row) then row.(decayStatus := Liquidating, decayStarted := Some(now))
            else if Ripe(cat, scope, now, busyDiscount, k, row) then
              row.(price := CalculateDecayPrice(row.price, cat.variants[k.variant].floorPrice, cat.settings.pct),
                   decayStarted := Some(now))
            else row
  }

  /**
    A cycle marks exactly the stale rows and discounts exactly the ripe ones, whichever rows others hold locked, and
    these are the rows its two counters count.
  */
  lemma {:induction false} CycleMeaning(
      cat: Catalog, scope: Option<Id>, now: Time, busyMark: set<ItemKey>, busyDiscount: set<ItemKey>,
      items: map<ItemKey, Item>)
    requires Owned(cat, items)
    ensures var mid := Marked(cat, scope, now, busyMark, items);
            && CycledOnly(cat, scope, now, busyMark, busyDiscount, items, Lowered(cat, scope, now, busyDiscount, mid))
            && ToMark(cat, scope, now, busyMark, items)
               == (set k | k in items && Stale(cat, scope, now, busyMark, k, items[k]))
            && ToDiscount(cat, scope, now, busyDiscount, mid)
               == (set k | k in items && Ripe(cat, scope, now, busyDiscount, k, items[k]))
  {
    forall k | k in items ensures k.variant in cat.variants && FindVariant(cat, items[k].tenant, k.variant).Some? {
      assert FindVariant(cat, items[k].tenant, k.variant).Some?;
    }
  }

  lemma MarkedIsNotDue(settings: Settings, now: Time, item: Item)
    ensures !DiscountFilter(settings, now, MarkItem(now, item))
    ensures MarkFilter(settings, now, item) ==> !DiscountFilter(settings, now, item)
  {
  }

  /** After its cycle a row matches neither filter at the same `now`. */
  lemma {:induction false} CycledItemIsDone(cat: Catalog, now: Time, key: ItemKey, item: Item)
    requires FindVariant(cat, item.tenant, key.variant).Some?
    ensures var after := CycledItem(cat, now, key, item);
            && after.tenant == item.tenant && after.quantity == item.quantity
            && !MarkFilter(cat.settings, now, after) && !DiscountFilter(cat.settings, now, after)
            && CycledItem(cat, now, key, after) == after
  {
  }

  // ---- one global cycle or one per tenant ------------------------------------------------------------

  /** The cycles of the tenants `ts`, one after the other, at the same `now`. */
  function CycledFor(cat: Catalog, ts: seq<Id>, now: Time, items: map<ItemKey, Item>): map<ItemKey, Item> {
    if ts == [] then items
    else Cycled(cat, Some(ts[|ts| - 1]), now, CycledFor(cat, ts[..|ts| - 1], now, items))
  }

  /** The counters those cycles return, added up. */
  function CountsFor(cat: Catalog, ts: seq<Id>, now: Time, items: map<ItemKey, Item>): (nat, nat) {
    if ts == [] then (0, 0)
    else
      var prefix := ts[..|ts| - 1];
      var mid, before := CycledFor(cat, prefix, now, items), CountsFor(cat, prefix, now, items);
      (before.0 + MarkedCount(cat, Some(ts[|ts| - 1]), now, mid),
       before.1 + DiscountedCount(cat, Some(ts[|ts| - 1]), now, mid))
  }

  /**
    A global cycle leaves the same rows as one cycle per tenant at the same `now`, in any order and with any
    repeats, and its counters are the sums of theirs.
  */
  lemma {:induction false} GlobalCycleIsTenantCycles(cat: Catalog, ts: seq<Id>, now: Time, items: map<ItemKey, Item>)
    requires Owned(cat, items)
    requires forall k :: k in items ==> items[k].tenant in ts
    ensures CycledFor(cat, ts, now, items) == Cycled(cat, None, now, items)
    ensures CountsFor(cat, ts, now, items)
         == (MarkedCount(cat, None, now, items), DiscountedCount(cat, None, now, items))
  {
    TenantCyclesCover(cat, ts, now, items);
    TenantCountsCover(cat, ts, now, items);
    AllTenantsAreGlobal(cat, ts, now, items);
  }

  lemma {:induction false} AllTenantsAreGlobal(cat: Catalog, ts: seq<Id>, now: Time, items: map<ItemKey, Item>)
    requires Owned(cat, items)
    requires forall k :: k in items ==> items[k].tenant in ts
    ensures PartlyCycled(cat, ts, now, items) == Cycled(cat, None, now, items)
    ensures MarkDue(cat, ts, now, items) == ToMark(cat, None, now, {}, items)
    ensures DiscountDue(cat, ts, now, items) == ToDiscount(cat, None, now, {}, Marked(cat, None, now, {}, items))
  {
    CycleIsPerItem(cat, None, now, items);
  }

  /** A second cycle at the same `now` changes nothing and returns (0, 0). */
  lemma {:induction false} SecondCycleDoesNothing(cat: Catalog, scope: Option<Id>, now: Time, items: map<ItemKey, Item>)
    requires Owned(cat, items)
    ensures var after := Cycled(cat, scope, now, items);
            && Cycled(cat, scope, now, after) == after
            && MarkedCount(cat, scope, now, after) == 0 && DiscountedCount(cat, scope, now, after) == 0
  {
    var after := Cycled(cat, scope, now, items);
    CycleIsPerItem(cat, scope, now, items);
    CycleIsPerItem(cat, scope, now, after);
    forall k | k in items && InScope(scope, items[k].tenant)
      ensures !MarkFilter(cat.settings, now, after[k]) && !DiscountFilter(cat.settings, now, after[k])
      ensures CycledItem(cat, now, k, after[k]) == after[k] && after[k].tenant == items[k].tenant
    {
      CycledItemIsDone(cat, now, k, items[k]);
    }
    assert ToMark(cat, scope, now, {}, after) == {};
    assert ToDiscount(cat, scope, now, {}, Marked(cat, scope, now, {}, after)) == {};
  }

  function MarkDue(cat: Catalog, ts: seq<Id>, now: Time, items: map<ItemKey, Item>): set<ItemKey> {
    set k | k in items && items[k].tenant in ts && MarkFilter(cat.settings, now, items[k])
  }

  function DiscountDue(cat: Catalog, ts: seq<Id>, now: Time, items: map<ItemKey, Item>): set<ItemKey> {
    set k | k in items && items[k].tenant in ts && DiscountFilter(cat.settings, now, items[k])
  }

  /** The rows of the tenants `ts` cycled, the others as they were. */
  function PartlyCycled(cat: Catalog, ts: seq<Id>, now: Time, items: map<ItemKey, Item>): map<ItemKey, Item>
    requires Owned(cat, items)
  {
    map k | k in items :: if items[k].tenant in ts then CycledItem(cat, now, k, items[k]) else items[k]
  }

  lemma {:induction false} TenantCyclesCover(cat: Catalog, ts: seq<Id>, now: Time, items: map<ItemKey, Item>)
    requires Owned(cat, items)
    ensures CycledFor(cat, ts, now, items) == PartlyCycled(cat, ts, now, items)
  {
    if ts != [] {
      var prefix, t := ts[..|ts| - 1], ts[|ts| - 1];
      TenantCyclesCover(cat, prefix, now, items);
      OneMoreCycle(cat, prefix, t, now, items);
      assert ts == prefix + [t];
    }
  }

  lemma {:induction false} TenantCountsCover(cat: Catalog, ts: seq<Id>, now: Time, items: map<ItemKey, Item>)
    requires Owned(cat, items)
    ensures CountsFor(cat, ts, now, items).0 == |MarkDue(cat, ts, now, items)|
    ensures CountsFor(cat, ts, now, items).1 == |DiscountDue(cat, ts, now, items)|
  {
    if ts == [] {
      NobodyIsDue(cat, now, items);
    } else {
      var n := |ts| - 1;
      TenantCountsCover(cat, ts[..n], now, items);
      OneMoreTenant(cat, ts, now, items);
    }
  }

  lemma {:induction false} OneMoreTenant(cat: Catalog, ts: seq<Id>, now: Time, items: map<ItemKey, Item>)
    requires Owned(cat, items) && ts != []
    ensures var prefix := ts[..|ts| - 1];
            && CountsFor(cat, ts, now, items).0 - CountsFor(cat, prefix, now, items).0
               == |MarkDue(cat, ts, now, items)| - |MarkDue(cat, prefix, now, items)|
            && CountsFor(cat, ts, now, items).1 - CountsFor(cat, prefix, now, items).1
               == |DiscountDue(cat, ts, now, items)| - |DiscountDue(cat, prefix, now, items)|
  {
    TenantCyclesCover(cat, ts[..|ts| - 1], now, items);
    OneMoreCount(cat, ts, now, items, CycledFor(cat, ts[..|ts| - 1], now, items));
  }

  lemma NobodyIsDue(cat: Catalog, now: Time, items: map<ItemKey, Item>)
    ensures MarkDue(cat, [], now, items) == {} && DiscountDue(cat, [], now, items) == {}
  {
  }

  lemma {:induction false} PartlyCycledRows(cat: Catalog, ts: seq<Id>, t: Id, now: Time, items: map<ItemKey, Item>)
    requires Owned(cat, items)
    ensures var mid := PartlyCycled(cat, ts, now, items);
            && Owned(cat, mid)
            && forall k :: k in items ==>
                 && mid[k].tenant == items[k].tenant
                 && CycledItem(cat, now, k, mid[k]) == CycledItem(cat, now, k, items[k])
                 && (items[k].tenant in ts ==>
                       !MarkFilter(cat.settings, now, mid[k]) && !DiscountFilter(cat.settings, now, mid[k]))
  {
    forall k | k in items {
      CycledItemIsDone(cat, now, k, items[k]);
    }
  }

  lemma {:induction false} OneMoreCycle(cat: Catalog, ts: seq<Id>, t: Id, now: Time, items: map<ItemKey, Item>)
    requires Owned(cat, items)
    ensures Cycled(cat, Some(t), now, PartlyCycled(cat, ts, now, items)) == PartlyCycled(cat, ts + [t], now, items)
  {
    PartlyCycledRows(cat, ts, t, now, items);
    CycleIsPerItem(cat, Some(t), now, PartlyCycled(cat, ts, now, items));
  }

  /** The rows due under `ts` are those due without its last tenant, and those its cycle then finds. */
  lemma {:induction false} OneMoreCount(
      cat: Catalog, ts: seq<Id>, now: Time, items: map<ItemKey, Item>, mid: map<ItemKey, Item>)
    requires Owned(cat, items) && ts != [] && mid == PartlyCycled(cat, ts[..|ts| - 1], now, items)
    ensures var n := |ts| - 1;
            && |MarkDue(cat, ts, now, items)|
               == |MarkDue(cat, ts[..n], now, items)| + MarkedCount(cat, Some(ts[n]), now, mid)
            && |DiscountDue(cat, ts, now, items)|
               == |DiscountDue(cat, ts[..n], now, items)| + DiscountedCount(cat, Some(ts[n]), now, mid)
  {
    var n := |ts| - 1;
    var prefix, t := ts[..n], ts[n];
    assert forall x :: x in ts <==> x in prefix || x == t by { assert ts == prefix + [t]; }
    PartlyCycledRows(cat, prefix, t, now, items);
    CycleIsPerItem(cat, Some(t), now, mid);
    DisjointSizes(MarkDue(cat, prefix, now, items), ToMark(cat, Some(t), now, {}, mid), MarkDue(cat, ts, now, items));
    DisjointSizes(DiscountDue(cat, prefix, now, items),
                  ToDiscount(cat, Some(t), now, {}, Marked(cat, Some(t), now, {}, mid)),
                  DiscountDue(cat, ts, now, items));
  }

  lemma {:induction false} DisjointSizes(a: set<ItemKey>, b: set<ItemKey>, whole: set<ItemKey>)
    requires forall k :: k in whole <==> k in a || k in b
    requires forall k :: k in a ==> k !in b
    ensures |whole| == |a| + |b|
  {
    assert whole == a + b && a !! b;
  }

  // ---- one row over all runs -------------------------------------------------------------------------

  /** Discounts that a run applies to an inventory row. */
  function DiscountsOf(s: State, ops: seq<Op>, key: ItemKey): nat {
    if ops == [] then 0
    else
      var prefix, op := ops[..|ops| - 1], ops[|ops| - 1];
      DiscountsOf(s, prefix, key) + if op.Discount? && op.key == key && Commits(Run(s, prefix), op) then 1 else 0
  }

  /**
    Rate limit: whatever the clocks of the runs, a liquidating row stays liquidating and its n discounts take
    at least n intervals from its first stamp to its last.
  */
  lemma {:induction false} DiscountsAreSpaced(s: State, ops: seq<Op>, key: ItemKey)
    requires key in s.items && s.items[key].decayStatus.Liquidating? && s.items[key].decayStarted.Some?
    ensures var end := Run(s, ops);
            && key in end.items && end.items[key].decayStatus.Liquidating? && end.items[key].decayStarted.Some?
            && DiscountsOf(s, ops, key) * s.cat.settings.interval
               <= end.items[key].decayStarted.value - s.items[key].decayStarted.value
            && end.cat.settings == s.cat.settings
  {
    hide Next, Commits;
    if ops != [] {
      var prefix, op := ops[..|ops| - 1], ops[|ops| - 1];
      DiscountsAreSpaced(s, prefix, key);
      SpacedStep(Run(s, prefix), op, key);
      OneMore(DiscountsOf(s, prefix, key), s.cat.settings.interval);
    }
  }

  lemma OneMore(n: int, interval: int)
    ensures (n + 1) * interval == n * interval + interval
  {
  }

  /** One step of a liquidating row: its stamp moves only by a discount, and then by an interval or more. */
  lemma {:induction false} SpacedStep(s: State, op: Op, key: ItemKey)
    requires key in s.items && s.items[key].decayStatus.Liquidating? && s.items[key].decayStarted.Some?
    ensures var row, next := s.items[key], Next(s, op);
            && key in next.items && next.items[key].decayStatus.Liquidating? && next.items[key].decayStarted.Some?
            && next.cat.settings == s.cat.settings
            && (if op.Discount? && op.key == key && Commits(s, op)
                then next.items[key].decayStarted.value >= row.decayStarted.value + s.cat.settings.interval
                else next.items[key].decayStarted == row.decayStarted)
  {
    StampStep(s, op, key);
  }

  /** Only a committed decay step on the row itself moves its status, stamp or price. */
  lemma {:induction false} StampStep(s: State, op: Op, key: ItemKey)
    requires key in s.items
    ensures var row, next := s.items[key], Next(s, op);
            && key in next.items && next.cat.settings == s.cat.settings
            && (if IsDecayStep(op) && op.key == key && DecayResult(s.cat, op, row).Some?
                then Commits(s, op) && next.items[key] == DecayResult(s.cat, op, row).value
                else !(Commits(s, op) && IsDecayStep(op) && op.key == key)
                     && next.items[key].decayStatus == row.decayStatus
                     && next.items[key].decayStarted == row.decayStarted && next.items[key].price == row.price)
  {
    if IsEdit(op) {
      EditKeepsSettings(s.cat, op);
    } else if IsDecayStep(op) {
      if op.key in s.items { DecayNext(s, op); } else { MissingRowStep(s, op); }
    } else if Commits(s, op) {
      CommitPassed(s, op);
      StockCallKeepsStamp(s, op, DocAt(s, op), ItemAt(s, op), key);
    }
  }

  lemma EditKeepsSettings(cat: Catalog, op: Op)
    requires IsEdit(op)
    ensures Edit(cat, op).0.settings == cat.settings
  {
  }

  lemma MissingRowStep(s: State, op: Op)
    requires IsDecayStep(op) && op.key !in s.items
    ensures Next(s, op) == s && !Commits(s, op)
  {
  }

  lemma {:induction false} StockCallKeepsStamp(s: State, op: Op, doc: Doc, item: Option<Item>, key: ItemKey)
    requires Passed(s, op, doc, item) && !IsDecayStep(op) && key in s.items
    ensures var next := Install(s, Effect(s.cat, op, doc, item));
            && key in next.items
            && next.items[key].decayStatus == s.items[key].decayStatus
            && next.items[key].decayStarted == s.items[key].decayStarted && next.items[key].price == s.items[key].price
  {
  }

  /** The same over every interleaving: overlapping cycles do not discount a row twice within an interval. */
  lemma {:induction false} OverlappingCyclesAreSpaced(start: Sys, es: seq<Event>, key: ItemKey)
    requires Quiet(start) && key in start.db.items
    requires start.db.items[key].decayStatus.Liquidating? && start.db.items[key].decayStarted.Some?
    ensures var end := Exec(start, es);
            && key in end.db.items && end.db.items[key].decayStatus.Liquidating? && end.db.items[key].decayStarted.Some?
            && DiscountsOf(start.db, end.commits, key) * start.db.cat.settings.interval
               <= end.db.items[key].decayStarted.value - start.db.items[key].decayStarted.value
  {
    InterleavingsAreSerial(start, es);
    DiscountsAreSpaced(start.db, Exec(start, es).commits, key);
  }

  /** Whatever the call, a row turns liquidating only by a mark, and only when it was last sold long enough ago. */
  lemma {:induction false} LiquidationNeedsAge(s: State, op: Op, key: ItemKey)
    requires key in s.items && s.items[key].decayStatus == Normal
    requires key in Next(s, op).items && Next(s, op).items[key].decayStatus == Liquidating
    ensures op.Mark? && op.key == key
    ensures var row, next := s.items[key], Next(s, op).items[key];
            && row.lastSold.Some? && op.now - row.lastSold.value > s.cat.settings.startAge
            && next == row.(decayStatus := Liquidating, decayStarted := Some(op.now))
  {
    StampStep(s, op, key);
  }

  // ---- the price band --------------------------------------------------------------------------------

  /** Every row is priced between its variant's floor and selling price. */
  ghost predicate PriceBand(s: State) {
    forall k :: k in s.items && k.variant in s.cat.variants ==>
      s.cat.variants[k.variant].floorPrice <= s.items[k].price <= s.cat.variants[k.variant].sellingPrice
  }

  /** While no variant is edited, every row keeps floor <= price <= selling price. */
  lemma {:induction false} PricesStayInBand(s: State, ops: seq<Op>)
    requires Inv(s) && PriceBand(s)
    requires forall i :: 0 <= i < |ops| ==> !ops[i].EditVariant?
    ensures PriceBand(Run(s, ops))
  {
    if ops != [] {
      var prefix := ops[..|ops| - 1];
      PricesStayInBand(s, prefix);
      RunKeepsInv(s, prefix);
      BandStep(Run(s, prefix), ops[|ops| - 1]);
    }
  }

  lemma {:induction false} BandStep(s: State, op: Op)
    requires Inv(s) && PriceBand(s) && !op.EditVariant?
    ensures PriceBand(Next(s, op))
  {
    var next := Next(s, op);
    assert next.cat.variants == s.cat.variants;
    forall k | k in next.items && k.variant in next.cat.variants
      ensures s.cat.variants[k.variant].floorPrice <= next.items[k].price <= s.cat.variants[k.variant].sellingPrice
    {
      if k in s.items {
        assert ItemOk(s.cat, k, s.items[k]);
        StampStep(s, op, k);
        var v := s.cat.variants[k.variant];
        DecayNeverRaisesIffAtFloor(s.items[k].price, v.floorPrice, v.sellingPrice, s.cat.settings.pct);
      } else {
        CommitPassed(s, op);
        NewRowIsAtSellingPrice(s, op, DocAt(s, op), ItemAt(s, op), k);
      }
    }
  }

  lemma {:induction false} NewRowIsAtSellingPrice(s: State, op: Op, doc: Doc, item: Option<Item>, k: ItemKey)
    requires Inv(s) && Passed(s, op, doc, item) && k !in s.items && k in Install(s, Effect(s.cat, op, doc, item)).items
    ensures k.variant in s.cat.variants
    ensures Install(s, Effect(s.cat, op, doc, item)).items[k].price == s.cat.variants[k.variant].sellingPrice
  {
    hide Inv;
  }

  /** An edit that goes through keeps the band exactly when the variant's rows are already priced within the new one. */
  lemma {:induction false} EditKeepsBandIff(s: State, op: Op)
    requires Inv(s) && PriceBand(s) && op.EditVariant? && Apply(s, op).1.Done?
    ensures op.variant in s.cat.variants
    ensures var row := s.cat.variants[op.variant];
            var top, floor := Patched(op.selling, row.sellingPrice), Patched(op.floor, row.floorPrice);
            && top.Some? && floor.Some?
            && (PriceBand(Next(s, op)) <==>
                  forall k :: k in s.items && k.variant == op.variant ==> floor.value <= s.items[k].price <= top.value)
  {
    var next := Next(s, op);
    var row := s.cat.variants[op.variant];
    var top, floor := Patched(op.selling, row.sellingPrice), Patched(op.floor, row.floorPrice);
    assert next.items == s.items;
    assert next.cat.variants
        == s.cat.variants[op.variant := row.(sellingPrice := top.value, floorPrice := floor.value)];
  }

  /** An edit can break the band at once: lowering the selling price does not touch the rows. */
  lemma EditCanBreakBand(settings: Settings)
    ensures var cat := Catalog(settings, map[1 := Variant(7, 500, 300)], map[2 := Warehouse(7, true)], map[]);
            var s := State(cat, map[ItemKey(1, 2) := FreshItem(7, Variant(7, 500, 300))], map[], map[], []);
            Inv(s) && PriceBand(s) && !PriceBand(Next(s, EditVariant(7, 1, Given(400), Unset)))
  {
    var cat := Catalog(settings, map[1 := Variant(7, 500, 300)], map[2 := Warehouse(7, true)], map[]);
    var s := State(cat, map[ItemKey(1, 2) := FreshItem(7, Variant(7, 500, 300))], map[], map[], []);
    var next := Next(s, EditVariant(7, 1, Given(400), Unset));
    assert next.items[ItemKey(1, 2)].price == 500 && next.cat.variants[1].sellingPrice == 400;
  }

  // ---- a decay step that raises a price --------------------------------------------------------------

  function ShopCatalog(settings: Settings, floor: int, selling: int): Catalog {
    Catalog(settings, map[1 := Variant(7, selling, floor)], map[2 := Warehouse(7, true)], map[])
  }

  /** Stock bought, sold once, marked, and its variant's floor then raised above the row's price. */
  function CallsBeforeRaise(settings: Settings): seq<Op> {
    [Adjust(7, 3, 0, ItemKey(1, 2), 4, "surplus")] + [Sold(7, 0, ItemKey(1, 2))]
    + [Mark(7, settings.startAge + 1, ItemKey(1, 2), None)] + [EditVariant(7, 1, Given(700), Given(600))]
  }

  function RaisingDiscount(settings: Settings): Op {
    Discount(7, settings.startAge + 1 + settings.interval, ItemKey(1, 2), None)
  }

  /** From empty tables those calls leave a row at 500 cents, and the discount that is then due takes it to 600. */
  lemma {:induction false} DecayCanRaise(settings: Settings)
    ensures var start := State(ShopCatalog(settings, 300, 500), map[], map[], map[], []);
            var before := Run(start, CallsBeforeRaise(settings));
            var after := Run(start, CallsBeforeRaise(settings) + [RaisingDiscount(settings)]);
            && Inv(start) && PriceBand(start)
            && ItemKey(1, 2) in before.items && before.items[ItemKey(1, 2)].price == 500
            && ItemKey(1, 2) in after.items && after.items[ItemKey(1, 2)].price == 600
  {
    hide Next, Run;
    var start := State(ShopCatalog(settings, 300, 500), map[], map[], map[], []);
    var first := [Adjust(7, 3, 0, ItemKey(1, 2), 4, "surplus")] + [Sold(7, 0, ItemKey(1, 2))];
    var mark := Mark(7, settings.startAge + 1, ItemKey(1, 2), None);
    StartOfRun(settings);
    RunSnoc(start, first, mark);
    RunSnoc(start, first + [mark], EditVariant(7, 1, Given(700), Given(600)));
    RunSnoc(start, CallsBeforeRaise(settings), RaisingDiscount(settings));
    RowIsMarked(settings, Run(start, first));
    EndOfRun(settings, Run(start, first + [mark]));
  }

  lemma {:induction false} StartOfRun(settings: Settings)
    ensures var start := State(ShopCatalog(settings, 300, 500), map[], map[], map[], []);
            var s := Run(start, [Adjust(7, 3, 0, ItemKey(1, 2), 4, "surplus")] + [Sold(7, 0, ItemKey(1, 2))]);
            && s.cat == start.cat && ItemKey(1, 2) in s.items
            && s.items[ItemKey(1, 2)] == Item(7, 4, 5, Some(0), Normal, None, 500)
  {
    var start := State(ShopCatalog(settings, 300, 500), map[], map[], map[], []);
    var a, b := Adjust(7, 3, 0, ItemKey(1, 2), 4, "surplus"), Sold(7, 0, ItemKey(1, 2));
    RunOne(start, a);
    RunSnoc(start, [a], b);
    PassedCommits(start, a, NoDoc, None);
    CommitPassed(start, a);
    var s := Next(start, a);
    assert s.items[ItemKey(1, 2)] == Item(7, 4, 5, None, Normal, None, 500);
    PassedCommits(s, b, NoDoc, Some(s.items[ItemKey(1, 2)]));
    CommitPassed(s, b);
  }

  lemma {:induction false} RowIsMarked(settings: Settings, s: State)
    requires s.cat == ShopCatalog(settings, 300, 500) && ItemKey(1, 2) in s.items
    requires s.items[ItemKey(1, 2)] == Item(7, 4, 5, Some(0), Normal, None, 500)
    ensures var next := Next(s, Mark(7, settings.startAge + 1, ItemKey(1, 2), None));
            && next.cat == s.cat && ItemKey(1, 2) in next.items
            && next.items[ItemKey(1, 2)] == Item(7, 4, 5, Some(0), Liquidating, Some(settings.startAge + 1), 500)
  {
    DecayNext(s, Mark(7, settings.startAge + 1, ItemKey(1, 2), None));
  }

  lemma {:induction false} EndOfRun(settings: Settings, s: State)
    requires s.cat == ShopCatalog(settings, 300, 500) && ItemKey(1, 2) in s.items
    requires s.items[ItemKey(1, 2)] == Item(7, 4, 5, Some(0), Liquidating, Some(settings.startAge + 1), 500)
    ensures var mid := Next(s, EditVariant(7, 1, Given(700), Given(600)));
            var end := Next(mid, RaisingDiscount(settings));
            && ItemKey(1, 2) in mid.items && mid.items[ItemKey(1, 2)].price == 500
            && ItemKey(1, 2) in end.items && end.items[ItemKey(1, 2)].price == 600
  {
    var mid := Next(s, EditVariant(7, 1, Given(700), Given(600)));
    assert mid.items == s.items && mid.cat.settings == settings && mid.cat.variants[1] == Variant(7, 700, 600);
    DecayNext(mid, RaisingDiscount(settings));
    DiscountedFacts(500, settings.pct);
  }
}
