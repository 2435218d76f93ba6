/**
  What the two loops of a decay cycle have done after some of their rows: the rows, the audit rows, the
  counters, and the row steps of the serial model that amount to the same.
*/
module DecayLoop {
  import opened Wrappers
  import opened Ledger
  import opened DecayCycle

  datatype Phase = Marking | Discounting

  /** A cycle's clock and the acting user of each tenant that has one. */
  datatype Clock = Clock(phase: Phase, now: Time, users: map<Id, Id>)

  function UserFor(c: Clock, tenant: Id): Option<Id> {
    if tenant in c.users then Some(c.users[tenant]) else None
  }

  /** The loop may handle this row. */
  predicate Due(cat: Catalog, c: Clock, k: ItemKey, item: Item) {
    match c.phase
    case Marking => MarkFilter(cat.settings, c.now, item)
    case Discounting => DiscountFilter(cat.settings, c.now, item) && FindVariant(cat, item.tenant, k.variant).Some?
  }

  function After(cat: Catalog, c: Clock, k: ItemKey, item: Item): Item
    requires Due(cat, c, k, item)
  {
    match c.phase
    case Marking => MarkItem(c.now, item)
    case Discounting => DiscountItem(cat.settings, c.now, cat.variants[k.variant], item)
  }

  function StepOf(c: Clock, k: ItemKey, item: Item): Op {
    match c.phase
    case Marking => Mark(item.tenant, c.now, k, UserFor(c, item.tenant))
    case Discounting => Discount(item.tenant, c.now, k, UserFor(c, item.tenant))
  }

  function AuditFor(c: Clock, k: ItemKey, before: Item, after: Item): seq<AuditRow> {
    var user, action := UserFor(c, before.tenant), if c.phase.Marking? then DecayMarked else DecayDiscounted;
    if user.Some? then [ItemRow(before.tenant, user.value, action, k, before, after, c.now)] else []
  }

  /** A handled row leaves one audit row, in the name of its tenant's acting user if there is one. */
  lemma AuditForMeaning(c: Clock, k: ItemKey, before: Item, after: Item)
    ensures AuditFor(c, k, before, after) ==
            if before.tenant !in c.users then []
            else if c.phase == Marking then
              [ItemRow(before.tenant, c.users[before.tenant], DecayMarked, k, before, after, c.now)]
            else
              [ItemRow(before.tenant, c.users[before.tenant], DecayDiscounted, k, before, after, c.now)]
  {
  }

  ghost predicate AllDue(cat: Catalog, c: Clock, items: map<ItemKey, Item>, rows: set<ItemKey>) {
    forall k :: k in rows ==> k in items && Due(cat, c, k, items[k])
  }

  /** The rows `done` handled, the others as they were. */
  ghost function Handled(cat: Catalog, c: Clock, items: map<ItemKey, Item>, done: set<ItemKey>): map<ItemKey, Item>
    requires AllDue(cat, c, items, done)
  {
    map k | k in items :: if k in done then After(cat, c, k, items[k]) else items[k]
  }

  lemma HandleOneMore(cat: Catalog, c: Clock, items: map<ItemKey, Item>, done: set<ItemKey>, k: ItemKey)
    requires AllDue(cat, c, items, done + {k}) && k !in done
    ensures AllDue(cat, c, items, done) && AllDue(cat, c, items, {k}) && k in items
    ensures Handled(cat, c, items, done).Keys == items.Keys && Handled(cat, c, items, done)[k] == items[k]
    ensures Handled(cat, c, items, done + {k}) == Handled(cat, c, items, done)[k := After(cat, c, k, items[k])]
  {
  }

  // ---- the order in which the loop met its rows ------------------------------------------------------

  /** `order` lists the rows `done`, each once. */
  ghost predicate Lists(order: seq<ItemKey>, done: set<ItemKey>) {
    if order == [] then done == {}
    else order[|order| - 1] in done && Lists(order[..|order| - 1], done - {order[|order| - 1]})
  }

  lemma ListOneMore(order: seq<ItemKey>, done: set<ItemKey>, k: ItemKey)
    requires Lists(order, done) && k !in done
    ensures Lists(order + [k], done + {k})
  {
    assert (order + [k])[..|order|] == order && done + {k} - {k} == done;
  }

  /** The audit rows of the rows in `order`. */
  ghost function AuditOf(cat: Catalog, c: Clock, items: map<ItemKey, Item>, order: seq<ItemKey>): seq<AuditRow> {
    if order == [] then []
    else
      var k, prefix := order[|order| - 1], AuditOf(cat, c, items, order[..|order| - 1]);
      if k in items && Due(cat, c, k, items[k])
      then prefix + AuditFor(c, k, items[k], After(cat, c, k, items[k]))
      else prefix
  }

  ghost function StepsOf(c: Clock, items: map<ItemKey, Item>, order: seq<ItemKey>): (steps: seq<Op>)
    ensures StepsOn(steps, items.Keys)
  {
    if order == [] then []
    else
      var k, prefix := order[|order| - 1], StepsOf(c, items, order[..|order| - 1]);
      if k in items then prefix + [StepOf(c, k, items[k])] else prefix
  }

  lemma AuditOneMore(cat: Catalog, c: Clock, items: map<ItemKey, Item>, order: seq<ItemKey>, k: ItemKey)
    requires k in items && Due(cat, c, k, items[k])
    ensures AuditOf(cat, c, items, order + [k])
         == AuditOf(cat, c, items, order) + AuditFor(c, k, items[k], After(cat, c, k, items[k]))
  {
    assert (order + [k])[..|order|] == order;
  }

  /** The tables after the loop has met the rows in `order`. */
  ghost function LoopState(s: State, c: Clock, order: seq<ItemKey>, done: set<ItemKey>): State
    requires AllDue(s.cat, c, s.items, done)
  {
    s.(items := Handled(s.cat, c, s.items, done), audit := s.audit + AuditOf(s.cat, c, s.items, order))
  }

  /** The loop leaves the tables that its row steps leave when each is run as a call of its own. */
  lemma {:induction false} LoopIsRun(s: State, c: Clock, order: seq<ItemKey>, done: set<ItemKey>)
    requires AllDue(s.cat, c, s.items, done) && Lists(order, done)
    ensures Run(s, StepsOf(c, s.items, order)) == LoopState(s, c, order, done)
  {
    if order == [] {
      assert Handled(s.cat, c, s.items, done) == s.items;
    } else {
      var k, prefix := order[|order| - 1], order[..|order| - 1];
      var rest := done - {k};
      assert rest + {k} == done;
      LoopIsRun(s, c, prefix, rest);
      LoopStateNext(s, c, prefix, rest, k);
      RunHandles(s, StepsOf(c, s.items, prefix), LoopState(s, c, prefix, rest), c, k);
      assert prefix + [k] == order;
    }
  }

  /** A run, and then one row step. */
  lemma {:induction false} RunHandles(s: State, steps: seq<Op>, mid: State, c: Clock, k: ItemKey)
    requires Run(s, steps) == mid && k in mid.items && Due(mid.cat, c, k, mid.items[k])
    ensures Run(s, steps + [StepOf(c, k, mid.items[k])]) == HandleRow(mid, c, k)
  {
    HandleRowIsStep(mid, c, k);
    assert (steps + [StepOf(c, k, mid.items[k])])[..|steps|] == steps;
  }

  /** The tables after the row `k` of `s` is handled. */
  function HandleRow(s: State, c: Clock, k: ItemKey): State
    requires k in s.items && Due(s.cat, c, k, s.items[k])
  {
    var after := After(s.cat, c, k, s.items[k]);
    s.(items := s.items[k := after], audit := s.audit + AuditFor(c, k, s.items[k], after))
  }

  /** One more row from a state the loop passes through. */
  lemma {:induction false} LoopStateNext(s: State, c: Clock, order: seq<ItemKey>, done: set<ItemKey>, k: ItemKey)
    requires AllDue(s.cat, c, s.items, done + {k}) && k !in done
    ensures AllDue(s.cat, c, s.items, done) && k in s.items && Due(s.cat, c, k, s.items[k])
    ensures var mid := LoopState(s, c, order, done);
            && k in mid.items && mid.items[k] == s.items[k] && mid.cat == s.cat
            && HandleRow(mid, c, k) == LoopState(s, c, order + [k], done + {k})
  {
    HandleOneMore(s.cat, c, s.items, done, k);
    AuditOneMore(s.cat, c, s.items, order, k);
    var after := After(s.cat, c, k, s.items[k]);
    assert s.audit + (AuditOf(s.cat, c, s.items, order) + AuditFor(c, k, s.items[k], after))
        == s.audit + AuditOf(s.cat, c, s.items, order) + AuditFor(c, k, s.items[k], after);
  }

  lemma {:induction false} HandleRowIsStep(s: State, c: Clock, k: ItemKey)
    requires k in s.items && Due(s.cat, c, k, s.items[k])
    ensures Next(s, StepOf(c, k, s.items[k])) == HandleRow(s, c, k)
  {
    DecayNext(s, StepOf(c, k, s.items[k]));
    StepResult(s.cat, c, k, s.items[k]);
  }

  lemma StepResult(cat: Catalog, c: Clock, k: ItemKey, item: Item)
    requires Due(cat, c, k, item)
    ensures IsDecayStep(StepOf(c, k, item)) && StepOf(c, k, item).key == k
    ensures DecayResult(cat, StepOf(c, k, item), item) == Some(After(cat, c, k, item))
    ensures StockRows(StepOf(c, k, item), k, item, After(cat, c, k, item))
         == AuditFor(c, k, item, After(cat, c, k, item))
  {
  }

  // ---- the counters ----------------------------------------------------------------------------------

  function CountOf(byTenant: map<Id, nat>, tenant: Id): nat {
    if tenant in byTenant then byTenant[tenant] else 0
  }

  function OfTenant(rows: set<ItemKey>, items: map<ItemKey, Item>, tenant: Id): set<ItemKey> {
    set k | k in rows && k in items && items[k].tenant == tenant
  }

  /** The per-tenant counters after the rows in `order`. */
  function Counted(items: map<ItemKey, Item>, order: seq<ItemKey>): map<Id, nat> {
    if order == [] then map[]
    else
      var k, before := order[|order| - 1], Counted(items, order[..|order| - 1]);
      if k in items then before[items[k].tenant := CountOf(before, items[k].tenant) + 1] else before
  }

  lemma CountOneMore(items: map<ItemKey, Item>, order: seq<ItemKey>, k: ItemKey)
    requires k in items
    ensures var before := Counted(items, order);
            Counted(items, order + [k]) == before[items[k].tenant := CountOf(before, items[k].tenant) + 1]
  {
    assert (order + [k])[..|order|] == order;
  }

  /** Each tenant's counter is the number of its rows among those handled. */
  lemma {:induction false} CountsAreExact(items: map<ItemKey, Item>, order: seq<ItemKey>, done: set<ItemKey>, t: Id)
    requires Lists(order, done) && done <= items.Keys
    ensures CountOf(Counted(items, order), t) == |OfTenant(done, items, t)| && |order| == |done|
  {
    if order == [] {
      assert OfTenant(done, items, t) == {};
    } else {
      var k := order[|order| - 1];
      CountsAreExact(items, order[..|order| - 1], done - {k}, t);
      assert done == done - {k} + {k};
      if items[k].tenant == t {
        assert OfTenant(done, items, t) == OfTenant(done - {k}, items, t) + {k};
      } else {
        assert OfTenant(done, items, t) == OfTenant(done - {k}, items, t);
      }
    }
  }

  /** Where a loop stands: the rows `done` are handled, in the order `order`. */
  ghost predicate Halfway(
      start: State, c: Clock, done: set<ItemKey>, order: seq<ItemKey>, s: State, count: nat, byTenant: map<Id, nat>)
  {
    && AllDue(start.cat, c, start.items, done) && Lists(order, done) && s == LoopState(start, c, order, done)
    && count == |done| && byTenant == Counted(start.items, order)
  }

  lemma {:induction false} HalfwayStart(s: State, c: Clock)
    ensures Halfway(s, c, {}, [], s, 0, map[])
  {
    assert Handled(s.cat, c, s.items, {}) == s.items && s.audit + [] == s.audit;
  }

  lemma {:induction false} HalfwayNext(
      start: State, c: Clock, done: set<ItemKey>, order: seq<ItemKey>, s: State, count: nat, byTenant: map<Id, nat>,
      k: ItemKey)
    requires Halfway(start, c, done, order, s, count, byTenant)
    requires k in start.items && Due(start.cat, c, k, start.items[k]) && k !in done
    ensures k in s.items && Due(s.cat, c, k, s.items[k])
    ensures var t := s.items[k].tenant;
            Halfway(start, c, done + {k}, order + [k], HandleRow(s, c, k),
                    count + 1, byTenant[t := CountOf(byTenant, t) + 1])
  {
    LoopStateNext(start, c, order, done, k);
    CountOneMore(start.items, order, k);
    ListOneMore(order, done, k);
  }

  lemma {:induction false} HalfwayDone(
      start: State, c: Clock, rows: set<ItemKey>, order: seq<ItemKey>, s: State, count: nat, byTenant: map<Id, nat>)
    requires Halfway(start, c, rows, order, s, count, byTenant)
    ensures Finished(start, c, rows, order, s, count, byTenant)
  {
    LoopIsRun(start, c, order, rows);
    forall t ensures CountOf(byTenant, t) == |OfTenant(rows, start.items, t)| {
      CountsAreExact(start.items, order, rows, t);
    }
  }

  /** What a loop has done when no row is left. */
  ghost predicate Finished(
      start: State, c: Clock, rows: set<ItemKey>, order: seq<ItemKey>, s: State, count: nat, byTenant: map<Id, nat>)
  {
    && AllDue(start.cat, c, start.items, rows) && Lists(order, rows)
    && s == LoopState(start, c, order, rows)
    && s == Run(start, StepsOf(c, start.items, order))
    && count == |rows| && forall t :: CountOf(byTenant, t) == |OfTenant(rows, start.items, t)|
  }

  // ---- the two loops are the two halves of the cycle -------------------------------------------------

  lemma MarkingIsMarked(cat: Catalog, scope: Option<Id>, c: Clock, busy: set<ItemKey>, items: map<ItemKey, Item>)
    requires c.phase.Marking?
    ensures var rows := ToMark(cat, scope, c.now, busy, items);
            AllDue(cat, c, items, rows) && Handled(cat, c, items, rows) == Marked(cat, scope, c.now, busy, items)
  {
  }

  lemma DiscountingIsLowered(cat: Catalog, scope: Option<Id>, c: Clock, busy: set<ItemKey>, items: map<ItemKey, Item>)
    requires c.phase.Discounting? && Owned(cat, items)
    ensures var rows := ToDiscount(cat, scope, c.now, busy, items);
            AllDue(cat, c, items, rows) && Handled(cat, c, items, rows) == Lowered(cat, scope, c.now, busy, items)
  {
    forall k | k in items ensures FindVariant(cat, items[k].tenant, k.variant) == Some(cat.variants[k.variant]) {
      assert FindVariant(cat, items[k].tenant, k.variant).Some?;
    }
  }
}
