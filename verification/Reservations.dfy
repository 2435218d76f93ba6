/**
  Stock reservations for one (tenant, warehouse, variant): Redis keys with a time to live, written under a
  Redis lock, against a stock row that other transactions change without asking.
*/
module Reservations {
  import opened Wrappers
  import opened Sums

  type Time = int
  /** A reservation's key, a uuid prefix; and a running call. */
  type Key = nat
  type Caller = nat
  type Pos = n: int | n >= 1 witness 1

  datatype Entry = Entry(quantity: Pos, expires: Time)

  /** What GET finds under a key. */
  function Payload(redis: map<Key, Entry>, now: Time, k: Key): nat {
    if k in redis && redis[k].expires > now then redis[k].quantity else 0
  }

  /** The quantities of the reservations that have not expired. */
  ghost function Live(redis: map<Key, Entry>, now: Time): map<Key, int> {
    map k | k in redis && redis[k].expires > now :: redis[k].quantity
  }

  ghost function Reserved(redis: map<Key, Entry>, now: Time): int { Sum(Live(redis, now)) }

  // ---- the scan --------------------------------------------------------------------------------------

  /** SCAN returns every key that is there throughout, possibly more than once. */
  predicate Covers(redis: map<Key, Entry>, now: Time, scan: seq<Key>) {
    forall k :: k in redis && redis[k].expires > now ==> k in scan
  }

  ghost predicate ListsOnce(redis: map<Key, Entry>, now: Time, scan: seq<Key>) {
    forall i, j :: 0 <= i < j < |scan| && scan[i] == scan[j] ==> Payload(redis, now, scan[i]) == 0
  }

  ghost function Scanned(redis: map<Key, Entry>, now: Time, scan: seq<Key>): int {
    Total(scan, (k: Key) => Payload(redis, now, k))
  }

  lemma ScannedStep(redis: map<Key, Entry>, now: Time, scan: seq<Key>, k: Key)
    ensures Scanned(redis, now, scan + [k]) == Scanned(redis, now, scan) + Payload(redis, now, k)
  {
    assert (scan + [k])[..|scan|] == scan;
  }

  /** The live reservations whose keys were met. */
  ghost function Met(redis: map<Key, Entry>, now: Time, seen: set<Key>): map<Key, int> {
    map k | k in redis && redis[k].expires > now && k in seen :: redis[k].quantity
  }

  lemma {:induction false} MetStep(redis: map<Key, Entry>, now: Time, seen: set<Key>, k: Key)
    ensures Sum(Met(redis, now, seen + {k})) <= Sum(Met(redis, now, seen)) + Payload(redis, now, k)
    ensures k !in seen ==> Sum(Met(redis, now, seen + {k})) == Sum(Met(redis, now, seen)) + Payload(redis, now, k)
  {
    var before := Met(redis, now, seen);
    if k in redis && redis[k].expires > now {
      assert Met(redis, now, seen + {k}) == before[k := redis[k].quantity];
      SumUpdate(before, k, redis[k].quantity);
    } else {
      assert Met(redis, now, seen + {k}) == before;
    }
  }

  ghost function KeysOf(scan: seq<Key>): set<Key> { set k | k in scan }

  /** The scan's total is at least what the keys it met hold, and more exactly when a live key came twice. */
  lemma {:induction false} ScannedAgainstMet(redis: map<Key, Entry>, now: Time, scan: seq<Key>)
    ensures Scanned(redis, now, scan) >= Sum(Met(redis, now, KeysOf(scan)))
    ensures Scanned(redis, now, scan) == Sum(Met(redis, now, KeysOf(scan))) <==> ListsOnce(redis, now, scan)
  {
    if scan == [] {
      assert Met(redis, now, KeysOf(scan)) == map[];
    } else {
      var n := |scan| - 1;
      var k := scan[n];
      ScannedAgainstMet(redis, now, scan[..n]);
      assert scan == scan[..n] + [k];
      ScannedStep(redis, now, scan[..n], k);
      assert KeysOf(scan) == KeysOf(scan[..n]) + {k};
      MetStep(redis, now, KeysOf(scan[..n]), k);
      RepeatOfLast(redis, now, scan);
      if k in KeysOf(scan[..n]) { assert KeysOf(scan) == KeysOf(scan[..n]); }
    }
  }

  lemma {:induction false} RepeatOfLast(redis: map<Key, Entry>, now: Time, scan: seq<Key>)
    requires scan != []
    ensures var n := |scan| - 1;
            ListsOnce(redis, now, scan)
            <==> ListsOnce(redis, now, scan[..n]) && (scan[n] in scan[..n] ==> Payload(redis, now, scan[n]) == 0)
  {
    var n := |scan| - 1;
    if ListsOnce(redis, now, scan) && scan[n] in scan[..n] {
      var i :| 0 <= i < n && scan[..n][i] == scan[n];
      assert scan[i] == scan[n];
    }
  }

  /**
    _reserved_quantity counts at least what is reserved, and exactly that when and only when no live key is
    returned twice.
  */
  lemma {:induction false} ScanNeverUndercounts(redis: map<Key, Entry>, now: Time, scan: seq<Key>)
    requires Covers(redis, now, scan)
    ensures Scanned(redis, now, scan) >= Reserved(redis, now)
    ensures Scanned(redis, now, scan) == Reserved(redis, now) <==> ListsOnce(redis, now, scan)
  {
    ScannedAgainstMet(redis, now, scan);
    assert Met(redis, now, KeysOf(scan)) == Live(redis, now);
  }

  lemma {:induction false} GrantAdds(redis: map<Key, Entry>, now: Time, id: Key, entry: Entry)
    requires id !in redis && entry.expires > now
    ensures Reserved(redis[id := entry], now) == Reserved(redis, now) + entry.quantity
  {
    assert Live(redis[id := entry], now) == Live(redis, now)[id := entry.quantity];
    SumUpdate(Live(redis, now), id, entry.quantity);
  }

  lemma {:induction false} TimeOnlyFrees(redis: map<Key, Entry>, now: Time, later: Time, seen: set<Key>)
    requires now <= later
    ensures Reserved(redis, later) <= Reserved(redis, now)
    ensures Sum(Met(redis, later, seen)) <= Sum(Met(redis, now, seen))
  {
    SumOfPart(Live(redis, later), Live(redis, now));
    SumOfPart(Met(redis, later, seen), Met(redis, now, seen));
  }

  // ---- one call, undisturbed -------------------------------------------------------------------------

  datatype Reply = Granted(id: Key, expiresAt: Time) | NoRow | Insufficient(available: int)

  /** What reserve_stock replies and writes when nothing else runs. */
  ghost function ReserveAlone(
      stock: Option<nat>, redis: map<Key, Entry>, now: Time, ttl: Pos, quantity: Pos, scan: seq<Key>, id: Key)
    : (Reply, map<Key, Entry>)
  {
    if stock.None? then (NoRow, redis)
    else
      var available := stock.value - Scanned(redis, now, scan);
      if available < quantity then (Insufficient(available), redis)
      else (Granted(id, now + ttl), redis[id := Entry(quantity, now + ttl)])
  }

  /**
    A call is granted if and only if the units it counts leave enough; the reservation then holds its units until its
    time to live has passed, and nothing else changes. A refusal changes nothing.
  */
  lemma {:induction false} ReservationPromise(
      stock: Option<nat>, redis: map<Key, Entry>, now: Time, ttl: Pos, quantity: Pos, scan: seq<Key>, id: Key)
    requires id !in redis
    ensures var (reply, after) := ReserveAlone(stock, redis, now, ttl, quantity, scan, id);
            && (reply.Granted? <==> stock.Some? && Scanned(redis, now, scan) + quantity <= stock.value)
            && (reply.Granted? ==>
                  && reply == Granted(id, now + ttl) && after == redis[id := Entry(quantity, now + ttl)]
                  && forall t :: Payload(after, t, id) == if t < now + ttl then quantity else 0)
            && (!reply.Granted? ==>
                  after == redis
                  && reply == if stock.None? then NoRow else Insufficient(stock.value - Scanned(redis, now, scan)))
  {
  }

  class ReservationStore {
    var stock: Option<nat>
    var redis: map<Key, Entry>

    constructor ()
      ensures stock == None && redis == map[]
    {
      stock, redis := None, map[];
    }

    /** _reserved_quantity: `scan` is what SCAN yields. */
    method ReservedQuantity(now: Time, scan: seq<Key>) returns (total: int)
      ensures total == Scanned(redis, now, scan)
      ensures Covers(redis, now, scan) ==> total >= Reserved(redis, now)
    {
      total := 0;
      for i := 0 to |scan|
        invariant total == Scanned(redis, now, scan[..i])
      {
        assert scan[..i + 1] == scan[..i] + [scan[i]];
        ScannedStep(redis, now, scan[..i], scan[i]);
        total := total + Payload(redis, now, scan[i]);
      }
      assert scan[..|scan|] == scan;
      if Covers(redis, now, scan) { ScanNeverUndercounts(redis, now, scan); }
    }

    /** reserve_stock, its two lookups passed and its lock taken. */
    method ReserveStock(now: Time, ttl: Pos, quantity: Pos, scan: seq<Key>, id: Key) returns (reply: Reply)
      requires id !in redis && Covers(redis, now, scan)
      modifies this
      ensures (reply, redis) == ReserveAlone(stock, old(redis), now, ttl, quantity, scan, id) && stock == old(stock)
      ensures reply.Granted? ==> Reserved(redis, now) == Reserved(old(redis), now) + quantity <= stock.value
    {
      if stock.None? { return NoRow; }
      var total := ReservedQuantity(now, scan);
      var available := stock.value - total;
      if available < quantity { return Insufficient(available); }
      GrantAdds(redis, now, id, Entry(quantity, now + ttl));
      redis := redis[id := Entry(quantity, now + ttl)];
      reply := Granted(id, now + ttl);
    }
  }

  // ---- many calls, step by step ----------------------------------------------------------------------

  /** A running call; `drained` counts the units debited since it read the stock row. */
  datatype Call =
    | Waiting(quantity: Pos)
    | Locked(quantity: Pos)
    | Scanning(quantity: Pos, stockRead: nat, drained: nat, total: nat, seen: set<Key>)
    | Counted(quantity: Pos, stockRead: nat, drained: nat, total: nat)

  /** `drained` counts the units debited since the call that was granted last read the stock row. */
  datatype Sys = Sys(
    now: Time, stock: Option<nat>, redis: map<Key, Entry>, lock: Option<Caller>, calls: map<Caller, Call>, drained: nat)

  datatype Event =
    | Enter(p: Caller, quantity: Pos)  // the variant and the warehouse were found
    | Acquire(p: Caller)
    | GiveUp(p: Caller)                // no lock within blocking_timeout
    | ReadStock(p: Caller)
    | Probe(p: Caller, k: Key)         // SCAN yields a key and GET reads it
    | EndScan(p: Caller)
    | Finish(p: Caller, id: Key, ttl: Pos)  // grant or refuse, and release the lock
    | LockExpires                      // the lock's own timeout runs out
    | Move(delta: int)                 // another transaction credits or debits the row
    | Pass(time: nat)

  function OnHand(s: Sys): nat { if s.stock.Some? then s.stock.value else 0 }

  function Leave(s: Sys, p: Caller): Sys {
    s.(calls := s.calls - {p}, lock := if s.lock == Some(p) then None else s.lock)
  }

  function Drain(call: Call, n: nat): Call {
    if call.Scanning? || call.Counted? then call.(drained := call.drained + n) else call
  }

  /** SCAN has returned every key that is still live. */
  predicate ScanDone(s: Sys, p: Caller)
    requires p in s.calls && s.calls[p].Scanning?
  {
    forall k :: k in s.redis && s.redis[k].expires > s.now ==> k in s.calls[p].seen
  }

  /** One step; a step that cannot be taken changes nothing. */
  function Do(s: Sys, e: Event): Sys {
    match e
    case Enter(p, quantity) => if p in s.calls then s else s.(calls := s.calls[p := Waiting(quantity)])
    case Acquire(p) =>
      if p in s.calls && s.calls[p].Waiting? && s.lock.None? then
        s.(lock := Some(p), calls := s.calls[p := Locked(s.calls[p].quantity)])
      else s
    case GiveUp(p) => if p in s.calls && s.calls[p].Waiting? then s.(calls := s.calls - {p}) else s
    case ReadStock(p) =>
      if p in s.calls && s.calls[p].Locked? then
        if s.stock.None? then Leave(s, p)
        else s.(calls := s.calls[p := Scanning(s.calls[p].quantity, s.stock.value, 0, 0, {})])
      else s
    case Probe(p, k) =>
      if p in s.calls && s.calls[p].Scanning? then
        var call := s.calls[p];
        s.(calls := s.calls[p := call.(total := call.total + Payload(s.redis, s.now, k), seen := call.seen + {k})])
      else s
    case EndScan(p) =>
      if p in s.calls && s.calls[p].Scanning? && ScanDone(s, p) then
        var call := s.calls[p];
        s.(calls := s.calls[p := Counted(call.quantity, call.stockRead, call.drained, call.total)])
      else s
    case Finish(p, id, ttl) =>
      if p in s.calls && s.calls[p].Counted? && id !in s.redis then
        var call := s.calls[p];
        if call.stockRead - call.total < call.quantity then Leave(s, p)
        else Leave(s, p).(redis := s.redis[id := Entry(call.quantity, s.now + ttl)], drained := call.drained)
      else s
    case LockExpires => s.(lock := None)
    case Move(delta) =>
      if OnHand(s) + delta < 0 then s
      else
        var out: nat := if delta < 0 then -delta else 0;
        s.(stock := Some(OnHand(s) + delta), drained := s.drained + out,
           calls := map p | p in s.calls :: Drain(s.calls[p], out))
    case Pass(time) => s.(now := s.now + time)
  }

  function Exec(s: Sys, trace: seq<Event>): Sys {
    if trace == [] then s else Do(Exec(s, trace[..|trace| - 1]), trace[|trace| - 1])
  }

  // ---- the bound ------------------------------------------------------------------------------------

  /** What a call that holds the lock has read still covers what is reserved. */
  ghost predicate Covered(s: Sys, call: Call) {
    && (call.Scanning? || call.Counted? ==> s.stock.Some? && call.stockRead <= s.stock.value + call.drained)
    && (call.Scanning? ==> Sum(Met(s.redis, s.now, call.seen)) <= call.total)
    && (call.Counted? ==> Reserved(s.redis, s.now) <= call.total)
  }

  /** The lock is held by a running call; nothing is asked of calls that lost it. */
  ghost predicate HolderOk(s: Sys) {
    s.lock.Some? ==> s.lock.value in s.calls && !s.calls[s.lock.value].Waiting? && Covered(s, s.calls[s.lock.value])
  }

  /** Live reservations never exceed the units on hand plus those debited since the last grant read the row. */
  ghost predicate Bounded(s: Sys) { Reserved(s.redis, s.now) <= OnHand(s) + s.drained }

  /** The step grants a reservation. */
  predicate Grants(s: Sys, e: Event) {
    e.Finish? && e.p in s.calls && s.calls[e.p].Counted? && e.id !in s.redis
    && s.calls[e.p].stockRead - s.calls[e.p].total >= s.calls[e.p].quantity
  }

  /** Every call that is granted still holds the lock then; other locks may expire as they like. */
  ghost predicate GrantsHoldTheLock(s: Sys, trace: seq<Event>) {
    forall i :: 0 <= i < |trace| && Grants(Exec(s, trace[..i]), trace[i]) ==>
      Exec(s, trace[..i]).lock == Some(trace[i].p)
  }

  /** Under any mix of calls, expiries of keys and locks, credits and debits. */
  lemma {:induction false} ReservationsStayBounded(s: Sys, trace: seq<Event>)
    requires HolderOk(s) && Bounded(s) && GrantsHoldTheLock(s, trace)
    ensures HolderOk(Exec(s, trace)) && Bounded(Exec(s, trace))
  {
    if trace != [] {
      var n := |trace| - 1;
      forall i | 0 <= i < n && Grants(Exec(s, trace[..n][..i]), trace[..n][i])
        ensures Exec(s, trace[..n][..i]).lock == Some(trace[..n][i].p)
      {
        assert trace[..n][..i] == trace[..i];
      }
      ReservationsStayBounded(s, trace[..n]);
      StepStaysBounded(Exec(s, trace[..n]), trace[n]);
    }
  }

  lemma {:induction false} StepStaysBounded(s: Sys, e: Event)
    requires HolderOk(s) && Bounded(s) && (Grants(s, e) ==> s.lock == Some(e.p))
    ensures HolderOk(Do(s, e)) && Bounded(Do(s, e))
  {
    match e
    case Finish(p, id, ttl) => FinishStaysBounded(s, p, id, ttl);
    case Pass(time) => PassStaysBounded(s, time);
    case Move(delta) => MoveStaysBounded(s, delta);
    case _ =>
      hide HolderOk;
      StepWithinCall(s, e);
      HolderStaysOk(s, e);
  }

  lemma {:induction false} PassStaysBounded(s: Sys, time: nat)
    requires HolderOk(s) && Bounded(s)
    ensures HolderOk(Do(s, Pass(time))) && Bounded(Do(s, Pass(time)))
  {
    hide Live, Met;
    TimeOnlyFrees(s.redis, s.now, s.now + time, {});
    if s.lock.Some? && s.calls[s.lock.value].Scanning? {
      TimeOnlyFrees(s.redis, s.now, s.now + time, s.calls[s.lock.value].seen);
    }
  }

  lemma MoveStaysBounded(s: Sys, delta: int)
    requires HolderOk(s) && Bounded(s)
    ensures HolderOk(Do(s, Move(delta))) && Bounded(Do(s, Move(delta)))
  {
  }

  lemma StepWithinCall(s: Sys, e: Event)
    requires !e.Finish? && !e.Pass? && !e.Move?
    ensures Do(s, e).redis == s.redis && Do(s, e).now == s.now
            && Do(s, e).stock == s.stock && Do(s, e).drained == s.drained
  {
  }

  lemma {:induction false} HolderStaysOk(s: Sys, e: Event)
    requires HolderOk(s) && !e.Finish? && !e.Pass? && !e.Move?
    ensures HolderOk(Do(s, e))
  {
    if e.Probe? && e.p in s.calls && s.calls[e.p].Scanning? { MetStep(s.redis, s.now, s.calls[e.p].seen, e.k); }
    if e.EndScan? && e.p in s.calls && s.calls[e.p].Scanning? && ScanDone(s, e.p) {
      assert Met(s.redis, s.now, s.calls[e.p].seen) == Live(s.redis, s.now);
    }
    assert Met(s.redis, s.now, {}) == map[];
  }

  lemma {:induction false} FinishStaysBounded(s: Sys, p: Caller, id: Key, ttl: Pos)
    requires HolderOk(s) && Bounded(s) && (Grants(s, Finish(p, id, ttl)) ==> s.lock == Some(p))
    ensures HolderOk(Do(s, Finish(p, id, ttl))) && Bounded(Do(s, Finish(p, id, ttl)))
  {
    if Grants(s, Finish(p, id, ttl)) {
      GrantAdds(s.redis, s.now, id, Entry(s.calls[p].quantity, s.now + ttl));
    }
  }

  // ---- calls that lost their lock -------------------------------------------------------------------

  /** The call holds the lock, has not had it yet, or is past its stock read and will be refused. */
  predicate Harmless(s: Sys, p: Caller)
    requires p in s.calls
  {
    var call := s.calls[p];
    call.Waiting? || s.lock == Some(p)
    || ((call.Scanning? || call.Counted?) && call.stockRead - call.total < call.quantity)
  }

  ghost predicate AllHarmless(s: Sys) { forall p :: p in s.calls ==> Harmless(s, p) }

  /** Runs in which no further lock runs out. */
  predicate LocksHold(trace: seq<Event>) { forall i :: 0 <= i < |trace| ==> !trace[i].LockExpires? }

  /** Runs in which no other transaction takes units from the row. */
  predicate NoDebit(trace: seq<Event>) { forall i :: 0 <= i < |trace| ==> trace[i].Move? ==> trace[i].delta >= 0 }

  /**
    When no further lock runs out, every continuation stays bounded if and only if every call that has lost its
    lock by now is going to be refused.
  */
  lemma {:induction false} StaysBoundedIff(s: Sys)
    requires HolderOk(s) && Bounded(s)
    ensures (forall trace :: LocksHold(trace) ==> Bounded(Exec(s, trace))) <==> AllHarmless(s)
  {
    if AllHarmless(s) {
      forall trace | LocksHold(trace) ensures Bounded(Exec(s, trace)) { HarmlessStaysBounded(s, trace); }
    } else {
      var p :| p in s.calls && !Harmless(s, p);
      var trace := LostLockCanBreak(s, p);
    }
  }

  lemma {:induction false} HarmlessStaysBounded(s: Sys, trace: seq<Event>)
    requires HolderOk(s) && Bounded(s) && AllHarmless(s) && LocksHold(trace)
    ensures HolderOk(Exec(s, trace)) && Bounded(Exec(s, trace)) && AllHarmless(Exec(s, trace))
  {
    if trace != [] {
      var n := |trace| - 1;
      HarmlessStaysBounded(s, trace[..n]);
      HarmlessStep(Exec(s, trace[..n]), trace[n]);
      StepStaysBounded(Exec(s, trace[..n]), trace[n]);
    }
  }

  lemma {:induction false} HarmlessStep(s: Sys, e: Event)
    requires AllHarmless(s) && !e.LockExpires?
    ensures AllHarmless(Do(s, e)) && (Grants(s, e) ==> s.lock == Some(e.p))
  {
    forall p | p in Do(s, e).calls ensures Harmless(Do(s, e), p) {
      if p in s.calls { assert Harmless(s, p); }
    }
    if e.Finish? && e.p in s.calls { assert Harmless(s, e.p); }
  }

  // ---- within stock itself --------------------------------------------------------------------------

  /** Live reservations never exceed the units on hand. */
  ghost predicate WithinStock(s: Sys) { Reserved(s.redis, s.now) <= OnHand(s) }

  /** Nothing was debited since the holder of the lock read the row. */
  ghost predicate HolderIsFresh(s: Sys) {
    s.lock.Some? && s.lock.value in s.calls ==>
      var call := s.calls[s.lock.value]; call.Scanning? || call.Counted? ==> call.drained == 0
  }

  /**
    While nothing is debited and no further lock runs out, every continuation stays within stock if and only if
    every call that has lost its lock by now is going to be refused.
  */
  lemma {:induction false} StaysWithinStockIff(s: Sys)
    requires HolderOk(s) && WithinStock(s) && HolderIsFresh(s)
    ensures (forall trace :: LocksHold(trace) && NoDebit(trace) ==> WithinStock(Exec(s, trace))) <==> AllHarmless(s)
  {
    if AllHarmless(s) {
      forall trace | LocksHold(trace) && NoDebit(trace) ensures WithinStock(Exec(s, trace)) {
        HarmlessStaysWithin(s, trace);
      }
    } else {
      var p :| p in s.calls && !Harmless(s, p);
      var trace := LostLockCanBreak(s, p);
    }
  }

  lemma {:induction false} HarmlessStaysWithin(s: Sys, trace: seq<Event>)
    requires HolderOk(s) && WithinStock(s) && HolderIsFresh(s) && AllHarmless(s) && LocksHold(trace) && NoDebit(trace)
    ensures var end := Exec(s, trace); HolderOk(end) && WithinStock(end) && HolderIsFresh(end) && AllHarmless(end)
  {
    if trace != [] {
      var n := |trace| - 1;
      HarmlessStaysWithin(s, trace[..n]);
      var mid := Exec(s, trace[..n]);
      HarmlessStep(mid, trace[n]);
      StepStaysBounded(mid, trace[n]);
      StepStaysWithin(mid, trace[n]);
    }
  }

  lemma {:induction false} StepStaysWithin(s: Sys, e: Event)
    requires HolderOk(s) && WithinStock(s) && HolderIsFresh(s) && (Grants(s, e) ==> s.lock == Some(e.p))
    requires e.Move? ==> e.delta >= 0
    ensures WithinStock(Do(s, e)) && HolderIsFresh(Do(s, e))
  {
    match e
    case Finish(p, id, ttl) => FinishStaysWithin(s, p, id, ttl);
    case Pass(time) => TimeOnlyFrees(s.redis, s.now, s.now + time, {});
    case Move(delta) =>
    case _ => StepWithinCall(s, e);
  }

  lemma {:induction false} FinishStaysWithin(s: Sys, p: Caller, id: Key, ttl: Pos)
    requires HolderOk(s) && WithinStock(s) && HolderIsFresh(s)
    requires Grants(s, Finish(p, id, ttl)) ==> s.lock == Some(p)
    ensures WithinStock(Do(s, Finish(p, id, ttl))) && HolderIsFresh(Do(s, Finish(p, id, ttl)))
  {
    if Grants(s, Finish(p, id, ttl)) {
      GrantAdds(s.redis, s.now, id, Entry(s.calls[p].quantity, s.now + ttl));
    }
  }

  /** The steps of one call. */
  ghost function CallSteps(p: Caller, quantity: Pos, scan: seq<Key>): seq<Event> {
    if scan == [] then [Enter(p, quantity), Acquire(p), ReadStock(p)]
    else CallSteps(p, quantity, scan[..|scan| - 1]) + [Probe(p, scan[|scan| - 1])]
  }

  /** A call whose steps run without interruption does what ReserveAlone says. */
  lemma {:induction false} UndisturbedCall(s: Sys, p: Caller, ttl: Pos, quantity: Pos, scan: seq<Key>, id: Key)
    requires p !in s.calls && s.lock.None? && id !in s.redis && Covers(s.redis, s.now, scan)
    ensures var (reply, redis) := ReserveAlone(s.stock, s.redis, s.now, ttl, quantity, scan, id);
            Exec(s, CallSteps(p, quantity, scan) + [EndScan(p), Finish(p, id, ttl)])
            == s.(redis := redis, drained := if reply.Granted? then 0 else s.drained)
  {
    hide CallSteps;
    ScanSteps(s, p, quantity, scan);
    ExecAppend(s, CallSteps(p, quantity, scan), [EndScan(p), Finish(p, id, ttl)]);
    ExecTwo(AfterScan(s, p, quantity, scan), EndScan(p), Finish(p, id, ttl));
    LastSteps(s, p, ttl, quantity, scan, id);
  }

  lemma {:induction false} LastSteps(s: Sys, p: Caller, ttl: Pos, quantity: Pos, scan: seq<Key>, id: Key)
    requires p !in s.calls && s.lock.None? && id !in s.redis && Covers(s.redis, s.now, scan)
    ensures var (reply, redis) := ReserveAlone(s.stock, s.redis, s.now, ttl, quantity, scan, id);
            Do(Do(AfterScan(s, p, quantity, scan), EndScan(p)), Finish(p, id, ttl))
            == s.(redis := redis, drained := if reply.Granted? then 0 else s.drained)
  {
    hide Scanned;
    var mid := AfterScan(s, p, quantity, scan);
    if s.stock.Some? {
      assert ScanDone(mid, p);
      assert Do(mid, EndScan(p)).calls - {p} == s.calls;
    }
  }

  lemma {:induction false} ExecAppend(s: Sys, a: seq<Event>, b: seq<Event>)
    ensures Exec(s, a + b) == Exec(Exec(s, a), b)
  {
    if b == [] {
      assert a + b == a;
    } else {
      assert (a + b)[..|a + b| - 1] == a + b[..|b| - 1];
      ExecAppend(s, a, b[..|b| - 1]);
    }
  }

  lemma ExecTwo(s: Sys, e: Event, f: Event)
    ensures Exec(s, [e, f]) == Do(Do(s, e), f)
  {
    assert [e, f][..1] == [e] && [e][..0] == [];
    assert Exec(s, [e]) == Do(Exec(s, []), e);
  }

  /** A call after its scan. */
  ghost function AfterScan(s: Sys, p: Caller, quantity: Pos, scan: seq<Key>): Sys {
    if s.stock.None? then s
    else
      ScannedIsNatural(s.redis, s.now, scan);
      s.(lock := Some(p),
         calls := s.calls[p := Scanning(quantity, s.stock.value, 0, Scanned(s.redis, s.now, scan), KeysOf(scan))])
  }

  lemma {:induction false} ScannedIsNatural(redis: map<Key, Entry>, now: Time, scan: seq<Key>)
    ensures Scanned(redis, now, scan) >= 0
  {
    if scan != [] {
      ScannedIsNatural(redis, now, scan[..|scan| - 1]);
      assert scan == scan[..|scan| - 1] + [scan[|scan| - 1]];
      ScannedStep(redis, now, scan[..|scan| - 1], scan[|scan| - 1]);
    }
  }

  lemma {:induction false} ScanSteps(s: Sys, p: Caller, quantity: Pos, scan: seq<Key>)
    requires p !in s.calls && s.lock.None?
    ensures Exec(s, CallSteps(p, quantity, scan)) == AfterScan(s, p, quantity, scan)
  {
    if scan == [] {
      FirstSteps(s, p, quantity);
      assert KeysOf(scan) == {};
    } else {
      var n := |scan| - 1;
      ScanSteps(s, p, quantity, scan[..n]);
      var steps := CallSteps(p, quantity, scan[..n]);
      assert (steps + [Probe(p, scan[n])])[..|steps|] == steps;
      ProbeStep(s, p, quantity, scan[..n], scan[n]);
      assert scan == scan[..n] + [scan[n]];
    }
  }

  lemma {:induction false} ProbeStep(s: Sys, p: Caller, quantity: Pos, scan: seq<Key>, k: Key)
    requires p !in s.calls
    ensures Do(AfterScan(s, p, quantity, scan), Probe(p, k)) == AfterScan(s, p, quantity, scan + [k])
  {
    hide Scanned, KeysOf, Payload;
    ScannedStep(s.redis, s.now, scan, k);
    KeysStep(scan, k);
  }

  lemma KeysStep(scan: seq<Key>, k: Key)
    ensures KeysOf(scan + [k]) == KeysOf(scan) + {k}
  {
  }

  lemma {:induction false} FirstSteps(s: Sys, p: Caller, quantity: Pos)
    requires p !in s.calls && s.lock.None?
    ensures Exec(s, [Enter(p, quantity), Acquire(p), ReadStock(p)]) ==
            if s.stock.None? then s
            else s.(lock := Some(p), calls := s.calls[p := Scanning(quantity, s.stock.value, 0, 0, {})])
  {
    var t := [Enter(p, quantity), Acquire(p), ReadStock(p)];
    assert t[..2] == [Enter(p, quantity), Acquire(p)];
    ExecTwo(s, Enter(p, quantity), Acquire(p));
    if s.stock.None? {
      assert s.calls[p := Waiting(quantity)][p := Locked(quantity)] - {p} == s.calls;
    }
  }

  // ---- a lost lock can break the bound --------------------------------------------------------------

  /** A call that lost its lock and may still be granted has a continuation that breaks the bound. */
  lemma {:induction false} LostLockCanBreak(s: Sys, p: Caller) returns (trace: seq<Event>)
    requires HolderOk(s) && p in s.calls && !Harmless(s, p)
    ensures Calm(trace) && !Bounded(Exec(s, trace))
  {
    var free := FreeTheLock(s);
    var s1 := Exec(s, free);
    var lead := CountTheLost(s1, p);
    var s2 := Exec(s1, lead);
    var last := GrantBoth(s2, p);
    ExecAppend(s, free, lead);
    ExecAppend(s, free + lead, last);
    trace := free + lead + last;
  }

  /** The call is out of the lock and would be granted if its scan ended now. */
  predicate Lost(s: Sys, p: Caller) {
    p in s.calls && s.lock != Some(p)
    && (s.calls[p].Locked?
        || ((s.calls[p].Scanning? || s.calls[p].Counted?)
            && s.calls[p].stockRead - s.calls[p].total >= s.calls[p].quantity))
  }

  /** How long until every key has expired. */
  ghost function Longest(redis: map<Key, Entry>, now: Time): (t: nat)
    ensures forall k :: k in redis ==> redis[k].expires <= now + t
    decreases |redis|
  {
    if redis == map[] then 0
    else
      var k :| k in redis;
      assert forall q :: q in redis ==> q == k || q in redis - {k};
      var rest := Longest(redis - {k}, now);
      if redis[k].expires - now > rest then redis[k].expires - now else rest
  }

  lemma NothingLive(redis: map<Key, Entry>, now: Time)
    requires forall k :: k in redis ==> redis[k].expires <= now
    ensures Live(redis, now) == map[] && Reserved(redis, now) == 0
  {
    assert Live(redis, now) == map[];
  }

  lemma {:induction false} FreshKey(keys: set<nat>) returns (unused: nat)
    ensures unused !in keys && forall k :: k in keys ==> k < unused
    decreases |keys|
  {
    if keys == {} {
      unused := 0;
    } else {
      var k :| k in keys;
      unused := FreshKey(keys - {k});
      assert forall q :: q in keys ==> q == k || q in keys - {k};
      if unused <= k { unused := k + 1; }
    }
  }

  /** Neither a lock runs out nor a unit is debited. */
  predicate Calm(trace: seq<Event>) { LocksHold(trace) && NoDebit(trace) }

  /** The holder, if any, can run to its end at once; the other calls stay where they are. */
  lemma {:induction false} FreeTheLock(s: Sys) returns (trace: seq<Event>)
    requires HolderOk(s)
    ensures var end := Exec(s, trace);
            && Calm(trace) && end.lock.None? && end.now == s.now && end.stock == s.stock
            && forall p :: p in s.calls && s.lock != Some(p) ==> p in end.calls && end.calls[p] == s.calls[p]
  {
    trace := [];
    if s.lock.Some? {
      var h := s.lock.value;
      if s.calls[h].Locked? {
        var s1 := Do(s, ReadStock(h));
        ExecOne(s, ReadStock(h));
        trace := [ReadStock(h)];
        if s.stock.Some? {
          var rest := FinishTheScan(s1, h);
          ExecAppend(s, [ReadStock(h)], rest);
          trace := [ReadStock(h)] + rest;
        }
      } else {
        trace := FinishTheScan(s, h);
      }
    }
  }

  lemma {:induction false} FinishTheScan(s: Sys, h: Caller) returns (trace: seq<Event>)
    requires s.lock == Some(h) && h in s.calls && (s.calls[h].Scanning? || s.calls[h].Counted?)
    ensures var end := Exec(s, trace);
            && Calm(trace) && end.lock.None? && end.now == s.now && end.stock == s.stock && end.calls == s.calls - {h}
  {
    var id := FreshKey(s.redis.Keys);
    if s.calls[h].Scanning? {
      var lead := CompleteTheScan(s, h);
      var s1 := Exec(s, lead);
      ExecOne(s1, Finish(h, id, 1));
      ExecAppend(s, lead, [Finish(h, id, 1)]);
      assert s1.calls - {h} == s.calls - {h};
      trace := lead + [Finish(h, id, 1)];
    } else {
      ExecOne(s, Finish(h, id, 1));
      trace := [Finish(h, id, 1)];
    }
  }

  /** The holder probes every key there is, and its scan ends. */
  lemma {:induction false} CompleteTheScan(s: Sys, h: Caller) returns (trace: seq<Event>)
    requires h in s.calls && s.calls[h].Scanning?
    ensures var end := Exec(s, trace);
            && Calm(trace) && h in end.calls && end.calls[h].Counted?
            && end == s.(calls := s.calls[h := end.calls[h]])
  {
    var probes, total := ProbeAll(s, h, s.redis.Keys);
    var s1 := Exec(s, probes);
    assert ScanDone(s1, h);
    ExecOne(s1, EndScan(h));
    ExecAppend(s, probes, [EndScan(h)]);
    trace := probes + [EndScan(h)];
    var done := Counted(s.calls[h].quantity, s.calls[h].stockRead, s.calls[h].drained, total);
    assert s1.calls[h := done] == s.calls[h := done];
  }

  lemma {:induction false} ProbeAll(s: Sys, h: Caller, keys: set<Key>) returns (trace: seq<Event>, total: nat)
    requires h in s.calls && s.calls[h].Scanning?
    ensures Calm(trace)
    ensures Exec(s, trace) == s.(calls := s.calls[h := s.calls[h].(total := total, seen := s.calls[h].seen + keys)])
    decreases |keys|
  {
    if keys == {} {
      trace, total := [], s.calls[h].total;
      assert s.calls[h].seen + keys == s.calls[h].seen;
      assert s.calls[h := s.calls[h]] == s.calls;
    } else {
      var k :| k in keys;
      var s1 := Do(s, Probe(h, k));
      var rest;
      rest, total := ProbeAll(s1, h, keys - {k});
      ExecOne(s, Probe(h, k));
      ExecAppend(s, [Probe(h, k)], rest);
      trace := [Probe(h, k)] + rest;
      assert s1.calls[h].seen + (keys - {k}) == s.calls[h].seen + keys;
      var end := s.calls[h].(total := total, seen := s.calls[h].seen + keys);
      assert s1.calls[h := end] == s.calls[h := end];
    }
  }

  /** Once every key has expired a scan may end. */
  lemma {:induction false} EndTheScan(s: Sys, p: Caller) returns (trace: seq<Event>)
    requires p in s.calls && s.calls[p].Scanning?
    ensures Calm(trace)
    ensures var call := s.calls[p];
            var counted := Counted(call.quantity, call.stockRead, call.drained, call.total);
            Exec(s, trace) == s.(now := s.now + Longest(s.redis, s.now), calls := s.calls[p := counted])
  {
    var wait := Longest(s.redis, s.now);
    ExecTwo(s, Pass(wait), EndScan(p));
    trace := [Pass(wait), EndScan(p)];
  }

  /** A lost call that is not yet counted can get there and still be due for a grant. */
  lemma {:induction false} CountTheLost(s: Sys, p: Caller) returns (trace: seq<Event>)
    requires s.lock.None? && Lost(s, p)
    ensures Calm(trace)
    ensures var end := Exec(s, trace); end.lock.None? && Lost(end, p) && end.calls[p].Counted?
  {
    if s.calls[p].Counted? {
      trace := [];
    } else if s.calls[p].Scanning? {
      trace := EndTheScan(s, p);
    } else {
      var q := s.calls[p].quantity;
      var s1 := Do(Do(s, Move(q)), ReadStock(p));
      ExecTwo(s, Move(q), ReadStock(p));
      var rest := EndTheScan(s1, p);
      ExecAppend(s, [Move(q), ReadStock(p)], rest);
      trace := [Move(q), ReadStock(p)] + rest;
    }
  }

  /** A new call for all there is reads and scans; then the lost call is granted, and then the new one. */
  lemma {:induction false} GrantBoth(s: Sys, p: Caller) returns (trace: seq<Event>)
    requires s.lock.None? && Lost(s, p) && s.calls[p].Counted?
    ensures Calm(trace) && !Bounded(Exec(s, trace))
  {
    hide Reserved;
    var h := FreshKey(s.calls.Keys);
    var wait := Longest(s.redis, s.now);
    ExecTwo(s, Pass(wait), Move(1));
    var s1 := Do(Do(s, Pass(wait)), Move(1));
    NothingLive(s1.redis, s1.now);
    var all: Pos := s1.stock.value;
    FirstSteps(s1, h, all);
    var s2 := s1.(lock := Some(h), calls := s1.calls[h := Scanning(all, all, 0, 0, {})]);
    var s3 := s1.(lock := Some(h), calls := s1.calls[h := Counted(all, all, 0, 0)]);
    assert ScanDone(s2, h);
    ExecOne(s2, EndScan(h));
    assert s2.calls[h := Counted(all, all, 0, 0)] == s3.calls;
    var a := FreshKey(s3.redis.Keys);
    var b := FreshKey(s3.redis.Keys + {a});
    TwoGrants(s3, p, h, a, b);
    ExecAppend(s, [Pass(wait), Move(1)], [Enter(h, all), Acquire(h), ReadStock(h)]);
    ExecAppend(s, [Pass(wait), Move(1)] + [Enter(h, all), Acquire(h), ReadStock(h)], [EndScan(h)]);
    var lead := [Pass(wait), Move(1)] + [Enter(h, all), Acquire(h), ReadStock(h)] + [EndScan(h)];
    ExecAppend(s, lead, [Finish(p, a, 1), Finish(h, b, 1)]);
    trace := lead + [Finish(p, a, 1), Finish(h, b, 1)];
  }

  lemma {:induction false} TwoGrants(s: Sys, p: Caller, h: Caller, a: Key, b: Key)
    requires p != h && p in s.calls && h in s.calls && s.calls[p].Counted? && s.lock == Some(h)
    requires s.calls[p].stockRead - s.calls[p].total >= s.calls[p].quantity
    requires s.stock.Some? && s.stock.value >= 1 && s.calls[h] == Counted(s.stock.value, s.stock.value, 0, 0)
    requires a !in s.redis && b !in s.redis && a != b && Reserved(s.redis, s.now) == 0
    ensures !Bounded(Exec(s, [Finish(p, a, 1), Finish(h, b, 1)]))
  {
    hide Do, Reserved, Grants;
    ExecTwo(s, Finish(p, a, 1), Finish(h, b, 1));
    OneGrant(s, p, a);
    OneGrant(Do(s, Finish(p, a, 1)), h, b);
  }

  /** What a grant for one second changes. */
  lemma {:induction false} OneGrant(s: Sys, p: Caller, id: Key)
    requires p in s.calls && s.calls[p].Counted? && id !in s.redis
    requires s.calls[p].stockRead - s.calls[p].total >= s.calls[p].quantity
    ensures var next := Do(s, Finish(p, id, 1));
            && next.stock == s.stock && next.now == s.now && next.calls == s.calls - {p}
            && next.redis.Keys == s.redis.Keys + {id} && next.drained == s.calls[p].drained
            && Reserved(next.redis, next.now) == Reserved(s.redis, s.now) + s.calls[p].quantity
  {
    GrantAdds(s.redis, s.now, id, Entry(s.calls[p].quantity, s.now + 1));
  }

  // ---- a debit can break "within stock" --------------------------------------------------------------

  /** From every state one debited unit is enough: a new call reserves all there is, and then the unit goes. */
  lemma {:induction false} DebitCanBreakStock(s: Sys) returns (trace: seq<Event>)
    requires HolderOk(s)
    ensures Calm(trace) && !WithinStock(Exec(s, trace + [Move(-1)]))
  {
    var free := FreeTheLock(s);
    var s1 := Exec(s, free);
    var rest := ReserveAll(s1);
    ExecAppend(s, free, rest);
    trace := free + rest;
    ExecAppend(s, trace, [Move(-1)]);
    ExecOne(Exec(s, trace), Move(-1));
    DebitFromFull(Exec(s, trace));
  }

  lemma DebitFromFull(s: Sys)
    requires s.stock.Some? && Reserved(s.redis, s.now) == s.stock.value >= 1
    ensures !WithinStock(Do(s, Move(-1)))
  {
  }

  /** When every key has expired and a unit has come in, a call reserves the whole row. */
  lemma {:induction false} ReserveAll(s: Sys) returns (trace: seq<Event>)
    requires s.lock.None?
    ensures var end := Exec(s, trace);
            Calm(trace) && end.stock.Some? && Reserved(end.redis, end.now) == end.stock.value >= 1
  {
    hide Reserved;
    var wait := Longest(s.redis, s.now);
    ExecTwo(s, Pass(wait), Move(1));
    var s1 := Do(Do(s, Pass(wait)), Move(1));
    var rest := ReserveRow(s1);
    ExecAppend(s, [Pass(wait), Move(1)], rest);
    trace := [Pass(wait), Move(1)] + rest;
  }

  lemma {:induction false} ReserveRow(s: Sys) returns (trace: seq<Event>)
    requires s.lock.None? && s.stock.Some? && s.stock.value >= 1
    requires forall k :: k in s.redis ==> s.redis[k].expires <= s.now
    ensures var end := Exec(s, trace);
            Calm(trace) && end.stock == s.stock && Reserved(end.redis, end.now) == s.stock.value
  {
    hide Reserved, Exec;
    NothingLive(s.redis, s.now);
    var h := FreshKey(s.calls.Keys);
    var id := FreshKey(s.redis.Keys);
    UndisturbedCall(s, h, 1, s.stock.value, [], id);
    GrantAdds(s.redis, s.now, id, Entry(s.stock.value, s.now + 1));
    trace := CallSteps(h, s.stock.value, []) + [EndScan(h), Finish(h, id, 1)];
  }

  lemma ExecOne(s: Sys, e: Event)
    ensures Exec(s, [e]) == Do(s, e)
  {
    assert [e][..0] == [];
  }

  // ---- why the lock must last ------------------------------------------------------------------------

  /** Five units, no reservation, no call. */
  function FiveUnits(): Sys { Sys(0, Some(5), map[], None, map[], 0) }

  /** The first call's lock runs out while it scans, and a second call gets it. */
  function TwoScans(): seq<Event> {
    [Enter(1, 5), Acquire(1), ReadStock(1)] + [LockExpires] + [Enter(2, 5), Acquire(2), ReadStock(2)]
  }

  /** Two calls for 5 of 5 units, the first one's lock lost before it writes its key: both are granted. */
  lemma {:induction false} ExpiredLockBreaksTheBound()
    ensures var trace := TwoScans() + [EndScan(1), EndScan(2)] + [Finish(1, 1, 60), Finish(2, 2, 60)];
            HolderOk(FiveUnits()) && Bounded(FiveUnits()) && !Bounded(Exec(FiveUnits(), trace))
  {
    var s, scans := FiveUnits(), TwoScans() + [EndScan(1), EndScan(2)];
    assert Live(s.redis, 0) == map[];
    BothCounted();
    ExecAppend(s, scans, [Finish(1, 1, 60), Finish(2, 2, 60)]);
    BothGranted(Exec(s, scans));
    GrantAdds(s.redis, 0, 1, Entry(5, 60));
    GrantAdds(s.redis[1 := Entry(5, 60)], 0, 2, Entry(5, 60));
  }

  lemma {:induction false} BothScanning()
    ensures Exec(FiveUnits(), TwoScans())
         == FiveUnits().(lock := Some(2), calls := map[1 := Scanning(5, 5, 0, 0, {}), 2 := Scanning(5, 5, 0, 0, {})])
  {
    var s, first := FiveUnits(), [Enter(1, 5), Acquire(1), ReadStock(1)];
    FirstSteps(s, 1, 5);
    assert (first + [LockExpires])[..3] == first;
    var s1 := s.(calls := map[1 := Scanning(5, 5, 0, 0, {})]);
    assert Exec(s, first + [LockExpires]) == s1;
    FirstSteps(s1, 2, 5);
    ExecAppend(s, first + [LockExpires], [Enter(2, 5), Acquire(2), ReadStock(2)]);
  }

  lemma {:induction false} BothCounted()
    ensures Exec(FiveUnits(), TwoScans() + [EndScan(1), EndScan(2)])
         == FiveUnits().(lock := Some(2), calls := map[1 := Counted(5, 5, 0, 0), 2 := Counted(5, 5, 0, 0)])
  {
    BothScanning();
    ExecAppend(FiveUnits(), TwoScans(), [EndScan(1), EndScan(2)]);
    BothEndTheirScans(Exec(FiveUnits(), TwoScans()));
  }

  lemma {:induction false} BothEndTheirScans(s: Sys)
    requires s.redis == map[] && s.calls == map[1 := Scanning(5, 5, 0, 0, {}), 2 := Scanning(5, 5, 0, 0, {})]
    ensures Exec(s, [EndScan(1), EndScan(2)]) == s.(calls := map[1 := Counted(5, 5, 0, 0), 2 := Counted(5, 5, 0, 0)])
  {
    hide Exec;
    ExecTwo(s, EndScan(1), EndScan(2));
  }

  lemma {:induction false} BothGranted(s: Sys)
    requires s.redis == map[] && s.now == 0
    requires s.calls == map[1 := Counted(5, 5, 0, 0), 2 := Counted(5, 5, 0, 0)]
    ensures var end := Exec(s, [Finish(1, 1, 60), Finish(2, 2, 60)]);
            && end.redis == map[1 := Entry(5, 60), 2 := Entry(5, 60)]
            && end.now == 0 && end.stock == s.stock && end.drained == 0
  {
    ExecTwo(s, Finish(1, 1, 60), Finish(2, 2, 60));
  }

  /** A call reserves five of five units and all are then debited: nothing is on hand, five are reserved. */
  lemma {:induction false} DebitLeavesTooFew()
    ensures var reserve := CallSteps(1, 5, []) + [EndScan(1), Finish(1, 1, 60)];
            var end := Exec(FiveUnits(), reserve + [Move(-5)]);
            && WithinStock(Exec(FiveUnits(), reserve)) && !WithinStock(end)
            && OnHand(end) == 0 && Reserved(end.redis, end.now) == 5
  {
    var s, reserve := FiveUnits(), CallSteps(1, 5, []) + [EndScan(1), Finish(1, 1, 60)];
    assert Live(s.redis, 0) == map[];
    UndisturbedCall(s, 1, 60, 5, [], 1);
    GrantAdds(s.redis, 0, 1, Entry(5, 60));
    ExecAppend(s, reserve, [Move(-5)]);
    ExecOne(Exec(s, reserve), Move(-5));
  }
}
