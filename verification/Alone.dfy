/** One transaction alone in the step-level system does what its call does in the serial model. */
module Alone {
  import opened Wrappers
  import opened Ledger
  import opened Interleaving

  function Solo(db: State, txn: Txn): Sys { Sys(db, map[1 := txn], []) }

  /** A call begins and takes its five steps. */
  function CallTrace(op: Op): seq<Event> {
    [Begin(1, op)] + [Step(1)] + [Step(1)] + [Step(1)] + [Step(1)] + [Step(1)]
  }

  /** A call that would commit serially commits with the same effect when its steps run without interruption. */
  lemma {:induction false} CallAloneCommits(start: Sys, op: Op)
    requires Quiet(start) && IsCall(op) && Commits(start.db, op)
    ensures Exec(start, CallTrace(op)) == Sys(Next(start.db, op), map[], [op])
  {
    hide Exec, Do, Advance;
    var db, doc, item := start.db, DocAt(start.db, op), ItemAt(start.db, op);
    CommitPassed(db, op);
    BeginsAlone(start, op);
    PassesAllStages(db, op, doc, item);
    MovesAlone(db, Call(op, Checking, NoDoc, None), Call(op, LockingDoc, NoDoc, None));
    MovesAlone(db, Call(op, LockingDoc, NoDoc, None), Call(op, LockingItem, doc, None));
    MovesAlone(db, Call(op, LockingItem, doc, None), Call(op, Inserting, doc, item));
    MovesAlone(db, Call(op, Inserting, doc, item), Call(op, Ready, doc, item));
    CommitsAlone(db, op, doc, item);
    ExecOne(start, Begin(1, op));
    ExecMore(start, [Begin(1, op)], Step(1));
    ExecMore(start, [Begin(1, op)] + [Step(1)], Step(1));
    ExecMore(start, [Begin(1, op)] + [Step(1)] + [Step(1)], Step(1));
    ExecMore(start, [Begin(1, op)] + [Step(1)] + [Step(1)] + [Step(1)], Step(1));
    ExecMore(start, [Begin(1, op)] + [Step(1)] + [Step(1)] + [Step(1)] + [Step(1)], Step(1));
  }

  lemma ExecOne(sys: Sys, e: Event)
    ensures Exec(sys, [e]) == Do(sys, e)
  {
    assert [e][..0] == [];
  }

  lemma ExecMore(sys: Sys, es: seq<Event>, e: Event)
    ensures Exec(sys, es + [e]) == Do(Exec(sys, es), e)
  {
    assert (es + [e])[..|es|] == es;
  }

  lemma {:induction false} BeginsAlone(start: Sys, op: Op)
    requires Quiet(start) && IsCall(op)
    ensures Do(start, Begin(1, op)) == Solo(start.db, Call(op, Checking, NoDoc, None))
  {
  }

  lemma {:induction false} MovesAlone(db: State, txn: Txn, next: Txn)
    requires txn.Call? && IsCall(txn.op) && Advance(db, txn) == Goto(next)
    ensures Do(Solo(db, txn), Step(1)) == Solo(db, next)
  {
    assert !Blocked(Solo(db, txn), 1);
    assert map[1 := txn][1 := next] == map[1 := next];
  }

  lemma {:induction false} PassesAllStages(db: State, op: Op, doc: Doc, item: Option<Item>)
    requires IsCall(op) && Passed(db, op, doc, item)
    ensures Advance(db, Call(op, Checking, NoDoc, None)) == Goto(Call(op, LockingDoc, NoDoc, None))
    ensures Advance(db, Call(op, LockingDoc, NoDoc, None)) == Goto(Call(op, LockingItem, doc, None))
    ensures Advance(db, Call(op, LockingItem, doc, None)) == Goto(Call(op, Inserting, doc, item))
    ensures Advance(db, Call(op, Inserting, doc, item)) == Goto(Call(op, Ready, doc, item))
  {
  }

  lemma {:induction false} CommitsAlone(db: State, op: Op, doc: Doc, item: Option<Item>)
    requires IsCall(op) && Passed(db, op, doc, item)
    ensures Do(Solo(db, Call(op, Ready, doc, item)), Step(1))
         == Sys(Install(db, Effect(db.cat, op, doc, item)), map[], [op])
  {
    hide Effect, Install, Precheck, CheckDoc, CheckInsert;
    var sys := Solo(db, Call(op, Ready, doc, item));
    assert !Blocked(sys, 1);
    assert sys.txns - {1} == map[];
  }

  // ---- which rows a decay cycle can take -------------------------------------------------------------

  /**
    A cycle that has not yet touched a row can take it if and only if the row is in its scope, nobody else holds it,
    and it is due: in the marking phase normal and last sold more than the start age ago, in the discounting phase
    liquidating with a stamp at least an interval old.
  */
  lemma {:induction false} CanTakeIff(sys: Sys, t: nat, k: ItemKey)
    requires t in sys.txns && sys.txns[t].Cycle? && k !in sys.txns[t].view && k in sys.db.items
    requires StepsOn(sys.txns[t].steps, sys.txns[t].view.Keys)
    requires FindVariant(sys.db.cat, sys.db.items[k].tenant, k.variant).Some?
    ensures var txn, row := sys.txns[t], sys.db.items[k];
            CanTake(sys, t, k) <==>
              && (forall u :: u in sys.txns && u != t ==> ItemRes(k) !in Held(sys.txns[u]))
              && (txn.scope == None || txn.scope == Some(row.tenant))
              && if !txn.discounting then
                   row.decayStatus == Normal && row.lastSold.Some?
                   && txn.now - row.lastSold.value > sys.db.cat.settings.startAge
                 else
                   row.decayStatus == Liquidating && row.decayStarted.Some?
                   && txn.now - row.decayStarted.value >= sys.db.cat.settings.interval
  {
    var txn, row := sys.txns[t], sys.db.items[k];
    var view := txn.view[k := row];
    StepsElsewhere(sys.db.cat, view, txn.steps, k);
    DecayNext(Local(sys.db.cat, view, txn.steps), CycleStep(txn, k, row.tenant));
  }

  /** Row steps on other rows leave a row as it was read. */
  lemma {:induction false} StepsElsewhere(cat: Catalog, view: map<ItemKey, Item>, steps: seq<Op>, k: ItemKey)
    requires k in view && StepsOn(steps, view.Keys - {k})
    ensures var local := Local(cat, view, steps);
            local.cat == cat && local.items.Keys == view.Keys && local.items[k] == view[k]
  {
    if steps != [] {
      var prefix := steps[..|steps| - 1];
      StepsElsewhere(cat, view, prefix, k);
      DecayNext(Local(cat, view, prefix), steps[|steps| - 1]);
    }
  }
}
