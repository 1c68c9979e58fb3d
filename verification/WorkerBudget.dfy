/**
 The end-to-end budget: value that moved on chain for one UTC day's requests never exceeds that day's
 spent counter, which never exceeds the global daily budget.
 */
module WorkerBudget {
  import opened Basics
  import opened FaucetEvents
  import opened FaucetBooks
  import opened WorkerProtocol
  import opened WorkerInvariants
  import opened WorkerSafety

  /** Value that successful receipts of the given transactions moved. */
  function Moved(landed: seq<Landing>, txs: set<Tx>): int {
    if landed == [] then 0
    else
      var last := landed[|landed| - 1];
      Moved(landed[..|landed| - 1], txs) + if last.ok && last.tx in txs then last.tx.value else 0
  }

  lemma {:induction false} MovedNothing(landed: seq<Landing>, txs: set<Tx>)
    requires forall x :: x in txs ==> Landing(x, true) !in landed
    ensures Moved(landed, txs) == 0
  {
    if landed == [] {
    } else {
      var last := landed[|landed| - 1];
      assert last in landed;
      assert last.ok && last.tx in txs ==> last == Landing(last.tx, true);
      MovedNothing(landed[..|landed| - 1], txs);
    }
  }

  /** If only `x` can have paid and no receipt repeats, at most the value of `x` moved. */
  lemma {:induction false} MovedOnce(landed: seq<Landing>, txs: set<Tx>, x: Tx)
    requires forall y :: y in txs && y != x ==> Landing(y, true) !in landed
    requires forall i, j :: 0 <= i < j < |landed| ==> landed[i].tx != landed[j].tx
    requires 0 <= x.value
    ensures Moved(landed, txs) <= x.value
  {
    if landed == [] {
    } else {
      var front, last := landed[..|landed| - 1], landed[|landed| - 1];
      assert last in landed;
      if last.ok && last.tx in txs {
        assert last == Landing(last.tx, true);
        assert last.tx == x;
        MovedNothing(front, txs);
      } else {
        MovedOnce(front, txs, x);
      }
    }
  }

  lemma {:induction false} MovedSubadditive(landed: seq<Landing>, a: set<Tx>, b: set<Tx>)
    requires forall x :: x in a + b ==> 0 <= x.value
    ensures Moved(landed, a + b) <= Moved(landed, a) + Moved(landed, b)
  {
    if landed == [] {
    } else {
      MovedSubadditive(landed[..|landed| - 1], a, b);
    }
  }

  /** Every transaction ever journaled for the listed requests created on `day`. */
  function DayTxs(s: State, ids: seq<RequestId>, day: int): set<Tx> {
    if ids == [] then {}
    else
      var id := ids[|ids| - 1];
      DayTxs(s, ids[..|ids| - 1], day) +
      if id in s.store.requests && BudgetDay(s.store.requests[id].createdAt) == day then s.TxsOf(id) else {}
  }

  /** One request moves at most its own reservation. */
  lemma RequestWithinReservation(s: State, id: RequestId)
    requires id in s.store.requests && Recorded(s, id) && OnlyCurrent(s, id) && OneReceipt(s.chain)
    requires s.store.requests[id].Reserved() ==> 0 < s.store.requests[id].amount
    requires s.store.requests[id].status == Failed ==> forall x :: x in s.TxsOf(id) ==> Dead(s, id, x)
    ensures Moved(s.chain.landed, s.TxsOf(id)) <= Held(s.store.requests, id, BudgetDay(s.store.requests[id].createdAt))
  {
    var r, landed := s.store.requests[id], s.chain.landed;
    if r.Reserved() && r.hash.Some? {
      forall y | y in s.TxsOf(id) && y != r.hash.value ensures Landing(y, true) !in landed {
        assert Dead(s, id, y);
      }
      MovedOnce(landed, s.TxsOf(id), r.hash.value);
    } else {
      forall y | y in s.TxsOf(id) ensures Landing(y, true) !in landed {
        assert Dead(s, id, y);
      }
      MovedNothing(landed, s.TxsOf(id));
    }
  }

  /** Amounts stay positive for the failed requests too, so values never cancel out. */
  ghost predicate PositiveAmounts(s: State) {
    forall id :: id in s.store.requests ==> 0 < s.store.requests[id].amount
  }

  lemma {:induction false} DayTxsArePositive(s: State, ids: seq<RequestId>, day: int, x: Tx)
    requires PositiveAmounts(s) && (forall id :: id in s.store.requests ==> Recorded(s, id))
    requires x in DayTxs(s, ids, day)
    ensures 0 < x.value
  {
    var id := ids[|ids| - 1];
    if x in DayTxs(s, ids[..|ids| - 1], day) {
      DayTxsArePositive(s, ids[..|ids| - 1], day, x);
    } else {
      assert Recorded(s, id);
    }
  }

  lemma {:induction false} DayWithinReserved(s: State, ids: seq<RequestId>, day: int)
    requires PositiveAmounts(s) && OneReceipt(s.chain) && Released(s)
    requires forall id :: id in s.store.requests ==> Recorded(s, id) && OnlyCurrent(s, id)
    ensures Moved(s.chain.landed, DayTxs(s, ids, day)) <= Reserved(s.store.requests, ids, day)
  {
    if ids == [] {
      MovedNothing(s.chain.landed, DayTxs(s, ids, day));
    } else {
      var front, id := ids[..|ids| - 1], ids[|ids| - 1];
      DayWithinReserved(s, front, day);
      if id in s.store.requests && BudgetDay(s.store.requests[id].createdAt) == day {
        var a, b := DayTxs(s, front, day), s.TxsOf(id);
        assert Recorded(s, id) && OnlyCurrent(s, id);
        forall x: Tx | x in a + b ensures 0 <= x.value {
          if x in a { DayTxsArePositive(s, front, day, x); }
        }
        MovedSubadditive(s.chain.landed, a, b);
        RequestWithinReservation(s, id);
      } else {
        assert DayTxs(s, ids, day) == DayTxs(s, front, day);
        assert Held(s.store.requests, id, day) == 0;
      }
    }
  }

  // ---------------------------------------------------------------- the counter stays within the budget

  ghost predicate WithinBudget(s: State, p: Profile) {
    PositiveAmounts(s) && forall day: int :: s.store.SpentOn(day) <= p.budget
  }

  /** Only an acceptance raises a counter, and it was checked against the budget. */
  lemma EventKeepsBudget(s: State, e: Event, p: Profile)
    requires p.Valid() && WithinBudget(s, p) && Lifecycle(s.store, e) && !e.payload.RequestDenied?
    requires e.payload.RequestAccepted? ==> s.store.SpentOn(BudgetDay(e.at)) + e.payload.amount <= p.budget
    ensures WithinBudget(s.Log(e), p)
  {
    var t := s.Log(e);
    forall day: int ensures t.store.SpentOn(day) <= p.budget {
      assert s.store.SpentOn(day) <= p.budget;
      if e.payload.TxFailed? {
        var r := s.store.requests[e.payload.requestId];
        assert t.store.spentByDay == AddSpent(s.store.spentByDay, BudgetDay(r.createdAt), -r.amount);
      } else if e.payload.RequestAccepted? {
        assert t.store.spentByDay == AddSpent(s.store.spentByDay, BudgetDay(e.at), e.payload.amount);
      }
    }
  }

  lemma ServerKeepsBudget(s: State, p: Profile, step: ServerStep)
    requires p.Valid() && Owners(s) && WithinBudget(s, p) && ServerEnabled(s, p, step)
    ensures WithinBudget(ServerAfter(s, p, step), p)
  {
    var t := ServerAfter(s, p, step);
    match step {
      case Accept(clientKey, address, at, id) => EventKeepsBudget(s, Acceptance(p, clientKey, address, at, id), p);
      case RejectFull(id, at) => EventKeepsBudget(s, Event(at, TxFailed(id, "queue is full")), p);
      case Pause(reason, at) => EventKeepsBudget(s, Event(at, ServicePaused(reason)), p);
      case Resume(at) => EventKeepsBudget(s, Event(at, ServiceResumed), p);
      case Refill(source, amount, at) => EventKeepsBudget(s, Event(at, RefillObserved(source, amount)), p);
      case SwapSigner(key, at) =>
        EventKeepsBudget(s, Event(at, SignerRotated(if s.signer == ZERO_ADDRESS then None else Some(s.signer), key)),
            p);
      case _ => assert t.store == s.store;
    }
  }

  lemma StepKeepsBudget(s: State, p: Profile, step: Step)
    requires p.Valid() && Base(s) && WithinBudget(s, p) && Enabled(s, p, step)
    ensures WithinBudget(After(s, p, step), p)
  {
    match step {
      case Server(x) => ServerKeepsBudget(s, p, x);
      case Network(x) => assert ChainAfter(s, x).store == s.store;
      case Life(x) => LifeKeepsBudget(s, p, x);
      case Work(x) => WorkKeepsBudget(s, p, x);
    }
  }

  lemma LifeKeepsBudget(s: State, p: Profile, step: LifeStep)
    requires p.Valid() && Replay(s.journal) == Ok(s.store) && Owners(s) && WithinBudget(s, p) && LifeEnabled(s, p, step)
    ensures WithinBudget(LifeAfter(s, p, step), p)
  {
    if step.DropBacklog? {
      assert s.phase.backlog[0] in s.phase.backlog;
      EventKeepsBudget(s, Event(step.at,
          TxFailed(s.phase.backlog[0], "queue capacity exceeded during restart recovery")), p);
    }
  }

  lemma WorkKeepsBudget(s: State, p: Profile, step: WorkerStep)
    requires p.Valid() && Owners(s) && Site(s) && WithinBudget(s, p) && WorkerEnabled(s, step)
    ensures WithinBudget(WorkerAfter(s, step), p)
  {
    if WorkerEvent(s, step).Some? {
      WorkerEventOwn(s, step);
      EventKeepsBudget(s, WorkerEvent(s, step).value, p);
    }
  }

  lemma {:induction false} RunKeepsBudget(run: Run, p: Profile, k: nat)
    requires p.Valid() && run.Valid(p) && k < |run.states|
    ensures WithinBudget(run.states[k], p)
  {
    if k == 0 {
    } else {
      RunKeepsBudget(run, p, k - 1);
      RunKeepsBase(run, p, k - 1);
      StepKeepsBudget(run.states[k - 1], p, run.steps[k - 1]);
    }
  }

  /**
   End-to-end budget: in every fair and careful run, what the chain paid out for the requests created
   on a day is within that day's counter, and the counter is within the budget.
   */
  lemma EndToEndBudget(run: Run, p: Profile, k: nat, day: int)
    requires p.Valid() && run.Valid(p) && k < |run.states| && FairRun(run, k) && CarefulRun(run, k)
    ensures var s := run.states[k];
            Moved(s.chain.landed, DayTxs(s, s.store.order, day)) <= s.store.SpentOn(day) <= p.budget
  {
    var s := run.states[k];
    RunKeepsSingle(run, p, k);
    RunKeepsReleased(run, p, k);
    RunKeepsBudget(run, p, k);
    DayWithinReserved(s, s.store.order, day);
  }
}
