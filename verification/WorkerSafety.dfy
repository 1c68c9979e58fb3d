/**
 At-most-once funding and the end-to-end budget, over every run of the submission protocol.

 The code's own argument ("a retry can never double-fund a request") holds under three hypotheses on
 the run, `Fair`:
   - both reads of one settlement see the same chain state, which may lag behind;
   - the key checked for a replacement is the key that signs it;
   - no transaction whose hash a replacement overwrote in the store ever pays.
 Releasing the budget of a failed request is safe under two more, `Careful`:
   - restart recovery drops no request that has a submitted transaction;
   - no error text received after broadcasting contains the marker "terminal:".
 `WorkerNecessity` gives a run for each hypothesis that breaks the conclusion without it.
 */
module WorkerSafety {
  import opened Basics
  import opened FaucetEvents
  import opened FaucetBooks
  import opened WorkerProtocol
  import opened WorkerInvariants

  /** No transaction whose hash was overwritten by a replacement has moved value. */
  ghost predicate OverwrittenUnpaid(s: State) {
    forall id, x :: x in s.OverwrittenOf(id) ==> !s.chain.Paid(x)
  }

  /** Both reads of a settlement that ends in "gone" saw the same chain. */
  predicate OneChainState(s: State, step: Step) {
    step.Work? && step.work.NonceAhead? && s.worker.Probing? ==> s.worker.seen == step.work.view
  }

  /** The key checked for a replacement is still active when the replacement is signed. */
  predicate SameKey(s: State, step: Step) {
    step.Work? && step.work.SignReplacement? && On(s, Submitted) ==> s.signer == s.store.requests[s.worker.id].signer
  }

  /** Restart recovery drops only requests without a transaction. */
  predicate NoSubmittedDropped(s: State, step: Step) {
    step.Life? && step.life.DropBacklog? && s.phase.Booting? && s.phase.backlog != [] ==>
      var id := s.phase.backlog[0];
      id in s.store.requests ==> s.store.requests[id].status == Queued
  }

  /** No error text received after broadcasting carries the marker of a terminal error. */
  predicate NoMarkedError(step: Step) { !(step.Work? && step.work.FailMarked?) }

  ghost predicate Fair(s: State, step: Step, t: State) {
    OneChainState(s, step) && SameKey(s, step) && OverwrittenUnpaid(t)
  }

  ghost predicate Careful(s: State, step: Step) {
    NoSubmittedDropped(s, step) && NoMarkedError(step)
  }

  /** This transaction moved nothing and, if overwritten hashes never pay, never will. */
  predicate Dead(s: State, id: RequestId, x: Tx) {
    !s.chain.Paid(x) && (s.chain.Passed(x) || x in s.OverwrittenOf(id))
  }

  /** Only the remembered transaction of a request can have moved value or still move it. */
  ghost predicate OnlyCurrent(s: State, id: RequestId)
    requires id in s.store.requests
  {
    var r := s.store.requests[id];
    && (forall x :: x in s.TxsOf(id) ==> r.hash == Some(x) || Dead(s, id, x))
    && (r.status == Submitted && r.hash.Some? ==> r.hash.value.signer == r.signer)
  }

  /** The worker is about to sign for this request anew: its current transaction is really gone. */
  predicate Gone(s: State, id: RequestId) {
    id in s.store.requests && s.store.requests[id].hash.Some? ==>
      var x := s.store.requests[id].hash.value;
      !s.chain.Paid(x) && s.chain.Passed(x)
  }

  ghost predicate Verdict(s: State) {
    match s.worker
    case Probing(id, seen) =>
      id in s.store.requests && s.store.requests[id].hash.Some? ==> !seen.Paid(s.store.requests[id].hash.value)
    case Cleared(id) => Gone(s, id)
    case Ready(id) => Gone(s, id)
    case Attempting(id, _, _) => Gone(s, id)
    case Signed(id, tx, replacement) =>
      if replacement then id in s.store.requests ==> tx.signer == s.store.requests[id].signer else Gone(s, id)
    case _ => true
  }

  ghost predicate Single(s: State) {
    && (forall id :: id in s.store.requests ==> OnlyCurrent(s, id))
    && Verdict(s)
  }

  // ---------------------------------------------------------------- steps

  /** A dead transaction stays dead while its request's history stays as it is. */
  lemma ChainKeepsDead(s: State, step: ChainStep, id: RequestId, x: Tx)
    requires ChainEnabled(s, step) && Dead(s, id, x) && OverwrittenUnpaid(ChainAfter(s, step))
    ensures Dead(ChainAfter(s, step), id, x)
  {
    assert ChainAfter(s, step).OverwrittenOf(id) == s.OverwrittenOf(id);
  }

  lemma ChainKeepsSingle(s: State, step: ChainStep)
    requires Single(s) && ChainEnabled(s, step) && OverwrittenUnpaid(ChainAfter(s, step))
    ensures Single(ChainAfter(s, step))
  {
    var t := ChainAfter(s, step);
    forall id | id in t.store.requests ensures OnlyCurrent(t, id) {
      assert OnlyCurrent(s, id) && t.TxsOf(id) == s.TxsOf(id);
      forall x | x in t.TxsOf(id) ensures t.store.requests[id].hash == Some(x) || Dead(t, id, x) {
        if Dead(s, id, x) {
          ChainKeepsDead(s, step, id, x);
        }
      }
    }
  }

  /** History and chain untouched, hashes and signers of submitted requests untouched. */
  lemma SingleFrame(s: State, t: State)
    requires forall id :: id in s.store.requests ==> OnlyCurrent(s, id)
    requires t.txs == s.txs && t.overwritten == s.overwritten && t.chain == s.chain
    requires s.txs.Keys <= s.store.requests.Keys
    requires forall id :: id in t.store.requests && id in s.store.requests ==>
               && t.store.requests[id].hash == s.store.requests[id].hash
               && (t.store.requests[id].status == Submitted ==>
                     s.store.requests[id].status == Submitted
                         && t.store.requests[id].signer == s.store.requests[id].signer)
    requires forall id :: id in t.store.requests && id !in s.store.requests ==> t.store.requests[id].status == Queued
    ensures forall id :: id in t.store.requests ==> OnlyCurrent(t, id)
  {
    forall id | id in t.store.requests ensures OnlyCurrent(t, id) {
      assert t.TxsOf(id) == s.TxsOf(id) && t.OverwrittenOf(id) == s.OverwrittenOf(id);
      if id in s.store.requests {
        assert OnlyCurrent(s, id);
        forall x | x in t.TxsOf(id) ensures t.store.requests[id].hash == Some(x) || Dead(t, id, x) {
          assert Dead(s, id, x) ==> Dead(t, id, x);
        }
      }
    }
  }

  lemma ServerKeepsSingle(s: State, p: Profile, step: ServerStep)
    requires Owners(s) && Ledger(s) && Single(s) && ServerEnabled(s, p, step)
    ensures Single(ServerAfter(s, p, step))
  {
    var t := ServerAfter(s, p, step);
    ServerTouches(s, p, step);
    ServerEvolves(s, p, step);
    SingleFrame(s, t);
  }

  lemma LifeKeepsSingle(s: State, p: Profile, step: LifeStep)
    requires Replay(s.journal) == Ok(s.store) && Ledger(s) && Single(s) && Owners(s) && LifeEnabled(s, p, step)
    ensures Single(LifeAfter(s, p, step))
  {
    hide Replay, LifeAfter, Recorded, OnlyCurrent, OneReceipt, JournaledFirst, Funds;
    if step.DropBacklog? {
      assert s.phase.backlog[0] in s.phase.backlog;
      DropTouches(s, p, step);
    } else {
      LifeKeepsRecords(s, p, step);
    }
    SingleFrame(s, LifeAfter(s, p, step));
  }

  /** Journaling a re-signed or replacing transaction leaves every earlier one dead. */
  lemma JournalKeepsOnlyCurrent(s: State, at: Time, id: RequestId)
    requires WorkerEnabled(s, Journal(at)) && Site(s) && Verdict(s) && id in s.store.requests
    requires Recorded(s, id) && OnlyCurrent(s, id)
    requires OverwrittenUnpaid(WorkerAfter(s, Journal(at)))
    ensures OnlyCurrent(WorkerAfter(s, Journal(at)), id)
  {
    var t := WorkerAfter(s, Journal(at));
    if id == s.worker.id {
      assert t.TxsOf(id) == s.TxsOf(id) + {s.worker.tx};
      forall x | x in s.TxsOf(id) && x != s.worker.tx ensures Dead(t, id, x) {
        assert x in s.OverwrittenOf(id) + Lost(s) ==> x in t.OverwrittenOf(id);
      }
    } else {
      assert t.TxsOf(id) == s.TxsOf(id) && t.OverwrittenOf(id) == s.OverwrittenOf(id);
      forall x | x in t.TxsOf(id) ensures t.store.requests[id].hash == Some(x) || Dead(t, id, x) {
        assert Dead(s, id, x) ==> Dead(t, id, x);
      }
    }
  }

  lemma JournalKeepsSingle(s: State, at: Time)
    requires Ledger(s) && Single(s) && WorkerEnabled(s, Journal(at))
    requires OverwrittenUnpaid(WorkerAfter(s, Journal(at)))
    ensures Single(WorkerAfter(s, Journal(at)))
  {
    var t := WorkerAfter(s, Journal(at));
    forall id | id in t.store.requests ensures OnlyCurrent(t, id) {
      assert Recorded(s, id) && OnlyCurrent(s, id);
      JournalKeepsOnlyCurrent(s, at, id);
    }
  }

  /** What an earlier view rules out stays ruled out: a nonce it saw passed without a payment never pays. */
  lemma SeenGoneIsGone(now: Chain, view: Chain, x: Tx)
    requires now.Follows(view) && view.Passed(x) && !view.Paid(x)
    ensures now.Passed(x) && !now.Paid(x)
  {
    forall i | 0 <= i < |now.landed| ensures now.landed[i] != Landing(x, true) {
      assert i < |view.landed| ==> view.landed[i] == now.landed[i];
    }
  }

  /** The verdict "gone" is right when both reads saw the same chain, current or not. */
  lemma GoneVerdictIsSound(s: State, view: Chain)
    requires WorkerEnabled(s, NonceAhead(view)) && Verdict(s) && s.worker.seen == view
    requires Recorded(s, s.worker.id) && OnlyCurrent(s, s.worker.id)
    ensures Gone(s, s.worker.id)
  {
    SeenGoneIsGone(s.chain, view, s.store.requests[s.worker.id].hash.value);
  }

  lemma WorkerKeepsVerdict(s: State, step: WorkerStep)
    requires !s.worker.Idle? ==> IsPending(s, s.worker.id) && Recorded(s, s.worker.id) && OnlyCurrent(s, s.worker.id)
    requires Verdict(s) && WorkerEnabled(s, step) && !step.Journal?
    requires step.NonceAhead? ==> s.worker.seen == step.view
    requires step.SignReplacement? ==> s.signer == s.store.requests[s.worker.id].signer
    ensures Verdict(WorkerAfter(s, step))
  {
    var t := WorkerAfter(s, step);
    if step.NonceAhead? {
      GoneVerdictIsSound(s, step.view);
    }
    if !t.worker.Idle? {
      assert WorkerEvent(s, step).None?;
      assert t.store == s.store && t.chain == s.chain;
    }
  }

  lemma WorkerKeepsSingle(s: State, step: WorkerStep)
    requires Owners(s) && Ledger(s) && Single(s) && WorkerEnabled(s, step)
    requires Fair(s, Work(step), WorkerAfter(s, step))
    ensures Single(WorkerAfter(s, step))
  {
    if step.Journal? {
      JournalKeepsSingle(s, step.at);
    } else {
      var t := WorkerAfter(s, step);
      assert !s.worker.Idle? ==> Recorded(s, s.worker.id) && OnlyCurrent(s, s.worker.id);
      WorkerKeepsVerdict(s, step);
      WorkerEvolves(s, step);
      forall id | id in t.store.requests
        ensures t.store.requests[id].status == Submitted ==>
                  s.store.requests[id].status == Submitted && t.store.requests[id].signer == s.store.requests[id].signer
      {
        WorkerKeepsSigner(s, step, id);
      }
      SingleFrame(s, t);
    }
  }

  lemma WorkerKeepsSigner(s: State, step: WorkerStep, id: RequestId)
    requires Owners(s) && Site(s) && WorkerEnabled(s, step) && !step.Journal? && id in s.store.requests
    ensures var t := WorkerAfter(s, step);
            && id in t.store.requests
            && t.store.requests[id].signer == s.store.requests[id].signer
            && (t.store.requests[id].status == Submitted ==> s.store.requests[id].status == Submitted)
  {
    hide WorkerAfter, WorkerEvent, WorkerEnabled, Site;
    WorkerOutcome(s, step);
  }

  lemma StepKeepsSingle(s: State, p: Profile, step: Step)
    requires p.Valid() && Base(s) && Single(s) && Enabled(s, p, step) && Fair(s, step, After(s, p, step))
    ensures Single(After(s, p, step))
  {
    match step {
      case Server(x) => ServerKeepsSingle(s, p, x);
      case Network(x) => ChainKeepsSingle(s, x);
      case Life(x) => LifeKeepsSingle(s, p, x);
      case Work(x) => WorkerKeepsSingle(s, x);
    }
  }

  /** The run keeps the `Fair` hypotheses up to state `k`. */
  ghost predicate FairRun(run: Run, k: nat)
    requires |run.states| == |run.steps| + 1 && k < |run.states|
  {
    forall i :: 0 <= i < k ==> Fair(run.states[i], run.steps[i], run.states[i + 1])
  }

  ghost predicate CarefulRun(run: Run, k: nat)
    requires |run.states| == |run.steps| + 1 && k < |run.states|
  {
    forall i :: 0 <= i < k ==> Careful(run.states[i], run.steps[i])
  }

  lemma {:induction false} RunKeepsSingle(run: Run, p: Profile, k: nat)
    requires p.Valid() && run.Valid(p) && k < |run.states| && FairRun(run, k)
    ensures Base(run.states[k]) && Single(run.states[k])
  {
    RunKeepsBase(run, p, k);
    if k == 0 {
    } else {
      RunKeepsSingle(run, p, k - 1);
      StepKeepsSingle(run.states[k - 1], p, run.steps[k - 1]);
    }
  }

  /**
   At-most-once funding: in every fair run, with any crashes, ambiguous broadcasts, replacements and
   rotations, no two different transactions of one request ever move value.
   */
  lemma AtMostOnceFunding(run: Run, p: Profile, k: nat, id: RequestId, x: Tx, y: Tx)
    requires p.Valid() && run.Valid(p) && k < |run.states| && FairRun(run, k)
    requires x in run.states[k].TxsOf(id) && y in run.states[k].TxsOf(id)
    requires run.states[k].chain.Paid(x) && run.states[k].chain.Paid(y)
    ensures x == y
  {
    RunKeepsSingle(run, p, k);
    assert id in run.states[k].store.requests;
    assert OnlyCurrent(run.states[k], id);
  }

  // ---------------------------------------------------------------- released budget

  /** A failed request never moves value, so its reservation may be released. */
  ghost predicate Released(s: State) {
    forall id, x :: id in s.store.requests && s.store.requests[id].status == Failed && x in s.TxsOf(id) ==>
        Dead(s, id, x)
  }

  lemma ReleasedFrame(s: State, t: State)
    requires Released(s) && t.txs == s.txs && t.overwritten == s.overwritten && t.chain == s.chain
    requires forall id :: id in t.store.requests && t.store.requests[id].status == Failed ==>
               || (id in s.store.requests && s.store.requests[id].status == Failed)
               || forall x :: x in s.TxsOf(id) ==> Dead(s, id, x)
    ensures Released(t)
  {
    forall id, x | id in t.store.requests && t.store.requests[id].status == Failed && x in t.TxsOf(id)
      ensures Dead(t, id, x)
    {
      assert x in s.TxsOf(id) && t.OverwrittenOf(id) == s.OverwrittenOf(id);
      assert Dead(s, id, x);
    }
  }

  lemma ServerKeepsReleased(s: State, p: Profile, step: ServerStep)
    requires Owners(s) && Ledger(s) && Released(s) && ServerEnabled(s, p, step)
    ensures Released(ServerAfter(s, p, step))
  {
    var t := ServerAfter(s, p, step);
    ServerTouches(s, p, step);
    forall id | id in t.store.requests && t.store.requests[id].status == Failed
      ensures (id in s.store.requests && s.store.requests[id].status == Failed) ||
              forall x :: x in s.TxsOf(id) ==> Dead(s, id, x)
    {
      if id in s.awaiting {
        assert Recorded(s, id);
      }
    }
    ReleasedFrame(s, t);
  }

  lemma ChainKeepsReleased(s: State, step: ChainStep)
    requires Released(s) && ChainEnabled(s, step) && OverwrittenUnpaid(ChainAfter(s, step))
    ensures Released(ChainAfter(s, step))
  {
    var t := ChainAfter(s, step);
    forall id, x | id in t.store.requests && t.store.requests[id].status == Failed && x in t.TxsOf(id)
      ensures Dead(t, id, x)
    {
      assert x in s.TxsOf(id);
      ChainKeepsDead(s, step, id, x);
    }
  }

  lemma LifeKeepsReleased(s: State, p: Profile, step: LifeStep)
    requires Replay(s.journal) == Ok(s.store) && Owners(s) && Ledger(s) && Released(s) && LifeEnabled(s, p, step)
    requires Careful(s, Life(step))
    ensures Released(LifeAfter(s, p, step))
  {
    hide Replay, LifeAfter, OneReceipt, JournaledFirst, Funds, Dead;
    var t := LifeAfter(s, p, step);
    if step.DropBacklog? {
      assert s.phase.backlog[0] in s.phase.backlog;
      assert Recorded(s, s.phase.backlog[0]);
      DropTouches(s, p, step);
    } else {
      LifeKeepsRecords(s, p, step);
    }
    ReleasedFrame(s, t);
  }

  /** The worker fails a request only when every transaction of it is dead. */
  lemma FailureMeansDead(s: State, step: WorkerStep)
    requires Owners(s) && Ledger(s) && Single(s) && WorkerEnabled(s, step) && !step.FailMarked?
    requires WorkerEvent(s, step).Some? && WorkerEvent(s, step).value.payload.TxFailed?
    ensures forall x :: x in s.TxsOf(s.worker.id) ==> Dead(s, s.worker.id, x)
  {
    hide OneReceipt, JournaledFirst, Funds, Owned, Dead, WorkerEvent, WorkerEnabled, Verdict, Gone, Site;
    FailingStep(s, step);
    assert Recorded(s, s.worker.id) && OnlyCurrent(s, s.worker.id);
    if step.ReceiptReverted? || step.WaitReverted? {
      RevertedRequestIsDead(s, s.worker.id);
    } else {
      GoneRequestIsDead(s, s.worker.id);
    }
  }

  /** When the worker fails a request: its transaction was reverted, or it was about to sign anew. */
  lemma FailingStep(s: State, step: WorkerStep)
    requires Site(s) && Verdict(s) && WorkerEnabled(s, step) && !step.FailMarked?
    requires !s.worker.Idle? ==> IsPending(s, s.worker.id)
    requires WorkerEvent(s, step).Some? && WorkerEvent(s, step).value.payload.TxFailed?
    ensures !s.worker.Idle?
    ensures if step.ReceiptReverted? || step.WaitReverted?
            then var hash := s.store.requests[s.worker.id].hash; hash.Some? && s.chain.Reverted(hash.value)
            else Gone(s, s.worker.id)
  {
    hide Gone;
  }

  lemma GoneRequestIsDead(s: State, id: RequestId)
    requires id in s.store.requests && OnlyCurrent(s, id) && Gone(s, id)
    ensures forall x :: x in s.TxsOf(id) ==> Dead(s, id, x)
  {
  }

  lemma RevertedRequestIsDead(s: State, id: RequestId)
    requires id in s.store.requests && OnlyCurrent(s, id) && OneReceipt(s.chain)
    requires s.store.requests[id].hash.Some? && s.chain.Reverted(s.store.requests[id].hash.value)
    ensures forall x :: x in s.TxsOf(id) ==> Dead(s, id, x)
  {
    hide OneReceipt;
    RevertedIsDead(s, s.store.requests[id].hash.value);
  }

  lemma RevertedIsDead(s: State, x: Tx)
    requires OneReceipt(s.chain) && s.chain.Reverted(x)
    ensures !s.chain.Paid(x) && s.chain.Passed(x)
  {
  }

  lemma JournalKeepsReleased(s: State, at: Time)
    requires Owners(s) && Ledger(s) && Released(s) && WorkerEnabled(s, Journal(at))
    ensures Released(WorkerAfter(s, Journal(at)))
  {
    hide WorkerAfter, Ledger, Owners;
    JournalTouches(s, at);
    var t := WorkerAfter(s, Journal(at));
    forall id, x | id in t.store.requests && t.store.requests[id].status == Failed && x in t.TxsOf(id)
      ensures Dead(t, id, x)
    {
      assert id != s.worker.id;
      assert x in s.TxsOf(id) && t.OverwrittenOf(id) == s.OverwrittenOf(id);
    }
  }

  lemma WorkerKeepsReleased(s: State, step: WorkerStep)
    requires Owners(s) && Ledger(s) && Single(s) && Released(s) && WorkerEnabled(s, step) && !step.FailMarked?
    ensures Released(WorkerAfter(s, step))
  {
    hide WorkerAfter, WorkerEnabled, Owners, Single, Released;
    if step.Journal? {
      JournalKeepsReleased(s, step.at);
    } else {
      OtherStepKeepsReleased(s, step);
    }
  }

  lemma OtherStepKeepsReleased(s: State, step: WorkerStep)
    requires Owners(s) && Ledger(s) && Site(s) && Single(s) && Released(s) && WorkerEnabled(s, step)
    requires !step.Journal? && !step.FailMarked?
    ensures Released(WorkerAfter(s, step))
  {
    hide WorkerAfter, WorkerEvent, WorkerEnabled, Ledger, Single, Dead, Site;
    WorkerTouches(s, step);
    WorkerOutcome(s, step);
    if WorkerEvent(s, step).Some? && WorkerEvent(s, step).value.payload.TxFailed? {
      FailureMeansDead(s, step);
    }
    ReleasedFrame(s, WorkerAfter(s, step));
  }

  lemma StepKeepsReleased(s: State, p: Profile, step: Step)
    requires p.Valid() && Base(s) && Single(s) && Released(s) && Enabled(s, p, step)
    requires Fair(s, step, After(s, p, step)) && Careful(s, step)
    ensures Released(After(s, p, step))
  {
    match step {
      case Server(x) => ServerKeepsReleased(s, p, x);
      case Network(x) => ChainKeepsReleased(s, x);
      case Life(x) => LifeKeepsReleased(s, p, x);
      case Work(x) => WorkerKeepsReleased(s, x);
    }
  }

  lemma InitReleased(s: State)
    requires Init(s)
    ensures Released(s)
  {
  }

  lemma {:induction false} RunKeepsReleased(run: Run, p: Profile, k: nat)
    requires p.Valid() && run.Valid(p) && k < |run.states| && FairRun(run, k) && CarefulRun(run, k)
    ensures Released(run.states[k])
  {
    if k == 0 {
      InitReleased(run.states[0]);
    } else {
      RunKeepsReleased(run, p, k - 1);
      RunKeepsSingle(run, p, k - 1);
      var s, step, t := run.states[k - 1], run.steps[k - 1], run.states[k];
      assert Fair(s, step, t) && Careful(s, step) && Enabled(s, p, step) && t == After(s, p, step);
      StepKeepsReleased(s, p, step);
    }
  }
}
