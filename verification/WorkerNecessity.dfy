/**
 Each hypothesis of `WorkerSafety` is needed: for every one of them a run from a fresh deployment that
 keeps all the others and breaks the conclusion.  `ResigningPaysTwiceExactlyIfPaid` says for every
 reachable state when signing anew double-funds.
 */
module WorkerNecessity {
  import opened Basics
  import opened FaucetEvents
  import opened FaucetBooks
  import opened FaucetPending
  import opened WorkerProtocol
  import opened WorkerInvariants
  import opened WorkerSafety
  import opened WorkerBudget
  import opened WorkerHistory

  /** A path of the protocol, from any state. */
  ghost predicate Path(p: Profile, states: seq<State>, steps: seq<Step>) {
    && |states| == |steps| + 1
    && forall i :: 0 <= i < |steps| ==>
         Enabled(states[i], p, steps[i]) && states[i + 1] == After(states[i], p, steps[i])
  }

  ghost predicate PaidTwice(s: State, id: RequestId) {
    exists x, y :: x in s.TxsOf(id) && y in s.TxsOf(id) && x != y && s.chain.Paid(x) && s.chain.Paid(y)
  }

  ghost predicate PaidBefore(s: State, id: RequestId) {
    exists x :: x in s.TxsOf(id) && s.chain.Paid(x)
  }

  function End(states: seq<State>): State requires states != [] { states[|states| - 1] }

  /** One more step at the end of a path. */
  lemma Advance(p: Profile, states: seq<State>, steps: seq<Step>, step: Step)
    returns (states': seq<State>, steps': seq<Step>)
    requires Path(p, states, steps) && Enabled(End(states), p, step)
    ensures Path(p, states', steps') && End(states') == After(End(states), p, step)
    ensures states'[0] == states[0] && steps' == steps + [step]
    ensures states' == states + [End(states')]
  {
    states' := states + [After(End(states), p, step)];
    steps' := steps + [step];
  }

  lemma ToSigned(p: Profile, before: seq<State>, done: seq<Step>, nonce: nat, tip: nat, feeCap: nat)
    returns (states: seq<State>, steps: seq<Step>)
    requires Path(p, before, done)
    requires var s := End(before);
             s.worker.Cleared? && s.worker.id in s.store.requests && s.phase.Running? && s.signer !in s.store.fencedKeys
    ensures Path(p, states, steps) && states[0] == before[0]
    ensures steps == done + [Work(PassFence), Work(Attempt(nonce)), Work(Sign(tip, feeCap))]
    ensures var s := End(before);
            var r := s.store.requests[s.worker.id];
            End(states) == s.(worker :=
                Signed(s.worker.id, Tx(s.signer, nonce, r.address, r.amount, tip, feeCap), false),
                              signatures := s.signatures + [Signature(s.signer, |s.journal|)])
  {
    states, steps := Advance(p, before, done, Work(PassFence));
    states, steps := Advance(p, states, steps, Work(Attempt(nonce)));
    states, steps := Advance(p, states, steps, Work(Sign(tip, feeCap)));
  }

  lemma ToSent(p: Profile, before: seq<State>, done: seq<Step>, at: Time)
    returns (states: seq<State>, steps: seq<Step>)
    requires Path(p, before, done)
    requires var s := End(before); s.worker.Signed? && s.worker.id in s.store.requests && s.phase.Running?
    ensures Path(p, states, steps) && states[0] == before[0]
    ensures steps == done + [Work(Journal(at)), Work(SendOk)]
    ensures var s, t := End(before), End(states);
            && t.TxsOf(s.worker.id) == s.TxsOf(s.worker.id) + {s.worker.tx} && t.chain == s.chain
            && s.worker.tx in t.mempool
  {
    states, steps := Advance(p, before, done, Work(Journal(at)));
    states, steps := Advance(p, states, steps, Work(SendOk));
  }

  /**
   The verdict "gone" is exactly as good as the absence of a paid transaction: from any reachable
   state in which the worker is cleared to sign, signing at the account's next nonce, journaling,
   broadcasting and landing pays the request twice if and only if it was paid before.
   */
  lemma ResigningPaysTwiceExactlyIfPaid(s: State, p: Profile, tip: nat, feeCap: nat, at: Time)
    returns (states: seq<State>, steps: seq<Step>)
    requires Base(s) && s.phase.Running? && s.worker.Cleared? && s.signer !in s.store.fencedKeys
    ensures Path(p, states, steps) && states[0] == s
    ensures var (nonce, r) := (s.chain.NonceAt(s.signer), s.store.requests[s.worker.id]);
            steps == [Work(PassFence), Work(Attempt(nonce)), Work(Sign(tip, feeCap)), Work(Journal(at)), Work(SendOk),
                      Network(Land(Tx(s.signer, nonce, r.address, r.amount, tip, feeCap), true))]
    ensures PaidTwice(End(states), s.worker.id) <==> PaidBefore(s, s.worker.id)
  {
    hide After, Enabled, Recorded;
    states, steps := ToSigned(p, [s], [], s.chain.NonceAt(s.signer), tip, feeCap);
    var y := End(states).worker.tx;
    states, steps := ToSent(p, states, steps, at);
    LandIs(End(states), p, y);
    states, steps := Advance(p, states, steps, Network(Land(y, true)));
    PaidAfterLanding(s, End(states), s.worker.id, y);
  }

  lemma LandIs(s: State, p: Profile, y: Tx)
    requires y in s.mempool && y.nonce == s.chain.NonceAt(y.signer)
    ensures Enabled(s, p, Network(Land(y, true)))
    ensures var t := After(s, p, Network(Land(y, true)));
            t.txs == s.txs && t.chain.landed == s.chain.landed + [Landing(y, true)]
  {
  }

  lemma PaidAfterLanding(s: State, t: State, id: RequestId, y: Tx)
    requires OneReceipt(s.chain) && y.nonce == s.chain.NonceAt(y.signer)
    requires t.TxsOf(id) == s.TxsOf(id) + {y} && t.chain.landed == s.chain.landed + [Landing(y, true)]
    ensures PaidTwice(t, id) <==> PaidBefore(s, id)
  {
    assert Landing(y, true) !in s.chain.landed;
    assert t.chain.landed[|s.chain.landed|] == Landing(y, true);
    forall x: Tx ensures t.chain.Paid(x) <==> x == y || s.chain.Paid(x) {}
    if PaidBefore(s, id) {
      var x :| x in s.TxsOf(id) && s.chain.Paid(x);
      assert x in t.TxsOf(id) && y in t.TxsOf(id) && x != y && t.chain.Paid(x) && t.chain.Paid(y);
    }
    if PaidTwice(t, id) {
      var x, z :| x in t.TxsOf(id) && z in t.TxsOf(id) && x != z && t.chain.Paid(x) && t.chain.Paid(z);
      var other := if x == y then z else x;
      assert other in s.TxsOf(id) && s.chain.Paid(other);
    }
  }

  // ---------------------------------------------------------------- paying a failed request

  /** A transaction of the request has paid, or is on the network with its nonce still to come. */
  ghost predicate Payable(s: State, id: RequestId) {
    exists x :: x in s.TxsOf(id) && (s.chain.Paid(x) || (x in s.mempool && x.nonce >= s.chain.NonceAt(x.signer)))
  }

  /** A path on which only the chain moves. */
  ghost predicate ChainPath(p: Profile, states: seq<State>, steps: seq<Step>) {
    Path(p, states, steps) && forall i :: 0 <= i < |steps| ==> steps[i].Network?
  }

  /** What cannot be paid now is not paid by anything the chain does next. */
  lemma {:induction false} UnpayableStaysUnpaid(p: Profile, states: seq<State>, steps: seq<Step>, id: RequestId)
    requires ChainPath(p, states, steps) && !Payable(states[0], id)
    ensures !Payable(End(states), id)
    decreases |steps|
  {
    if steps == [] {
    } else {
      hide Enabled, After, Payable;
      var n := |steps| - 1;
      var before := states[..|states| - 1];
      assert End(before) == states[n] && before[0] == states[0];
      assert ChainPath(p, before, steps[..n]);
      UnpayableStaysUnpaid(p, before, steps[..n], id);
      assert Enabled(states[n], p, steps[n]) && states[n + 1] == After(states[n], p, steps[n]);
      ChainKeepsUnpayable(states[n], p, steps[n], id);
    }
  }

  lemma ChainKeepsUnpayable(s: State, p: Profile, step: Step, id: RequestId)
    requires Enabled(s, p, step) && step.Network? && !Payable(s, id)
    ensures !Payable(After(s, p, step), id)
  {
    var t := ChainAfter(s, step.network);
    forall x | x in t.TxsOf(id)
      ensures !t.chain.Paid(x) && !(x in t.mempool && x.nonce >= t.chain.NonceAt(x.signer))
    {
      assert x in s.TxsOf(id);
      assert t.chain.NonceAt(x.signer) >= s.chain.NonceAt(x.signer);
      if step.network.Land? {
        assert t.chain.landed == s.chain.landed + [Landing(step.network.tx, step.network.ok)];
        assert step.network.tx != x;
      }
    }
  }

  /** Other transactions of the account bring its nonce up, and then this one lands. */
  lemma {:induction false} LandWhenDue(p: Profile, states: seq<State>, steps: seq<Step>, x: Tx)
    returns (states': seq<State>, steps': seq<Step>)
    requires ChainPath(p, states, steps)
    requires x in End(states).mempool && x.nonce >= End(states).chain.NonceAt(x.signer)
    ensures ChainPath(p, states', steps') && states'[0] == states[0]
    ensures End(states').chain.Paid(x) && End(states').txs == End(states).txs
    decreases x.nonce - End(states).chain.NonceAt(x.signer)
  {
    var s := End(states);
    if x.nonce == s.chain.NonceAt(x.signer) {
      LandIs(s, p, x);
      states', steps' := Advance(p, states, steps, Network(Land(x, true)));
      assert End(states').chain.landed[|s.chain.landed|] == Landing(x, true);
    } else {
      var step := Network(Foreign(x.signer));
      var states1, steps1 := Advance(p, states, steps, step);
      states', steps' := LandWhenDue(p, states1, steps1, x);
    }
  }

  /**
   Whether anything the chain does next can pay for a request, whatever its status: exactly if one of
   its transactions has paid already, or is on the network with its nonce still to come.
   */
  lemma ChainCanPayExactlyIfPayable(s: State, p: Profile, id: RequestId)
    ensures Payable(s, id) <==>
            exists states, steps :: ChainPath(p, states, steps) && states[0] == s && PaidBefore(End(states), id)
  {
    if Payable(s, id) {
      var x :| x in s.TxsOf(id) && (s.chain.Paid(x) || (x in s.mempool && x.nonce >= s.chain.NonceAt(x.signer)));
      assert ChainPath(p, [s], []);
      if s.chain.Paid(x) {
        assert PaidBefore(End([s]), id);
      } else {
        var states, steps := LandWhenDue(p, [s], [], x);
        assert x in End(states).TxsOf(id);
        assert PaidBefore(End(states), id);
      }
    }
    if states, steps :| ChainPath(p, states, steps) && states[0] == s && PaidBefore(End(states), id) {
      assert Payable(End(states), id);
      if !Payable(s, id) {
        UnpayableStaysUnpaid(p, states, steps, id);
      }
    }
  }

  /**
   Dropping a request in restart recovery releases its budget; the chain can still pay for it exactly
   if it could before the drop.  A queued request has no transaction, so it never can.
   */
  lemma DropIsHarmlessExactlyIfUnpayable(s: State, p: Profile, at: Time)
    requires Base(s) && LifeEnabled(s, p, DropBacklog(at))
    ensures var (t, id) := (LifeAfter(s, p, DropBacklog(at)), s.phase.backlog[0]);
            && id in s.store.requests && id in t.store.requests && t.store.requests[id].status == Failed
            && (Payable(t, id) <==> Payable(s, id))
            && (s.store.requests[id].status == Queued ==> !Payable(s, id))
  {
    hide LifeAfter, OneReceipt, JournaledFirst, Payable, Books;
    var id := s.phase.backlog[0];
    assert id in s.phase.backlog;
    DropTouches(s, p, DropBacklog(at));
    assert Recorded(s, id);
    SamePayable(s, LifeAfter(s, p, DropBacklog(at)), id);
    if s.store.requests[id].status == Queued {
      UnsentIsUnpayable(s, id);
    }
  }

  lemma UnsentIsUnpayable(s: State, id: RequestId)
    requires s.TxsOf(id) == {}
    ensures !Payable(s, id)
  {
  }

  lemma SamePayable(s: State, t: State, id: RequestId)
    requires t.txs == s.txs && t.chain == s.chain && t.mempool == s.mempool
    ensures Payable(t, id) <==> Payable(s, id)
  {
    assert t.TxsOf(id) == s.TxsOf(id);
  }

  lemma MarkedFailureTouches(s: State, reason: string, reached: bool, at: Time)
    requires WorkerEnabled(s, FailMarked(reason, reached, at)) && s.worker.id in s.store.requests
    ensures var t := WorkerAfter(s, FailMarked(reason, reached, at));
            && t.txs == s.txs && t.chain == s.chain
            && t.mempool == s.mempool + (if reached then {s.worker.tx} else {})
            && s.worker.id in t.store.requests && t.store.requests[s.worker.id].status == Failed
  {
    hide AddSpent, BudgetDay;
  }

  /**
   The same for an error text with the terminal marker: the chain can still pay for the failed request
   exactly if it could before, or the attempt just made got through with its nonce still to come.
   */
  lemma MarkedFailureIsHarmlessExactly(s: State, reason: string, reached: bool, at: Time)
    requires Ledger(s) && WorkerEnabled(s, FailMarked(reason, reached, at)) && IsPending(s, s.worker.id)
    ensures var t := WorkerAfter(s, FailMarked(reason, reached, at));
            && s.worker.id in t.store.requests && t.store.requests[s.worker.id].status == Failed
            && (Payable(t, s.worker.id) <==>
                  Payable(s, s.worker.id) || (reached && s.worker.tx.nonce >= s.chain.NonceAt(s.worker.tx.signer)))
  {
    hide WorkerAfter, OneReceipt, JournaledFirst, Funds;
    var t, id := WorkerAfter(s, FailMarked(reason, reached, at)), s.worker.id;
    assert Recorded(s, id);
    MarkedFailureTouches(s, reason, reached, at);
    assert s.worker.tx in s.TxsOf(id) && t.TxsOf(id) == s.TxsOf(id);
    if Payable(s, id) {
      var x :| x in s.TxsOf(id) && (s.chain.Paid(x) || (x in s.mempool && x.nonce >= s.chain.NonceAt(x.signer)));
      assert x in t.TxsOf(id);
    }
    if reached && s.worker.tx.nonce >= s.chain.NonceAt(s.worker.tx.signer) {
      assert s.worker.tx in t.TxsOf(id) && s.worker.tx in t.mempool;
    }
  }

  // ---------------------------------------------------------------- one run per hypothesis

  /** Which hypotheses a run is held to. */
  datatype Rules = Rules(oneChain: bool, sameKey: bool, unpaid: bool, noDrop: bool, noMarker: bool)

  ghost predicate Obeys(rules: Rules, s: State, step: Step, t: State) {
    && (rules.oneChain ==> OneChainState(s, step))
    && (rules.sameKey ==> SameKey(s, step))
    && (rules.unpaid ==> OverwrittenUnpaid(t))
    && (rules.noDrop ==> NoSubmittedDropped(s, step))
    && (rules.noMarker ==> NoMarkedError(step))
  }

  ghost predicate Obedient(rules: Rules, run: Run) {
    |run.states| == |run.steps| + 1 &&
    forall i :: 0 <= i < |run.steps| ==> Obeys(rules, run.states[i], run.steps[i], run.states[i + 1])
  }

  const P := Profile(10, 1, 5, 100, 1)
  const KEY: Address := 7
  const NEXT_KEY: Address := 8
  const PAYEE: Address := 9
  const FRESH := State([], EMPTY, Down, 0, [], {}, multiset{}, Idle, Chain(map[], []), {}, map[], map[], [])
  /** The first transaction and its replacement. */
  const FIRST := Tx(KEY, 0, PAYEE, 10, 1, 1)
  const REPLACEMENT := Tx(KEY, 0, PAYEE, 10, 2, 2)

  /** `step` leads from `s` to `t`. */
  predicate Link(s: State, step: Step, t: State) { Enabled(s, P, step) && t == After(s, P, step) }

  /** Worker steps that only move the worker. */
  predicate Quiet(step: WorkerStep) {
    || step.ReceiptMissing? || step.NonceAhead? || step.TimedOut? || step.CheckReplacement? || step.Begin?
    || step.PassFence? || step.Attempt? || step.WaitOver?
  }

  lemma QuietMove(s: State, step: WorkerStep)
    requires WorkerEnabled(s, step) && Quiet(step)
    ensures Link(s, Work(step), s.(worker := WorkerNext(s, step)))
  {
    hide WorkerEnabled, WorkerNext;
    assert WorkerAfter(s, step).mempool == s.mempool;
  }

  /** Signing also records the signature. */
  lemma SigningMove(s: State, step: WorkerStep)
    requires WorkerEnabled(s, step) && (step.Sign? || step.SignReplacement?)
    ensures Link(s, Work(step), s.(worker := WorkerNext(s, step),
                                   signatures := s.signatures + [Signature(s.signer, |s.journal|)]))
  {
    hide WorkerEnabled, WorkerNext;
    assert WorkerAfter(s, step).mempool == s.mempool;
  }

  /** One more step of a run that obeys the rules. */
  lemma Go(rules: Rules, run: Run, step: Step, t: State) returns (next: Run)
    requires run.Valid(P) && Obedient(rules, run)
    requires Link(run.Last(), step, t) && Obeys(rules, run.Last(), step, t)
    ensures next.Valid(P) && Obedient(rules, next) && next.Last() == t
  {
    hide Enabled, After, Obeys, Init;
    next := Run(run.states + [t], run.steps + [step]);
  }

  /** Steps none of the rules speak about, with no hash overwritten that has paid. */
  predicate Plain(step: Step) {
    && !(step.Work? && (step.work.NonceAhead? || step.work.SignReplacement? || step.work.FailMarked?))
    && !(step.Life? && step.life.DropBacklog?)
  }

  lemma GoPlain(rules: Rules, run: Run, step: Step, t: State) returns (next: Run)
    requires run.Valid(P) && Obedient(rules, run) && Link(run.Last(), step, t)
    requires Plain(step) && (rules.unpaid ==> OverwrittenUnpaid(t))
    ensures next.Valid(P) && Obedient(rules, next) && next.Last() == t
  {
    next := Go(rules, run, step, t);
  }

  lemma NothingOverwritten(s: State)
    requires s.overwritten == map[] || s.overwritten == map["r" := {}]
    ensures OverwrittenUnpaid(s)
  {
  }

  const SERVING := FRESH.(phase := Running, signer := KEY)

  lemma ToServing(rules: Rules) returns (run: Run)
    ensures run.Valid(P) && Obedient(rules, run) && run.Last() == SERVING
  {
    run := Run([FRESH], []);
    var booting := FRESH.(phase := Booting([]), signer := KEY);
    run := GoPlain(rules, run, Life(Boot(KEY)), booting);
    run := GoPlain(rules, run, Life(Serve), SERVING);
  }

  const ACCEPTANCE := Event(1, RequestAccepted("r", ScopedKey(PAYEE, 0, "k"), PAYEE, 10))
  const ACCEPTED := StoreState(
    map["r" := Request("r", Queued, PAYEE, 10, 1, 1, "", None, 0, 0, ZERO_ADDRESS)], ["r"],
    map[ScopedKey(PAYEE, 0, "k") := "r"], map[PAYEE := AddressState(1, map[0 := 1])], map[0 := 10],
    false, "", map[], ZERO_ADDRESS)

  lemma AcceptanceApplies()
    ensures Acceptance(P, "k", PAYEE, 1, "r") == ACCEPTANCE && Apply(EMPTY, ACCEPTANCE) == Ok(ACCEPTED)
    ensures Decide(EMPTY, P, "k", PAYEE, 1) == Granted
  {
    assert BudgetDay(1) == 0;
    assert Apply(EMPTY, ACCEPTANCE).value.addresses == ACCEPTED.addresses;
    assert Apply(EMPTY, ACCEPTANCE).value.order == ACCEPTED.order;
  }

  const AWAITING := SERVING.(journal := [ACCEPTANCE], store := ACCEPTED, awaiting := {"r"})
  const QUEUED := AWAITING.(awaiting := {}, queue := ["r"])
  const TAKEN := QUEUED.(queue := [], worker := Deciding("r"))
  const CLEARED := TAKEN.(worker := Cleared("r"))

  lemma LinkAccept()
    ensures Link(SERVING, Server(Accept("k", PAYEE, 1, "r")), AWAITING)
  {
    AcceptanceApplies();
  }

  lemma LinkWorker()
    ensures Link(AWAITING, Server(Enqueue("r")), QUEUED)
    ensures Link(QUEUED, Work(Take), TAKEN)
    ensures Link(TAKEN, Work(Begin), CLEARED)
  {
  }

  /** What journaling a signed transaction does, field by field. */
  function JournaledState(s: State, at: Time): State
    requires s.worker.Signed? && s.worker.id in s.store.requests
  {
    var id, tx, r := s.worker.id, s.worker.tx, s.store.requests[s.worker.id];
    var signer := if s.worker.replacement then r.signer else tx.signer;
    s.(journal := s.journal + [Event(at, TxSubmitted(id, tx, tx.nonce, signer))],
       store := s.store.(requests := s.store.requests[id := r.(
         status := Submitted, hash := Some(tx), nonce := tx.nonce, signer := signer, updatedAt := at)]),
       worker := Journaled(id, tx, s.worker.replacement),
       txs := s.txs[id := s.TxsOf(id) + {tx}],
       overwritten := s.overwritten[id := s.OverwrittenOf(id) + Lost(s) - {tx}])
  }

  lemma JournalIs(s: State, at: Time)
    requires s.worker.Signed? && s.worker.id in s.store.requests && s.phase.Running?
    ensures Link(s, Work(Journal(at)), JournaledState(s, at))
  {
    hide Lost, AddSpent;
    var t := WorkerAfter(s, Journal(at));
    assert t.mempool == s.mempool + {} == s.mempool;
    assert t.store == JournaledState(s, at).store;
  }

  /** A run to a freshly accepted request that the worker is cleared to fund. */
  lemma ToCleared(rules: Rules) returns (run: Run)
    ensures run.Valid(P) && Obedient(rules, run) && run.Last() == CLEARED
  {
    hide Link;
    LinkAccept();
    LinkWorker();
    run := ToServing(rules);
    run := GoPlain(rules, run, Server(Accept("k", PAYEE, 1, "r")), AWAITING);
    run := GoPlain(rules, run, Server(Enqueue("r")), QUEUED);
    run := GoPlain(rules, run, Work(Take), TAKEN);
    run := GoPlain(rules, run, Work(Begin), CLEARED);
  }

  // ---- the first submission

  const ATTEMPTING := CLEARED.(worker := Attempting("r", KEY, 0))
  const SIGNED := CLEARED.(worker := Signed("r", FIRST, false), signatures := [Signature(KEY, 1)])
  const SUBMISSION := Event(2, TxSubmitted("r", FIRST, 0, KEY))
  const SUBMITTED := ACCEPTED.(requests :=
      map["r" := Request("r", Submitted, PAYEE, 10, 1, 2, "", Some(FIRST), 0, 0, KEY)])
  const JOURNALED := SIGNED.(journal := [ACCEPTANCE, SUBMISSION], store := SUBMITTED,
                             worker := Journaled("r", FIRST, false), txs := map["r" := {FIRST}],
                             overwritten := map["r" := {}])
  const SENT := JOURNALED.(worker := Waiting("r", FIRST), mempool := {FIRST})

  lemma LinkSubmission()
    ensures Link(CLEARED, Work(PassFence), CLEARED.(worker := Ready("r")))
    ensures Link(CLEARED.(worker := Ready("r")), Work(Attempt(0)), ATTEMPTING)
    ensures Link(ATTEMPTING, Work(Sign(1, 1)), SIGNED)
  {
    hide Link;
    LinkSigning(CLEARED, 0, FIRST);
    assert CLEARED.signatures + [Signature(KEY, |CLEARED.journal|)] == SIGNED.signatures;
  }

  lemma LinkJournal()
    ensures Link(SIGNED, Work(Journal(2)), JOURNALED)
  {
    hide Link;
    JournalIs(SIGNED, 2);
    var t := JournaledState(SIGNED, 2);
    assert SIGNED.TxsOf("r") + {FIRST} == {FIRST} && SIGNED.OverwrittenOf("r") + Lost(SIGNED) - {FIRST} == {};
    assert t.journal == JOURNALED.journal && t.txs == JOURNALED.txs && t.overwritten == JOURNALED.overwritten;
    assert t.store.requests == SUBMITTED.requests;
  }

  lemma LinkSent()
    ensures Link(JOURNALED, Work(SendOk), SENT)
  {
    hide Apply;
  }

  /** A run to the state in which the first transaction is on the network and the worker polls. */
  lemma ToSentFirst(rules: Rules) returns (run: Run)
    ensures run.Valid(P) && Obedient(rules, run) && run.Last() == SENT
  {
    hide Link;
    LinkSubmission();
    LinkJournal();
    LinkSent();
    NothingOverwritten(JOURNALED);
    run := ToCleared(rules);
    run := GoPlain(rules, run, Work(PassFence), CLEARED.(worker := Ready("r")));
    run := GoPlain(rules, run, Work(Attempt(0)), ATTEMPTING);
    run := GoPlain(rules, run, Work(Sign(1, 1)), SIGNED);
    run := GoPlain(rules, run, Work(Journal(2)), JOURNALED);
    run := GoPlain(rules, run, Work(SendOk), SENT);
  }

  // ---- signing anew at the end of a run

  lemma SignAnew(rules: Rules, run: Run, nonce: nat, at: Time) returns (next: Run, y: Tx)
    requires run.Valid(P) && Obedient(rules, run)
    requires var s := run.Last();
             && s.worker.Cleared? && s.worker.id in s.store.requests && s.phase.Running?
             && s.signer !in s.store.fencedKeys
             && (rules.unpaid ==> OverwrittenUnpaid(s))
    ensures next.Valid(P) && Obedient(rules, next)
    ensures var s, t := run.Last(), next.Last();
            && y.signer == s.signer && y.nonce == nonce
            && t.TxsOf(s.worker.id) == s.TxsOf(s.worker.id) + {y} && t.chain == s.chain
            && t.mempool == s.mempool + {y}
            && (rules.unpaid ==> OverwrittenUnpaid(t)) && y !in t.OverwrittenOf(s.worker.id)
            && (forall id :: t.OverwrittenOf(id) <= s.OverwrittenOf(id))
  {
    next, y := SignOnly(rules, run, nonce);
    next := JournalAndSend(rules, next, at);
  }

  lemma SignOnly(rules: Rules, run: Run, nonce: nat) returns (next: Run, y: Tx)
    requires run.Valid(P) && Obedient(rules, run)
    requires var s := run.Last();
             && s.worker.Cleared? && s.worker.id in s.store.requests && s.phase.Running?
             && s.signer !in s.store.fencedKeys
             && (rules.unpaid ==> OverwrittenUnpaid(s))
    ensures next.Valid(P) && Obedient(rules, next) && y.signer == run.Last().signer && y.nonce == nonce
    ensures var s := run.Last();
            next.Last() == s.(worker := Signed(s.worker.id, y, false),
                              signatures := s.signatures + [Signature(s.signer, |s.journal|)])
    ensures rules.unpaid ==> OverwrittenUnpaid(next.Last())
  {
    var s := run.Last();
    var id := s.worker.id;
    y := Tx(s.signer, nonce, s.store.requests[id].address, s.store.requests[id].amount, 1, 1);
    var ready, attempting := s.(worker := Ready(id)), s.(worker := Attempting(id, s.signer, nonce));
    var signed := s.(worker := Signed(id, y, false), signatures := s.signatures + [Signature(s.signer, |s.journal|)]);
    LinkSigning(s, nonce, y);
    UnpaidFrame(s, ready);
    UnpaidFrame(s, attempting);
    UnpaidFrame(s, signed);
    next := GoPlain(rules, run, Work(PassFence), ready);
    next := GoPlain(rules, next, Work(Attempt(nonce)), attempting);
    next := GoPlain(rules, next, Work(Sign(1, 1)), signed);
  }

  lemma LinkSigning(s: State, nonce: nat, y: Tx)
    requires s.worker.Cleared? && s.worker.id in s.store.requests && s.phase.Running? && s.signer !in s.store.fencedKeys
    requires y == Tx(s.signer, nonce, s.store.requests[s.worker.id].address, s.store.requests[s.worker.id].amount, 1, 1)
    ensures var id := s.worker.id;
            var ready, attempting := s.(worker := Ready(id)), s.(worker := Attempting(id, s.signer, nonce));
            && Link(s, Work(PassFence), ready)
            && Link(ready, Work(Attempt(nonce)), attempting)
            && Link(attempting, Work(Sign(1, 1)),
                    s.(worker := Signed(id, y, false), signatures := s.signatures + [Signature(s.signer, |s.journal|)]))
  {
    hide Link;
    var id := s.worker.id;
    var ready, attempting := s.(worker := Ready(id)), s.(worker := Attempting(id, s.signer, nonce));
    QuietMove(s, PassFence);
    QuietMove(ready, Attempt(nonce));
    SigningMove(attempting, Sign(1, 1));
  }

  lemma UnpaidFrame(s: State, t: State)
    requires t.overwritten == s.overwritten && t.chain == s.chain
    ensures OverwrittenUnpaid(s) ==> OverwrittenUnpaid(t)
  {
    forall id ensures t.OverwrittenOf(id) == s.OverwrittenOf(id) {}
  }

  lemma JournalAndSend(rules: Rules, run: Run, at: Time) returns (next: Run)
    requires run.Valid(P) && Obedient(rules, run)
    requires var s := run.Last();
             && s.worker.Signed? && !s.worker.replacement && s.worker.id in s.store.requests && s.phase.Running?
             && (rules.unpaid ==> OverwrittenUnpaid(s))
    ensures next.Valid(P) && Obedient(rules, next)
    ensures var s, t := run.Last(), next.Last();
            && t.TxsOf(s.worker.id) == s.TxsOf(s.worker.id) + {s.worker.tx} && t.chain == s.chain
            && t.mempool == s.mempool + {s.worker.tx}
            && (rules.unpaid ==> OverwrittenUnpaid(t)) && s.worker.tx !in t.OverwrittenOf(s.worker.id)
            && (forall id :: t.OverwrittenOf(id) <= s.OverwrittenOf(id))
  {
    hide WorkerAfter, Obedient, Link, OverwrittenUnpaid, WorkerEnabled, Enabled, After, Init;
    var s := run.Last();
    AfterJournal(s, at);
    var journaled := WorkerAfter(s, Journal(at));
    next := GoPlain(rules, run, Work(Journal(at)), journaled);
    AfterSend(journaled);
    var sent := WorkerAfter(journaled, SendOk);
    UnpaidFrame(journaled, sent);
    next := GoPlain(rules, next, Work(SendOk), sent);
  }

  lemma AfterJournal(s: State, at: Time)
    requires s.worker.Signed? && !s.worker.replacement && s.worker.id in s.store.requests && s.phase.Running?
    ensures var t := WorkerAfter(s, Journal(at));
            && WorkerEnabled(s, Journal(at)) && WorkerEnabled(t, SendOk)
            && t.worker == Journaled(s.worker.id, s.worker.tx, false) && t.phase.Running? && t.chain == s.chain
            && t.mempool == s.mempool
            && t.TxsOf(s.worker.id) == s.TxsOf(s.worker.id) + {s.worker.tx}
            && s.worker.tx !in t.OverwrittenOf(s.worker.id)
            && (forall id :: t.OverwrittenOf(id) <= s.OverwrittenOf(id))
            && (OverwrittenUnpaid(s) ==> OverwrittenUnpaid(t)) && Link(s, Work(Journal(at)), t)
  {
    hide Apply;
    JournaledOverwrites(s, at);
    var t := WorkerAfter(s, Journal(at));
    assert t.TxsOf(s.worker.id) == s.TxsOf(s.worker.id) + {s.worker.tx};
  }

  /** A first submission overwrites nothing. */
  lemma JournaledOverwrites(s: State, at: Time)
    requires s.worker.Signed? && !s.worker.replacement && s.worker.id in s.store.requests && s.phase.Running?
    ensures var t := WorkerAfter(s, Journal(at));
            && (forall id :: t.OverwrittenOf(id) <= s.OverwrittenOf(id))
            && s.worker.tx !in t.OverwrittenOf(s.worker.id)
            && (OverwrittenUnpaid(s) ==> OverwrittenUnpaid(t))
  {
    hide Apply;
    var t := WorkerAfter(s, Journal(at));
    assert Lost(s) == {} && t.chain == s.chain;
    forall id ensures t.OverwrittenOf(id) <= s.OverwrittenOf(id) {}
  }

  lemma AfterSend(s: State)
    requires s.worker.Journaled? && !s.worker.replacement && s.phase.Running?
    ensures var t := WorkerAfter(s, SendOk);
            && t.chain == s.chain && t.mempool == s.mempool + {s.worker.tx} && t.txs == s.txs
            && t.overwritten == s.overwritten
            && Link(s, Work(SendOk), t)
  {
    hide Apply;
  }

  lemma PaidByLanding(c: Chain, y: Tx, z: Tx)
    ensures Landing(z, true) in c.landed + [Landing(y, true)] <==> c.Paid(z) || z == y
  {
    assert (c.landed + [Landing(y, true)])[|c.landed|] == Landing(y, true);
  }

  /** Landing the transaction signed anew pays a request that was paid already once more. */
  lemma LandAgain(rules: Rules, run: Run, id: RequestId, x: Tx, y: Tx) returns (next: Run)
    requires run.Valid(P) && Obedient(rules, run)
    requires var s := run.Last();
             && x in s.TxsOf(id) && y in s.TxsOf(id) && x != y && s.chain.Paid(x) && y in s.mempool
             && y.nonce == s.chain.NonceAt(y.signer)
             && (rules.unpaid ==> OverwrittenUnpaid(s) && forall other :: y !in s.OverwrittenOf(other))
    ensures next.Valid(P) && Obedient(rules, next) && PaidTwice(next.Last(), id)
  {
    var s := run.Last();
    var t := ChainAfter(s, Land(y, true));
    forall other ensures t.OverwrittenOf(other) == s.OverwrittenOf(other) && t.TxsOf(other) == s.TxsOf(other) {}
    assert t.chain.landed[|s.chain.landed|] == Landing(y, true);
    if rules.unpaid {
      forall other, z | z in t.OverwrittenOf(other) ensures !t.chain.Paid(z) {
        assert z in s.OverwrittenOf(other) && z != y;
        PaidByLanding(s.chain, y, z);
      }
    }
    next := GoPlain(rules, run, Network(Land(y, true)), t);
    assert t.chain.Paid(x) && t.chain.Paid(y);
  }

  // ---- (1) the two reads of a settlement see different chains

  const CHAIN_BEFORE := Chain(map[], [])
  const CHAIN_PAID := Chain(map[KEY := 1], [Landing(FIRST, true)])
  const RETRYING := SENT.(worker := Deciding("r"))
  const PROBING := SENT.(worker := Probing("r", CHAIN_BEFORE))
  const OVERTAKEN := PROBING.(chain := CHAIN_PAID)
  const MISJUDGED := OVERTAKEN.(worker := Cleared("r"))

  lemma LinkRetrying()
    ensures Link(SENT, Work(WaitOver), RETRYING)
  {
    hide Link;
    QuietMove(SENT, WaitOver);
  }

  lemma LinkProbe()
    ensures Link(RETRYING, Work(ReceiptMissing(CHAIN_BEFORE)), PROBING)
  {
    hide Link;
    QuietMove(RETRYING, ReceiptMissing(CHAIN_BEFORE));
  }

  lemma LinkOvertaken()
    ensures Link(PROBING, Network(Land(FIRST, true)), OVERTAKEN)
  {
  }

  lemma LinkMisjudged()
    ensures Link(OVERTAKEN, Work(NonceAhead(CHAIN_PAID)), MISJUDGED)
  {
    hide Link;
    QuietMove(OVERTAKEN, NonceAhead(CHAIN_PAID));
  }

  lemma ToProbing(rules: Rules) returns (run: Run)
    ensures run.Valid(P) && Obedient(rules, run) && run.Last() == PROBING
  {
    hide Link;
    LinkRetrying();
    LinkProbe();
    NothingOverwritten(RETRYING);
    NothingOverwritten(PROBING);
    run := ToSentFirst(rules);
    run := GoPlain(rules, run, Work(WaitOver), RETRYING);
    run := GoPlain(rules, run, Work(ReceiptMissing(CHAIN_BEFORE)), PROBING);
  }

  /** A landing between the receipt read and the nonce read double-funds, all else being kept. */
  lemma OneChainStateIsNeeded() returns (run: Run)
    ensures run.Valid(P) && Obedient(Rules(false, true, true, true, true), run) && PaidTwice(run.Last(), "r")
  {
    hide Link;
    var rules := Rules(false, true, true, true, true);
    LinkOvertaken();
    LinkMisjudged();
    NothingOverwritten(OVERTAKEN);
    NothingOverwritten(MISJUDGED);
    run := ToProbing(rules);
    run := GoPlain(rules, run, Network(Land(FIRST, true)), OVERTAKEN);
    run := Go(rules, run, Work(NonceAhead(CHAIN_PAID)), MISJUDGED);
    var y;
    run, y := SignAnew(rules, run, 1, 3);
    assert forall id :: y !in run.Last().OverwrittenOf(id);
    run := LandAgain(rules, run, "r", FIRST, y);
  }

  // ---- (2) an overwritten hash pays

  const STUCK := PROBING.(worker := Stuck("r"))
  const REPLACING := PROBING.(worker := Replacing("r"))
  const RESIGNED := PROBING.(worker := Signed("r", REPLACEMENT, true),
      signatures := [Signature(KEY, 1), Signature(KEY, 2)])
  const REPLACED := RESIGNED.(
    journal := [ACCEPTANCE, SUBMISSION, Event(3, TxSubmitted("r", REPLACEMENT, 0, KEY))],
    store := ACCEPTED.(requests :=
        map["r" := Request("r", Submitted, PAYEE, 10, 1, 3, "", Some(REPLACEMENT), 0, 0, KEY)]),
    worker := Journaled("r", REPLACEMENT, true),
    txs := map["r" := {FIRST, REPLACEMENT}], overwritten := map["r" := {FIRST}])
  const RESENT := REPLACED.(worker := Deciding("r"), mempool := {FIRST, REPLACEMENT})
  const OVERWRITTEN_PAID := RESENT.(chain := CHAIN_PAID)
  const NOT_FOUND := OVERWRITTEN_PAID.(worker := Probing("r", CHAIN_PAID))
  const FORGOTTEN := OVERWRITTEN_PAID.(worker := Cleared("r"))

  lemma LinkStuck()
    ensures Link(PROBING, Work(TimedOut(CHAIN_BEFORE)), STUCK)
  {
    hide Link;
    QuietMove(PROBING, TimedOut(CHAIN_BEFORE));
  }

  lemma LinkReplacing()
    ensures Link(STUCK, Work(CheckReplacement), REPLACING)
  {
    hide Link;
    QuietMove(STUCK, CheckReplacement);
  }

  lemma LinkResigned()
    ensures Link(REPLACING, Work(SignReplacement(2, 2)), RESIGNED)
  {
    hide Link;
    SigningMove(REPLACING, SignReplacement(2, 2));
    assert REPLACING.signatures + [Signature(KEY, |REPLACING.journal|)] == RESIGNED.signatures;
  }

  lemma LinkReplaced()
    ensures Link(RESIGNED, Work(Journal(3)), REPLACED)
  {
    hide Link;
    JournalIs(RESIGNED, 3);
    var t := JournaledState(RESIGNED, 3);
    assert RESIGNED.TxsOf("r") + {REPLACEMENT} == {FIRST, REPLACEMENT};
    assert RESIGNED.OverwrittenOf("r") + Lost(RESIGNED) - {REPLACEMENT} == {FIRST};
    assert t.journal == REPLACED.journal && t.txs == REPLACED.txs && t.overwritten == REPLACED.overwritten;
    assert t.store.requests == REPLACED.store.requests;
  }

  lemma LinkResent()
    ensures Link(REPLACED, Work(SendOk), RESENT)
  {
    hide Apply;
  }

  lemma LinkOverwrittenPaid()
    ensures Link(RESENT, Network(Land(FIRST, true)), OVERWRITTEN_PAID)
  {
  }

  lemma LinkNotFound()
    ensures Link(OVERWRITTEN_PAID, Work(ReceiptMissing(CHAIN_PAID)), NOT_FOUND)
  {
    hide Link;
    QuietMove(OVERWRITTEN_PAID, ReceiptMissing(CHAIN_PAID));
  }

  lemma LinkForgotten()
    ensures Link(NOT_FOUND, Work(NonceAhead(CHAIN_PAID)), FORGOTTEN)
  {
    hide Link;
    QuietMove(NOT_FOUND, NonceAhead(CHAIN_PAID));
  }

  lemma ToResent(rules: Rules) returns (run: Run)
    requires !rules.unpaid
    ensures run.Valid(P) && Obedient(rules, run) && run.Last() == RESENT
  {
    hide Link;
    LinkStuck();
    LinkReplacing();
    LinkResigned();
    LinkReplaced();
    LinkResent();
    run := ToProbing(rules);
    run := GoPlain(rules, run, Work(TimedOut(CHAIN_BEFORE)), STUCK);
    run := GoPlain(rules, run, Work(CheckReplacement), REPLACING);
    run := Go(rules, run, Work(SignReplacement(2, 2)), RESIGNED);
    run := GoPlain(rules, run, Work(Journal(3)), REPLACED);
    run := GoPlain(rules, run, Work(SendOk), RESENT);
  }

  /** A replaced transaction that lands is not found under the new hash, and the request is paid twice. */
  lemma OverwrittenUnpaidIsNeeded() returns (run: Run)
    ensures run.Valid(P) && Obedient(Rules(true, true, false, true, true), run) && PaidTwice(run.Last(), "r")
  {
    hide Link;
    var rules := Rules(true, true, false, true, true);
    LinkOverwrittenPaid();
    LinkNotFound();
    LinkForgotten();
    run := ToResent(rules);
    run := GoPlain(rules, run, Network(Land(FIRST, true)), OVERWRITTEN_PAID);
    run := GoPlain(rules, run, Work(ReceiptMissing(CHAIN_PAID)), NOT_FOUND);
    run := Go(rules, run, Work(NonceAhead(CHAIN_PAID)), FORGOTTEN);
    var y;
    run, y := SignAnew(rules, run, 1, 4);
    run := LandAgain(rules, run, "r", FIRST, y);
  }

  // ---- (3) the key rotates between the replacement's check and its signature

  const CHECKED := REPLACING.(rotating := multiset{NEXT_KEY})
  const ROTATION := Event(3, SignerRotated(Some(KEY), NEXT_KEY))
  const ROTATED := REPLACING.(
    journal := [ACCEPTANCE, SUBMISSION, ROTATION], signer := NEXT_KEY,
    store := SUBMITTED.(fencedKeys := map[KEY := 3], activeSigner := NEXT_KEY))
  /** Signed by the new key at the old account's nonce. */
  const STRAY := Tx(NEXT_KEY, 0, PAYEE, 10, 2, 2)
  const STRAY_SIGNED :=
      ROTATED.(worker := Signed("r", STRAY, true), signatures := [Signature(KEY, 1), Signature(NEXT_KEY, 3)])
  const STRAY_STORE := SUBMITTED.(
    fencedKeys := map[KEY := 3], activeSigner := NEXT_KEY,
    requests := map["r" := Request("r", Submitted, PAYEE, 10, 1, 4, "", Some(STRAY), 0, 0, KEY)])
  const STRAY_JOURNALED := STRAY_SIGNED.(
    journal := [ACCEPTANCE, SUBMISSION, ROTATION, Event(4, TxSubmitted("r", STRAY, 0, KEY))],
    store := STRAY_STORE, worker := Journaled("r", STRAY, true),
    txs := map["r" := {FIRST, STRAY}], overwritten := map["r" := {FIRST}])
  const STRAY_SENT := STRAY_JOURNALED.(worker := Deciding("r"), mempool := {FIRST, STRAY})
  const CHAIN_FOREIGN := Chain(map[KEY := 1], [])
  const STRAY_WAITING := STRAY_SENT.(chain := CHAIN_FOREIGN)
  const STRAY_PROBED := STRAY_WAITING.(worker := Probing("r", CHAIN_FOREIGN))
  const STRAY_CLEARED := STRAY_WAITING.(worker := Cleared("r"))

  lemma LinkRotation()
    ensures Link(REPLACING, Server(CheckRotation(NEXT_KEY)), CHECKED)
    ensures Link(CHECKED, Server(SwapSigner(NEXT_KEY, 3)), ROTATED)
  {
    var t := ServerAfter(CHECKED, P, SwapSigner(NEXT_KEY, 3));
    assert t.journal == ROTATED.journal && t.rotating == multiset{};
  }

  lemma LinkStraySigned()
    ensures Link(ROTATED, Work(SignReplacement(2, 2)), STRAY_SIGNED)
  {
    hide Link;
    SigningMove(ROTATED, SignReplacement(2, 2));
    assert ROTATED.signatures + [Signature(NEXT_KEY, |ROTATED.journal|)] == STRAY_SIGNED.signatures;
  }

  lemma LinkStraySent()
    ensures Link(STRAY_JOURNALED, Work(SendOk), STRAY_SENT)
  {
    hide Apply;
  }

  lemma LinkStray()
    ensures Link(STRAY_SIGNED, Work(Journal(4)), STRAY_JOURNALED)
  {
    hide Link;
    JournalIs(STRAY_SIGNED, 4);
    var t := JournaledState(STRAY_SIGNED, 4);
    assert STRAY_SIGNED.TxsOf("r") + {STRAY} == {FIRST, STRAY};
    assert STRAY_SIGNED.OverwrittenOf("r") + Lost(STRAY_SIGNED) - {STRAY} == {FIRST};
    assert t.journal == STRAY_JOURNALED.journal && t.txs == STRAY_JOURNALED.txs
        && t.overwritten == STRAY_JOURNALED.overwritten;
    assert t.store.requests == STRAY_STORE.requests;
  }

  lemma LinkStrayWaiting()
    ensures Link(STRAY_SENT, Network(Foreign(KEY)), STRAY_WAITING)
  {
  }

  lemma LinkStrayProbed()
    ensures Link(STRAY_WAITING, Work(ReceiptMissing(CHAIN_FOREIGN)), STRAY_PROBED)
  {
    hide Link;
    QuietMove(STRAY_WAITING, ReceiptMissing(CHAIN_FOREIGN));
  }

  lemma LinkStrayCleared()
    ensures Link(STRAY_PROBED, Work(NonceAhead(CHAIN_FOREIGN)), STRAY_CLEARED)
  {
    hide Link;
    QuietMove(STRAY_PROBED, NonceAhead(CHAIN_FOREIGN));
  }

  lemma FirstUnpaid(s: State)
    requires s.overwritten == map["r" := {FIRST}] && Landing(FIRST, true) !in s.chain.landed
    ensures OverwrittenUnpaid(s)
  {
  }

  lemma ToStraySent(rules: Rules) returns (run: Run)
    requires !rules.sameKey
    ensures run.Valid(P) && Obedient(rules, run) && run.Last() == STRAY_SENT
  {
    hide Link;
    LinkStuck();
    LinkReplacing();
    LinkResigned();
    LinkRotation();
    LinkStraySigned();
    LinkStray();
    LinkStraySent();
    NothingOverwritten(STUCK);
    NothingOverwritten(REPLACING);
    NothingOverwritten(CHECKED);
    NothingOverwritten(ROTATED);
    NothingOverwritten(STRAY_SIGNED);
    FirstUnpaid(STRAY_JOURNALED);
    FirstUnpaid(STRAY_SENT);
    run := ToProbing(rules);
    run := GoPlain(rules, run, Work(TimedOut(CHAIN_BEFORE)), STUCK);
    run := GoPlain(rules, run, Work(CheckReplacement), REPLACING);
    run := GoPlain(rules, run, Server(CheckRotation(NEXT_KEY)), CHECKED);
    run := GoPlain(rules, run, Server(SwapSigner(NEXT_KEY, 3)), ROTATED);
    run := Go(rules, run, Work(SignReplacement(2, 2)), STRAY_SIGNED);
    run := GoPlain(rules, run, Work(Journal(4)), STRAY_JOURNALED);
    run := GoPlain(rules, run, Work(SendOk), STRAY_SENT);
  }

  lemma ToStrayCleared(rules: Rules) returns (run: Run)
    requires !rules.sameKey
    ensures run.Valid(P) && Obedient(rules, run) && run.Last() == STRAY_CLEARED && OverwrittenUnpaid(STRAY_CLEARED)
  {
    hide Link;
    LinkStrayWaiting();
    LinkStrayProbed();
    LinkStrayCleared();
    FirstUnpaid(STRAY_WAITING);
    FirstUnpaid(STRAY_PROBED);
    FirstUnpaid(STRAY_CLEARED);
    run := ToStraySent(rules);
    run := GoPlain(rules, run, Network(Foreign(KEY)), STRAY_WAITING);
    run := GoPlain(rules, run, Work(ReceiptMissing(CHAIN_FOREIGN)), STRAY_PROBED);
    run := Go(rules, run, Work(NonceAhead(CHAIN_FOREIGN)), STRAY_CLEARED);
  }

  /** The old account's nonce says nothing about a replacement the new key signed. */
  lemma SameKeyIsNeeded() returns (run: Run)
    ensures run.Valid(P) && Obedient(Rules(true, false, true, true, true), run) && PaidTwice(run.Last(), "r")
  {
    hide Obedient, WorkerAfter, WorkerEnabled, Init;
    var rules := Rules(true, false, true, true, true);
    run := ToStrayCleared(rules);
    var y;
    run, y := SignAnew(rules, run, 1, 5);
    var s := run.Last();
    var t := ChainAfter(s, Land(STRAY, true));
    forall id, z | z in t.OverwrittenOf(id) ensures !t.chain.Paid(z) {
      assert z in s.OverwrittenOf(id) && z in STRAY_CLEARED.OverwrittenOf(id) && z == FIRST;
      PaidByLanding(s.chain, STRAY, z);
    }
    PaidByLanding(s.chain, STRAY, STRAY);
    forall id ensures y !in t.OverwrittenOf(id) {
      assert t.OverwrittenOf(id) == s.OverwrittenOf(id) <= STRAY_CLEARED.OverwrittenOf(id) <= {FIRST};
    }
    run := GoPlain(rules, run, Network(Land(STRAY, true)), t);
    run := LandAgain(rules, run, "r", STRAY, y);
  }

  // ---- (4) an error text with the terminal marker arrives after broadcasting

  const RELEASED := SENT.(
    journal := [ACCEPTANCE, SUBMISSION, Event(3, TxFailed("r", "read funding receipt: terminal: closed"))],
    store := SUBMITTED.(
      requests := map["r" :=
          Request("r", Failed, PAYEE, 10, 1, 3, "read funding receipt: terminal: closed", Some(FIRST), 0, 0, KEY)],
      spentByDay := map[0 := 0]),
    worker := Idle)
  const PAID_AFTER_RELEASE := RELEASED.(chain := CHAIN_PAID)

  lemma LinkReleased()
    ensures Link(SENT, Work(FailMarked("read funding receipt: terminal: closed", false, 3)), RELEASED)
  {
    hide WithAccepted, WithDenied, WithSubmitted, WithConfirmed, WithFailed;
    FailedFirst();
    MarkedMove(SENT, "read funding receipt: terminal: closed", 3);
    assert SENT.journal + [Event(3, TxFailed("r", "read funding receipt: terminal: closed"))] == RELEASED.journal;
  }

  lemma MarkedMove(s: State, reason: string, at: Time)
    requires s.phase.Running? && s.worker.Waiting? && s.worker.id in s.store.requests
    ensures Link(s, Work(FailMarked(reason, false, at)),
                 s.(journal := s.journal + [Event(at, TxFailed(s.worker.id, reason))],
                    store := WithFailed(s.store, at, s.worker.id, reason), worker := Idle))
  {
    hide WithFailed;
    assert WorkerAfter(s, FailMarked(reason, false, at)).mempool == s.mempool;
  }

  lemma FailedFirst()
    ensures WithFailed(SUBMITTED, 3, "r", "read funding receipt: terminal: closed") == RELEASED.store
  {
    assert BudgetDay(1) == 0;
    var t := WithFailed(SUBMITTED, 3, "r", "read funding receipt: terminal: closed");
    assert t.requests == RELEASED.store.requests && t.spentByDay == RELEASED.store.spentByDay;
  }

  lemma LinkPaidAfterRelease()
    ensures Link(RELEASED, Network(Land(FIRST, true)), PAID_AFTER_RELEASE)
  {
  }

  ghost predicate OverPaid(s: State, day: int) {
    Moved(s.chain.landed, DayTxs(s, s.store.order, day)) > s.store.SpentOn(day)
  }

  lemma FirstMoved(s: State, txs: set<Tx>)
    requires s.chain.landed == [Landing(FIRST, true)] && FIRST in txs
    ensures Moved(s.chain.landed, txs) == 10
  {
    assert s.chain.landed[..0] == [];
  }

  /** A request failed by such a text gives back its budget while its transaction still pays. */
  lemma NoMarkedErrorIsNeeded() returns (run: Run)
    ensures run.Valid(P) && Obedient(Rules(true, true, true, true, false), run) && OverPaid(run.Last(), 0)
  {
    hide Link;
    var rules := Rules(true, true, true, true, false);
    LinkReleased();
    LinkPaidAfterRelease();
    NothingOverwritten(RELEASED);
    NothingOverwritten(PAID_AFTER_RELEASE);
    run := ToSentFirst(rules);
    run := Go(rules, run, Work(FailMarked("read funding receipt: terminal: closed", false, 3)), RELEASED);
    run := GoPlain(rules, run, Network(Land(FIRST, true)), PAID_AFTER_RELEASE);
    var s := PAID_AFTER_RELEASE;
    assert BudgetDay(1) == 0 && s.store.order[..0] == [];
    assert FIRST in DayTxs(s, s.store.order, 0);
    FirstMoved(s, DayTxs(s, s.store.order, 0));
  }

  // ---- (5) restart recovery drops a submitted request

  const LATER: Time := DAY_NANOS + 1
  const OTHER_PAYEE: Address := 10
  const OTHER_ACCEPTANCE := Event(LATER, RequestAccepted("q", ScopedKey(OTHER_PAYEE, 1, "k"), OTHER_PAYEE, 10))
  const OTHER_REQUEST := Request("q", Queued, OTHER_PAYEE, 10, LATER, LATER, "", None, 0, 0, ZERO_ADDRESS)
  const EARLY_REQUEST := Request("r", Queued, PAYEE, 10, 1, 1, "", None, 0, 0, ZERO_ADDRESS)
  const TWO_ACCEPTED := StoreState(
    map["r" := EARLY_REQUEST, "q" := OTHER_REQUEST], ["r", "q"],
    map[ScopedKey(PAYEE, 0, "k") := "r", ScopedKey(OTHER_PAYEE, 1, "k") := "q"],
    map[PAYEE := AddressState(1, map[0 := 1]), OTHER_PAYEE := AddressState(LATER, map[1 := 1])],
    map[0 := 10, 1 := 10], false, "", map[], ZERO_ADDRESS)
  const TWO_AWAITING :=
      SERVING.(journal := [ACCEPTANCE, OTHER_ACCEPTANCE], store := TWO_ACCEPTED, awaiting := {"r", "q"})
  const OTHER_QUEUED := TWO_AWAITING.(queue := ["q"], awaiting := {"r"})
  const OTHER_TAKEN := OTHER_QUEUED.(queue := [], worker := Deciding("q"))
  const BOTH_HELD := OTHER_TAKEN.(queue := ["r"], awaiting := {})
  const OTHER_CLEARED := BOTH_HELD.(worker := Cleared("q"))
  const OTHER_TX := Tx(KEY, 0, OTHER_PAYEE, 10, 1, 1)
  const OTHER_SIGNED := BOTH_HELD.(worker := Signed("q", OTHER_TX, false), signatures := [Signature(KEY, 2)])
  const OTHER_SUBMISSION := Event(LATER, TxSubmitted("q", OTHER_TX, 0, KEY))
  const OTHER_SUBMITTED := TWO_ACCEPTED.(
    requests := map["r" := EARLY_REQUEST,
        "q" := Request("q", Submitted, OTHER_PAYEE, 10, LATER, LATER, "", Some(OTHER_TX), 0, 0, KEY)])
  const OTHER_JOURNALED := OTHER_SIGNED.(
    journal := [ACCEPTANCE, OTHER_ACCEPTANCE, OTHER_SUBMISSION], store := OTHER_SUBMITTED,
    worker := Journaled("q", OTHER_TX, false), txs := map["q" := {OTHER_TX}], overwritten := map["q" := {}])
  const OTHER_SENT := OTHER_JOURNALED.(worker := Waiting("q", OTHER_TX), mempool := {OTHER_TX})
  const CRASHED := OTHER_SENT.(worker := Idle, queue := [], phase := Down)
  const REBOOTING := CRASHED.(phase := Booting(["r", "q"]))
  const ONE_RECOVERED := CRASHED.(phase := Booting(["q"]), queue := ["r"])
  const DROPPED := ONE_RECOVERED.(
    phase := Booting([]),
    journal := [ACCEPTANCE, OTHER_ACCEPTANCE, OTHER_SUBMISSION,
                Event(LATER, TxFailed("q", "queue capacity exceeded during restart recovery"))],
    store := TWO_ACCEPTED.(
      requests := map["r" := EARLY_REQUEST,
                      "q" := Request("q", Failed, OTHER_PAYEE, 10, LATER, LATER,
                                     "queue capacity exceeded during restart recovery", Some(OTHER_TX), 0, 0, KEY)],
      spentByDay := map[0 := 10, 1 := 0]))
  const PAID_AFTER_DROP := DROPPED.(chain := Chain(map[KEY := 1], [Landing(OTHER_TX, true)]))

  lemma Days()
    ensures BudgetDay(1) == 0 && BudgetDay(LATER) == 1
  {
  }

  lemma OtherAcceptanceApplies()
    ensures Acceptance(P, "k", OTHER_PAYEE, LATER, "q") == OTHER_ACCEPTANCE
    ensures Decide(ACCEPTED, P, "k", OTHER_PAYEE, LATER) == Granted
    ensures Apply(ACCEPTED, OTHER_ACCEPTANCE) == Ok(TWO_ACCEPTED)
  {
    Days();
    var t := Apply(ACCEPTED, OTHER_ACCEPTANCE).value;
    assert t.requests == TWO_ACCEPTED.requests && t.order == TWO_ACCEPTED.order;
    assert t.idempotency == TWO_ACCEPTED.idempotency;
    assert t.addresses == TWO_ACCEPTED.addresses && t.spentByDay == TWO_ACCEPTED.spentByDay;
  }

  lemma LinkOtherAccept()
    ensures Link(AWAITING, Server(Accept("k", OTHER_PAYEE, LATER, "q")), TWO_AWAITING)
    ensures Link(TWO_AWAITING, Server(Enqueue("q")), OTHER_QUEUED)
  {
    OtherAcceptanceApplies();
    var t := ServerAfter(AWAITING, P, Accept("k", OTHER_PAYEE, LATER, "q"));
    assert t.journal == TWO_AWAITING.journal && t.awaiting == TWO_AWAITING.awaiting;
    assert ServerAfter(TWO_AWAITING, P, Enqueue("q")).awaiting == {"r"};
  }

  lemma LinkOtherTaken()
    ensures Link(OTHER_QUEUED, Work(Take), OTHER_TAKEN)
    ensures Link(OTHER_TAKEN, Server(Enqueue("r")), BOTH_HELD)
    ensures Link(BOTH_HELD, Work(Begin), OTHER_CLEARED)
  {
  }

  lemma LinkOtherSigned()
    ensures Link(OTHER_CLEARED, Work(PassFence), BOTH_HELD.(worker := Ready("q")))
    ensures Link(BOTH_HELD.(worker := Ready("q")), Work(Attempt(0)), BOTH_HELD.(worker := Attempting("q", KEY, 0)))
    ensures Link(BOTH_HELD.(worker := Attempting("q", KEY, 0)), Work(Sign(1, 1)), OTHER_SIGNED)
  {
    hide Link;
    LinkSigning(OTHER_CLEARED, 0, OTHER_TX);
    assert OTHER_CLEARED.signatures + [Signature(KEY, |OTHER_CLEARED.journal|)] == OTHER_SIGNED.signatures;
  }

  lemma LinkOtherWaiting()
    ensures Link(OTHER_JOURNALED, Work(SendOk), OTHER_SENT)
  {
    hide Apply;
  }

  lemma LinkOtherSent()
    ensures Link(OTHER_SIGNED, Work(Journal(LATER)), OTHER_JOURNALED)
  {
    hide Link;
    JournalIs(OTHER_SIGNED, LATER);
    var t := JournaledState(OTHER_SIGNED, LATER);
    assert OTHER_SIGNED.TxsOf("q") + {OTHER_TX} == {OTHER_TX};
    assert OTHER_SIGNED.OverwrittenOf("q") + Lost(OTHER_SIGNED) - {OTHER_TX} == {};
    assert t.journal == OTHER_JOURNALED.journal && t.txs == OTHER_JOURNALED.txs
        && t.overwritten == OTHER_JOURNALED.overwritten;
    assert t.store.requests == OTHER_SUBMITTED.requests;
  }

  lemma OtherReplay()
    ensures Replay([ACCEPTANCE, OTHER_ACCEPTANCE, OTHER_SUBMISSION]) == Ok(OTHER_SUBMITTED)
  {
    AcceptanceApplies();
    OtherAcceptanceApplies();
    ReplayAppend([], ACCEPTANCE);
    assert [] + [ACCEPTANCE] == [ACCEPTANCE];
    ReplayAppend([ACCEPTANCE], OTHER_ACCEPTANCE);
    assert [ACCEPTANCE] + [OTHER_ACCEPTANCE] == [ACCEPTANCE, OTHER_ACCEPTANCE];
    ReplayAppend([ACCEPTANCE, OTHER_ACCEPTANCE], OTHER_SUBMISSION);
    assert [ACCEPTANCE, OTHER_ACCEPTANCE] + [OTHER_SUBMISSION] == [ACCEPTANCE, OTHER_ACCEPTANCE, OTHER_SUBMISSION];
    assert Apply(TWO_ACCEPTED, OTHER_SUBMISSION).value.requests == OTHER_SUBMITTED.requests;
  }

  lemma OtherBacklog()
    ensures PendingIds(OTHER_SUBMITTED) == ["r", "q"]
  {
    var requests := OTHER_SUBMITTED.requests;
    assert ["r", "q"][..1] == ["r"] && ["r"][..0] == [];
    assert PendingOf(requests, ["r"]) == ["r"];
    assert PendingOf(requests, ["r", "q"]) == ["r", "q"];
    assert SortByCreated(requests, []) == [];
    assert SortByCreated(requests, ["r"]) == ["r"];
    assert SortByCreated(requests, ["r", "q"]) == InsertByCreated(requests, ["r"], "q");
  }

  lemma LinkCrash()
    ensures Link(OTHER_SENT, Life(Crash), CRASHED)
  {
    OtherReplay();
    hide Replay, Apply;
  }

  lemma LinkReboot()
    ensures Link(CRASHED, Life(Boot(KEY)), REBOOTING)
  {
    OtherBacklog();
    hide PendingIds;
  }

  lemma LinkRecover()
    ensures Link(REBOOTING, Life(Reenqueue), ONE_RECOVERED)
  {
  }

  lemma LinkPaidAfterDrop()
    ensures Link(DROPPED, Network(Land(OTHER_TX, true)), PAID_AFTER_DROP)
  {
  }

  lemma LinkDrop()
    ensures Link(ONE_RECOVERED, Life(DropBacklog(LATER)), DROPPED)
  {
    hide Replay, PendingIds, WithFailed;
    FailedOther();
    var t := LifeAfter(ONE_RECOVERED, P, DropBacklog(LATER));
    assert t.journal == DROPPED.journal && t.phase == DROPPED.phase;
  }

  lemma FailedOther()
    ensures WithFailed(OTHER_SUBMITTED, LATER, "q", "queue capacity exceeded during restart recovery") == DROPPED.store
  {
    Days();
    var t := WithFailed(OTHER_SUBMITTED, LATER, "q", "queue capacity exceeded during restart recovery");
    assert t.requests == DROPPED.store.requests && t.spentByDay == DROPPED.store.spentByDay;
  }

  lemma OtherUnpaid(s: State)
    requires s.overwritten == map[] || s.overwritten == map["q" := {}]
    ensures OverwrittenUnpaid(s)
  {
  }

  lemma ToOtherCleared(rules: Rules) returns (run: Run)
    ensures run.Valid(P) && Obedient(rules, run) && run.Last() == OTHER_CLEARED
  {
    hide Link;
    LinkAccept();
    LinkOtherAccept();
    LinkOtherTaken();
    run := ToServing(rules);
    run := GoPlain(rules, run, Server(Accept("k", PAYEE, 1, "r")), AWAITING);
    run := GoPlain(rules, run, Server(Accept("k", OTHER_PAYEE, LATER, "q")), TWO_AWAITING);
    run := GoPlain(rules, run, Server(Enqueue("q")), OTHER_QUEUED);
    run := GoPlain(rules, run, Work(Take), OTHER_TAKEN);
    run := GoPlain(rules, run, Server(Enqueue("r")), BOTH_HELD);
    run := GoPlain(rules, run, Work(Begin), OTHER_CLEARED);
  }

  lemma ToOtherSent(rules: Rules) returns (run: Run)
    ensures run.Valid(P) && Obedient(rules, run) && run.Last() == OTHER_SENT
  {
    hide Link;
    LinkOtherSigned();
    LinkOtherSent();
    LinkOtherWaiting();
    OtherUnpaid(OTHER_JOURNALED);
    run := ToOtherCleared(rules);
    run := GoPlain(rules, run, Work(PassFence), BOTH_HELD.(worker := Ready("q")));
    run := GoPlain(rules, run, Work(Attempt(0)), BOTH_HELD.(worker := Attempting("q", KEY, 0)));
    run := GoPlain(rules, run, Work(Sign(1, 1)), OTHER_SIGNED);
    run := GoPlain(rules, run, Work(Journal(LATER)), OTHER_JOURNALED);
    run := GoPlain(rules, run, Work(SendOk), OTHER_SENT);
  }

  /** A full queue at restart fails a submitted request whose transaction still pays. */
  lemma NoSubmittedDroppedIsNeeded() returns (run: Run)
    ensures run.Valid(P) && Obedient(Rules(true, true, true, false, true), run) && OverPaid(run.Last(), 1)
  {
    hide Link;
    var rules := Rules(true, true, true, false, true);
    LinkCrash();
    LinkReboot();
    LinkRecover();
    LinkDrop();
    LinkPaidAfterDrop();
    OtherUnpaid(CRASHED);
    OtherUnpaid(REBOOTING);
    OtherUnpaid(ONE_RECOVERED);
    OtherUnpaid(DROPPED);
    OtherUnpaid(PAID_AFTER_DROP);
    run := ToOtherSent(rules);
    run := GoPlain(rules, run, Life(Crash), CRASHED);
    run := GoPlain(rules, run, Life(Boot(KEY)), REBOOTING);
    run := GoPlain(rules, run, Life(Reenqueue), ONE_RECOVERED);
    run := Go(rules, run, Life(DropBacklog(LATER)), DROPPED);
    run := GoPlain(rules, run, Network(Land(OTHER_TX, true)), PAID_AFTER_DROP);
    DropOverpays();
  }

  lemma DropOverpays()
    ensures OverPaid(PAID_AFTER_DROP, 1)
  {
    var s := PAID_AFTER_DROP;
    Days();
    assert s.store.order[..1] == ["r"];
    assert s.TxsOf("q") == {OTHER_TX};
    assert OTHER_TX in DayTxs(s, s.store.order, 1);
    assert s.chain.landed[..0] == [];
    assert Moved(s.chain.landed, DayTxs(s, s.store.order, 1)) == 10;
  }

  // ---- (6) two rotation handlers pass their checks before either swaps

  const TWICE_CHECKED := SERVING.(rotating := multiset{NEXT_KEY, NEXT_KEY})
  const FIRST_SWAP := Event(1, SignerRotated(Some(KEY), NEXT_KEY))
  const SECOND_SWAP := Event(2, SignerRotated(Some(NEXT_KEY), NEXT_KEY))
  const ONCE_SWAPPED := SERVING.(
    rotating := multiset{NEXT_KEY}, signer := NEXT_KEY, journal := [FIRST_SWAP],
    store := EMPTY.(fencedKeys := map[KEY := 1], activeSigner := NEXT_KEY))
  const TWICE_SWAPPED := SERVING.(
    signer := NEXT_KEY, journal := [FIRST_SWAP, SECOND_SWAP],
    store := EMPTY.(fencedKeys := map[KEY := 1, NEXT_KEY := 2], activeSigner := NEXT_KEY))
  const FENCED_SIGNATURE := TWICE_SWAPPED.(signatures := [Signature(NEXT_KEY, 2)])

  lemma LinkChecks()
    ensures Link(SERVING, Server(CheckRotation(NEXT_KEY)), SERVING.(rotating := multiset{NEXT_KEY}))
    ensures Link(SERVING.(rotating := multiset{NEXT_KEY}), Server(CheckRotation(NEXT_KEY)), TWICE_CHECKED)
  {
  }

  lemma LinkSwaps()
    ensures Link(TWICE_CHECKED, Server(SwapSigner(NEXT_KEY, 1)), ONCE_SWAPPED)
    ensures Link(ONCE_SWAPPED, Server(SwapSigner(NEXT_KEY, 2)), TWICE_SWAPPED)
    ensures Link(TWICE_SWAPPED, Server(SignDrain), FENCED_SIGNATURE)
  {
    var a := ServerAfter(TWICE_CHECKED, P, SwapSigner(NEXT_KEY, 1));
    assert a.journal == [FIRST_SWAP] && a.rotating == multiset{NEXT_KEY};
    var b := ServerAfter(ONCE_SWAPPED, P, SwapSigner(NEXT_KEY, 2));
    assert b.journal == [FIRST_SWAP, SECOND_SWAP] && b.rotating == multiset{};
    assert b.store.fencedKeys == TWICE_SWAPPED.store.fencedKeys;
  }

  /** Without serialisation the active key can be fenced, and it then signs. */
  lemma SerialisedRotationIsNeeded() returns (run: Run)
    ensures run.Valid(P) && Obedient(Rules(true, true, true, true, true), run)
    ensures var s := run.Last();
            && s.phase.Running? && s.signer in s.store.fencedKeys
            && |s.signatures| == 1 && |s.journal| == 2 && RotatesOut(s.journal[1], s.signatures[0].key)
            && s.signatures[0].position > 1
  {
    var rules := Rules(true, true, true, true, true);
    LinkChecks();
    LinkSwaps();
    run := ToServing(rules);
    run := GoPlain(rules, run, Server(CheckRotation(NEXT_KEY)), SERVING.(rotating := multiset{NEXT_KEY}));
    run := GoPlain(rules, run, Server(CheckRotation(NEXT_KEY)), TWICE_CHECKED);
    run := GoPlain(rules, run, Server(SwapSigner(NEXT_KEY, 1)), ONCE_SWAPPED);
    run := GoPlain(rules, run, Server(SwapSigner(NEXT_KEY, 2)), TWICE_SWAPPED);
    run := GoPlain(rules, run, Server(SignDrain), FENCED_SIGNATURE);
  }
}
