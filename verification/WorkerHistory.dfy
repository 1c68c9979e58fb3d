/**
 What the journal itself proves about a run: every transaction on the network was written to the
 journal before it was broadcast, and no key signs after the entry that rotated it out.
 */
module WorkerHistory {
  import opened Basics
  import opened FaucetEvents
  import opened FaucetBooks
  import opened WorkerProtocol
  import opened WorkerInvariants

  // ---------------------------------------------------------------- journaled before broadcast

  predicate Submits(e: Event, id: RequestId, x: Tx) {
    e.payload.TxSubmitted? && e.payload.requestId == id && e.payload.hash == x
  }

  /** The journal holds a submission of this transaction for this request. */
  predicate InJournal(journal: seq<Event>, id: RequestId, x: Tx) {
    exists i :: 0 <= i < |journal| && Submits(journal[i], id, x)
  }

  lemma InJournalAppend(journal: seq<Event>, e: Event, id: RequestId, x: Tx)
    ensures InJournal(journal + [e], id, x) <==> InJournal(journal, id, x) || Submits(e, id, x)
  {
    var longer := journal + [e];
    assert longer[|journal|] == e;
    if InJournal(journal, id, x) {
      var i :| 0 <= i < |journal| && Submits(journal[i], id, x);
      assert Submits(longer[i], id, x);
    }
    if InJournal(longer, id, x) && !Submits(e, id, x) {
      var i :| 0 <= i < |longer| && Submits(longer[i], id, x);
      assert Submits(journal[i], id, x);
    }
  }

  /** The history of transactions is exactly what the journal says. */
  ghost predicate Chronicle(s: State) {
    forall id, x :: x in s.TxsOf(id) <==> InJournal(s.journal, id, x)
  }

  lemma OtherEventKeepsChronicle(s: State, e: Event, t: State)
    requires Chronicle(s) && !e.payload.TxSubmitted? && t.journal == s.journal + [e] && t.txs == s.txs
    ensures Chronicle(t)
  {
    forall id, x ensures x in t.TxsOf(id) <==> InJournal(t.journal, id, x) {
      assert x in s.TxsOf(id) <==> InJournal(s.journal, id, x);
      InJournalAppend(s.journal, e, id, x);
    }
  }

  lemma ServerKeepsChronicle(s: State, p: Profile, step: ServerStep)
    requires Chronicle(s) && ServerEnabled(s, p, step)
    ensures Chronicle(ServerAfter(s, p, step))
  {
    var t := ServerAfter(s, p, step);
    if t.journal != s.journal {
      OtherEventKeepsChronicle(s, t.journal[|s.journal|], t);
    } else {
      forall id, x ensures x in t.TxsOf(id) <==> InJournal(t.journal, id, x) {
        assert x in s.TxsOf(id) <==> InJournal(s.journal, id, x);
      }
    }
  }

  lemma QuietKeepsChronicle(s: State, t: State)
    requires Chronicle(s) && t.journal == s.journal && t.txs == s.txs
    ensures Chronicle(t)
  {
    forall id, x ensures x in t.TxsOf(id) <==> InJournal(t.journal, id, x) {
      assert x in s.TxsOf(id) <==> InJournal(s.journal, id, x);
    }
  }

  lemma WorkKeepsChronicle(s: State, step: WorkerStep)
    requires Chronicle(s) && (!s.worker.Idle? ==> IsPending(s, s.worker.id)) && Site(s) && WorkerEnabled(s, step)
    ensures Chronicle(WorkerAfter(s, step))
  {
    var t := WorkerAfter(s, step);
    if WorkerEvent(s, step).None? {
      QuietKeepsChronicle(s, t);
    } else {
      var e := WorkerEvent(s, step).value;
      WorkerEventOwn(s, step);
      if step.Journal? {
        forall id, x ensures x in t.TxsOf(id) <==> InJournal(t.journal, id, x) {
          assert x in s.TxsOf(id) <==> InJournal(s.journal, id, x);
          InJournalAppend(s.journal, e, id, x);
        }
      } else {
        OtherEventKeepsChronicle(s, e, t);
      }
    }
  }

  lemma LifeKeepsChronicle(s: State, p: Profile, step: LifeStep)
    requires Chronicle(s) && LifeEnabled(s, p, step)
    ensures Chronicle(LifeAfter(s, p, step))
  {
    var t := LifeAfter(s, p, step);
    if step.DropBacklog? {
      OtherEventKeepsChronicle(s, t.journal[|s.journal|], t);
    } else {
      QuietKeepsChronicle(s, t);
    }
  }

  lemma StepKeepsChronicle(s: State, p: Profile, step: Step)
    requires Owners(s) && Site(s) && Chronicle(s) && Enabled(s, p, step)
    ensures Chronicle(After(s, p, step))
  {
    match step {
      case Server(x) => ServerKeepsChronicle(s, p, x);
      case Network(x) => QuietKeepsChronicle(s, ChainAfter(s, x));
      case Life(x) => LifeKeepsChronicle(s, p, x);
      case Work(x) => WorkKeepsChronicle(s, x);
    }
  }

  lemma {:induction false} RunKeepsChronicle(run: Run, p: Profile, k: nat)
    requires p.Valid() && run.Valid(p) && k < |run.states|
    ensures Chronicle(run.states[k])
  {
    if k == 0 {
    } else {
      RunKeepsChronicle(run, p, k - 1);
      RunKeepsBase(run, p, k - 1);
      StepKeepsChronicle(run.states[k - 1], p, run.steps[k - 1]);
    }
  }

  /**
   Journaled before broadcast: whatever is on the network after a step was already in the journal
   before that step, for the request it pays, to its recipient and in its amount.  No hypothesis.
   */
  lemma BroadcastAfterJournal(run: Run, p: Profile, k: nat, x: Tx)
    requires p.Valid() && run.Valid(p) && k < |run.steps| && x in run.states[k + 1].mempool
    ensures exists id :: InJournal(run.states[k].journal, id, x) && id in run.states[k].store.requests
                         && Funds(run.states[k].store.requests[id], x)
  {
    var s, t, step := run.states[k], run.states[k + 1], run.steps[k];
    RunKeepsBase(run, p, k);
    RunKeepsChronicle(run, p, k);
    if x in s.mempool {
      var id :| x in s.TxsOf(id);
      assert InJournal(s.journal, id, x) && Recorded(s, id);
    } else {
      NewOnNetwork(s, p, step, x);
      var id := s.worker.id;
      assert Recorded(s, id);
      assert InJournal(s.journal, id, x);
    }
  }

  /** What each actor does to the journal, the network and the use of the key. */
  lemma ServerOutline(s: State, p: Profile, step: ServerStep)
    ensures var t := ServerAfter(s, p, step);
            && s.journal <= t.journal && t.mempool == s.mempool
            && (t.signatures == s.signatures || t.signatures == s.signatures + [Signature(s.signer, |s.journal|)])
  {
    hide Apply;
  }

  lemma LifeOutline(s: State, p: Profile, step: LifeStep)
    requires LifeEnabled(s, p, step)
    ensures var t := LifeAfter(s, p, step);
            s.journal <= t.journal && t.mempool == s.mempool && t.signatures == s.signatures
  {
    hide Apply, Replay;
  }

  lemma WorkOutline(s: State, step: WorkerStep)
    requires WorkerEnabled(s, step)
    ensures var t := WorkerAfter(s, step);
            && s.journal <= t.journal && t.mempool == s.mempool + WorkerSends(s, step)
            && (t.signatures == s.signatures || t.signatures == s.signatures + [Signature(s.signer, |s.journal|)])
  {
    hide Apply, WorkerSends, WorkerNext, Lost;
  }

  /** Only the worker's send puts anything on the network, and only its journaled transaction. */
  lemma NewOnNetwork(s: State, p: Profile, step: Step, x: Tx)
    requires Site(s) && Enabled(s, p, step) && x !in s.mempool && x in After(s, p, step).mempool
    ensures !s.worker.Idle? && On(s, Submitted) && s.store.requests[s.worker.id].hash == Some(x)
  {
    hide ServerAfter, LifeAfter, WorkerAfter;
    match step {
      case Server(x) => ServerOutline(s, p, x);
      case Network(x) =>
      case Life(x) => LifeOutline(s, p, x);
      case Work(x) => WorkOutline(s, x);
    }
  }

  // ---------------------------------------------------------------- fencing

  predicate RotatesOut(e: Event, key: Address) {
    e.payload.SignerRotated? && e.payload.oldSigner == Some(key)
  }

  predicate FencedBy(journal: seq<Event>, key: Address) {
    exists i :: 0 <= i < |journal| && RotatesOut(journal[i], key)
  }

  lemma FencedByAppend(journal: seq<Event>, e: Event, key: Address)
    ensures FencedBy(journal + [e], key) <==> FencedBy(journal, key) || RotatesOut(e, key)
  {
    var longer := journal + [e];
    assert longer[|journal|] == e;
    if FencedBy(journal, key) {
      var i :| 0 <= i < |journal| && RotatesOut(journal[i], key);
      assert RotatesOut(longer[i], key);
    }
    if FencedBy(longer, key) && !RotatesOut(e, key) {
      var i :| 0 <= i < |longer| && RotatesOut(longer[i], key);
      assert RotatesOut(journal[i], key);
    }
  }

  lemma ApplyFences(s: StoreState, e: Event, key: Address)
    requires Apply(s, e).Ok?
    ensures key in Apply(s, e).value.fencedKeys <==> key in s.fencedKeys || RotatesOut(e, key)
  {
    if !e.payload.SignerRotated? {
      OtherEventFencesNothing(s, e);
    }
  }

  lemma OtherEventFencesNothing(s: StoreState, e: Event)
    requires Apply(s, e).Ok? && !e.payload.SignerRotated?
    ensures Apply(s, e).value.fencedKeys == s.fencedKeys
  {
    hide WithAccepted, WithDenied, WithSubmitted, WithConfirmed, WithFailed;
    match e.payload
    case RequestAccepted(id, key, address, amount) => AcceptedTouches(s, e.at, id, key, address, amount);
    case RequestDenied(id, address, amount, reason) => DeniedTouches(s, e.at, id, address, amount, reason);
    case TxSubmitted(id, hash, nonce, signer) => SubmittedTouches(s, e.at, id, hash, nonce, signer);
    case TxConfirmed(id, hash, blockNumber) => ConfirmedTouches(s, e.at, id, hash, blockNumber);
    case TxFailed(id, reason) => FailedTouches(s, e.at, id, reason);
    case _ =>
  }

  /** The fenced keys a restart rebuilds are exactly the keys some entry rotated out. */
  lemma {:induction false} ReplayFences(journal: seq<Event>, key: Address)
    requires Replay(journal).Ok?
    ensures key in Replay(journal).value.fencedKeys <==> FencedBy(journal, key)
  {
    if journal == [] {
    } else {
      var front, e := journal[..|journal| - 1], journal[|journal| - 1];
      assert journal == front + [e];
      ReplayFences(front, key);
      ApplyFences(Replay(front).value, e, key);
      FencedByAppend(front, e, key);
    }
  }

  /** At a swap, what its handler checked still holds. */
  predicate SwapIsGuarded(s: State, step: Step) {
    step.Server? && step.server.SwapSigner? ==>
      step.server.key !in s.store.fencedKeys && step.server.key != s.signer
  }

  /** While the process runs its key is not fenced, and no past signature used a fenced key. */
  ghost predicate Fenced(s: State) {
    (!s.phase.Down? ==> s.signer !in s.store.fencedKeys) && Signatures(s)
  }

  ghost predicate Signatures(s: State) {
    forall i :: 0 <= i < |s.signatures| ==>
      && s.signatures[i].position <= |s.journal|
      && !FencedBy(s.journal[..s.signatures[i].position], s.signatures[i].key)
  }

  lemma StepGrowsJournal(s: State, p: Profile, step: Step)
    requires Enabled(s, p, step)
    ensures s.journal <= After(s, p, step).journal
  {
    hide ServerAfter, LifeAfter, WorkerAfter;
    match step {
      case Server(x) => ServerOutline(s, p, x);
      case Network(x) =>
      case Life(x) => LifeOutline(s, p, x);
      case Work(x) => WorkOutline(s, x);
    }
  }

  /** Signing happens only while running and with the active key, after everything journaled so far. */
  lemma StepSigns(s: State, p: Profile, step: Step)
    requires Enabled(s, p, step)
    ensures var t := After(s, p, step);
            || t.signatures == s.signatures
            || (s.phase.Running? && t.signatures == s.signatures + [Signature(s.signer, |s.journal|)])
  {
    hide ServerAfter, LifeAfter, WorkerAfter;
    match step {
      case Server(x) => ServerOutline(s, p, x);
      case Network(x) =>
      case Life(x) => LifeOutline(s, p, x);
      case Work(x) => WorkOutline(s, x);
    }
  }

  predicate Swaps(step: Step) { step.Server? && step.server.SwapSigner? }

  /** The worker neither fences a key nor changes the active one. */
  lemma WorkFences(s: State, step: WorkerStep)
    requires (!s.worker.Idle? ==> IsPending(s, s.worker.id)) && Site(s) && WorkerEnabled(s, step)
    ensures var t := WorkerAfter(s, step);
            t.store.fencedKeys == s.store.fencedKeys && t.signer == s.signer && t.phase == s.phase
  {
    if WorkerEvent(s, step).Some? {
      WorkerEventOwn(s, step);
    }
  }

  /** Which keys a step fences and which key it makes active. */
  lemma StepFences(s: State, p: Profile, step: Step)
    requires Owners(s) && Site(s) && Replay(s.journal) == Ok(s.store) && Enabled(s, p, step)
    ensures var t := After(s, p, step);
            && (!Swaps(step) ==> t.store.fencedKeys == s.store.fencedKeys)
            && (!Swaps(step) && !(step.Life? && step.life.Boot?) ==> t.signer == s.signer)
            && (!t.phase.Down? ==> !s.phase.Down? || (step.Life? && step.life.Boot?))
  {
    match step {
      case Server(x) => ServerFences(s, p, x);
      case Network(x) => assert ChainAfter(s, x).store == s.store;
      case Life(x) => LifeFences(s, p, x);
      case Work(x) => WorkFences(s, x);
    }
  }

  lemma LifeFences(s: State, p: Profile, step: LifeStep)
    requires Replay(s.journal) == Ok(s.store) && LifeEnabled(s, p, step)
    ensures var t := LifeAfter(s, p, step);
            && t.store.fencedKeys == s.store.fencedKeys
            && (!step.Boot? ==> t.signer == s.signer)
            && (!t.phase.Down? ==> !s.phase.Down? || step.Boot?)
  {
  }

  lemma ServerFences(s: State, p: Profile, step: ServerStep)
    requires ServerEnabled(s, p, step)
    ensures var t := ServerAfter(s, p, step);
            && t.phase == s.phase
            && (!step.SwapSigner? ==> t.store.fencedKeys == s.store.fencedKeys && t.signer == s.signer)
  {
  }

  /**
   A swap leaves the new active key fenced in exactly two cases: it was fenced already, or it is the
   active key itself.  These are the two checks the handler makes before the swap.
   */
  lemma SwapIsSafeExactlyWhenChecked(s: State, p: Profile, key: Address, at: Time)
    requires ServerEnabled(s, p, SwapSigner(key, at)) && s.signer != ZERO_ADDRESS
    ensures var t := ServerAfter(s, p, SwapSigner(key, at));
            t.signer !in t.store.fencedKeys <==> key !in s.store.fencedKeys && key != s.signer
  {
  }

  /** Every signature, old or new, was made with a key that was not fenced at the time. */
  lemma StepKeepsSignatures(s: State, p: Profile, step: Step)
    requires Replay(s.journal) == Ok(s.store) && Fenced(s) && Enabled(s, p, step)
    ensures Signatures(After(s, p, step))
  {
    hide After, Enabled, FencedBy, Replay;
    var t := After(s, p, step);
    StepGrowsJournal(s, p, step);
    StepSigns(s, p, step);
    assert t.journal[..|s.journal|] == s.journal;
    ReplayFences(s.journal, s.signer);
    forall i | 0 <= i < |t.signatures|
      ensures t.signatures[i].position <= |t.journal|
      ensures !FencedBy(t.journal[..t.signatures[i].position], t.signatures[i].key)
    {
      if i < |s.signatures| {
        var q := s.signatures[i].position;
        assert t.signatures[i] == s.signatures[i] && t.journal[..q] == s.journal[..q];
      }
    }
  }

  lemma StepKeepsKey(s: State, p: Profile, step: Step)
    requires Replay(s.journal) == Ok(s.store) && Owners(s) && Site(s)
    requires Fenced(s) && Enabled(s, p, step) && SwapIsGuarded(s, step)
    ensures var t := After(s, p, step); !t.phase.Down? ==> t.signer !in t.store.fencedKeys
  {
    hide Replay, FencedBy, Signatures, ServerAfter, LifeAfter, WorkerAfter, ServerEnabled, WorkerEnabled, ChainEnabled;
    StepFences(s, p, step);
    match step {
      case Server(x) =>
        if x.SwapSigner? {
          SwapKeepsKey(s, p, x.key, x.at);
        }
      case Life(x) =>
        if x.Boot? {
          BootKeepsKey(s, p, x.key);
        }
      case _ =>
    }
  }

  lemma BootKeepsKey(s: State, p: Profile, key: Address)
    requires LifeEnabled(s, p, Boot(key))
    ensures var t := LifeAfter(s, p, Boot(key)); t.signer !in t.store.fencedKeys
  {
  }

  lemma SwapKeepsKey(s: State, p: Profile, key: Address, at: Time)
    requires ServerEnabled(s, p, SwapSigner(key, at)) && key !in s.store.fencedKeys && key != s.signer
    ensures var t := ServerAfter(s, p, SwapSigner(key, at)); t.signer !in t.store.fencedKeys
  {
  }

  lemma StepKeepsFenced(s: State, p: Profile, step: Step)
    requires Base(s) && Fenced(s) && Enabled(s, p, step) && SwapIsGuarded(s, step)
    ensures Fenced(After(s, p, step))
  {
    hide After, Enabled, Signatures, Owners, Recorded, JournaledFirst, OneReceipt, SwapIsGuarded, Site;
    StepKeepsSignatures(s, p, step);
    StepKeepsKey(s, p, step);
  }

  predicate Boots(step: Step) { step.Life? && step.life.Boot? }

  /** No other swap, and no restart, between the check at `i` and step `j`. */
  predicate Undisturbed(run: Run, i: nat, j: nat)
    requires j <= |run.steps|
  {
    forall m :: i < m < j ==> !Swaps(run.steps[m]) && !Boots(run.steps[m])
  }

  /** A swap follows its own handler's check with no other rotation between the two. */
  predicate Serialised(run: Run, j: nat)
    requires j < |run.steps|
  {
    Swaps(run.steps[j]) ==>
      exists i :: 0 <= i < j && run.steps[i] == Server(CheckRotation(run.steps[j].server.key)) && Undisturbed(run, i, j)
  }

  /** What a handler checked stays true while no other rotation comes between. */
  lemma {:induction false} CheckStaysTrue(run: Run, p: Profile, i: nat, j: nat, key: Address)
    requires p.Valid() && run.Valid(p) && i < j < |run.states| && run.steps[i] == Server(CheckRotation(key))
    requires Undisturbed(run, i, j)
    ensures key !in run.states[j].store.fencedKeys && key != run.states[j].signer
    decreases j
  {
    hide After, Enabled, Recorded, OneReceipt, JournaledFirst, Replay;
    var s, step := run.states[j - 1], run.steps[j - 1];
    assert Enabled(s, p, step) && run.states[j] == After(s, p, step);
    RunKeepsBase(run, p, j - 1);
    StepFences(s, p, step);
    if i == j - 1 {
      CheckedKey(s, p, key);
    } else {
      CheckStaysTrue(run, p, i, j - 1, key);
    }
  }

  lemma CheckedKey(s: State, p: Profile, key: Address)
    requires Enabled(s, p, Server(CheckRotation(key)))
    ensures key !in s.store.fencedKeys && key != s.signer
  {
  }

  lemma SerialisedSwapIsGuarded(run: Run, p: Profile, j: nat)
    requires p.Valid() && run.Valid(p) && j < |run.steps| && Serialised(run, j)
    ensures SwapIsGuarded(run.states[j], run.steps[j])
  {
    if Swaps(run.steps[j]) {
      var key := run.steps[j].server.key;
      var i :| 0 <= i < j && run.steps[i] == Server(CheckRotation(key)) && Undisturbed(run, i, j);
      CheckStaysTrue(run, p, i, j, key);
    }
  }

  lemma {:induction false} RunKeepsFenced(run: Run, p: Profile, k: nat)
    requires p.Valid() && run.Valid(p) && k < |run.states|
    requires forall j :: 0 <= j < k ==> Serialised(run, j)
    ensures Fenced(run.states[k])
  {
    if k == 0 {
    } else {
      RunKeepsFenced(run, p, k - 1);
      SerialisedSwapIsGuarded(run, p, k - 1);
      RunKeepsBase(run, p, k - 1);
      StepKeepsFenced(run.states[k - 1], p, run.steps[k - 1]);
    }
  }

  lemma EarlierRotation(journal: seq<Event>, position: nat, j: nat, key: Address)
    requires position <= |journal| && j < |journal| && RotatesOut(journal[j], key)
    ensures j < position ==> FencedBy(journal[..position], key)
  {
    if j < position {
      assert RotatesOut(journal[..position][j], key);
    }
  }

  /**
   Signer fencing: in every run with serialised rotations and any restarts, the active key is never
   fenced, and no signature by a key comes after the journal entry that rotated it out.
   */
  lemma SignerFencing(run: Run, p: Profile, k: nat)
    requires p.Valid() && run.Valid(p) && k < |run.states|
    requires forall j :: 0 <= j < k ==> Serialised(run, j)
    ensures var s := run.states[k];
            && (!s.phase.Down? ==> s.signer !in s.store.fencedKeys && !FencedBy(s.journal, s.signer))
            && (forall i, j ::
                  0 <= i < |s.signatures| && 0 <= j < |s.journal| && RotatesOut(s.journal[j], s.signatures[i].key) ==>
                    s.signatures[i].position <= j)
  {
    var s := run.states[k];
    RunKeepsFenced(run, p, k);
    RunKeepsBase(run, p, k);
    ReplayFences(s.journal, s.signer);
    forall i, j | 0 <= i < |s.signatures| && 0 <= j < |s.journal| && RotatesOut(s.journal[j], s.signatures[i].key)
      ensures s.signatures[i].position <= j
    {
      EarlierRotation(s.journal, s.signatures[i].position, j, s.signatures[i].key);
    }
  }

  // ---------------------------------------------------------------- the lifecycle of journaled requests

  /** The journal stays as it is, or grows by one event of the request lifecycle. */
  ghost predicate LogsLifecycle(s: State, t: State) {
    t.journal == s.journal || exists e :: t.journal == s.journal + [e] && Lifecycle(s.store, e)
  }

  lemma LogsOne(s: State, t: State, e: Event)
    requires t.journal == s.journal + [e] && Lifecycle(s.store, e)
    ensures LogsLifecycle(s, t)
  {
  }

  lemma ServerLogs(s: State, p: Profile, step: ServerStep)
    requires p.Valid() && Owners(s) && ServerEnabled(s, p, step)
    ensures LogsLifecycle(s, ServerAfter(s, p, step))
  {
    hide Apply, Decide, LogsLifecycle;
    var t := ServerAfter(s, p, step);
    match step {
      case Accept(clientKey, address, at, id) => LogsOne(s, t, Acceptance(p, clientKey, address, at, id));
      case RejectFull(id, at) => LogsOne(s, t, Event(at, TxFailed(id, "queue is full")));
      case Pause(reason, at) => LogsOne(s, t, Event(at, ServicePaused(reason)));
      case Resume(at) => LogsOne(s, t, Event(at, ServiceResumed));
      case Refill(source, amount, at) => LogsOne(s, t, Event(at, RefillObserved(source, amount)));
      case SwapSigner(key, at) =>
        LogsOne(s, t, Event(at, SignerRotated(if s.signer == ZERO_ADDRESS then None else Some(s.signer), key)));
      case _ => LogsNothing(s, t);
    }
  }

  lemma LogsNothing(s: State, t: State)
    requires t.journal == s.journal
    ensures LogsLifecycle(s, t)
  {
  }

  lemma LifeLogs(s: State, p: Profile, step: LifeStep)
    requires Owners(s) && LifeEnabled(s, p, step)
    ensures LogsLifecycle(s, LifeAfter(s, p, step))
  {
    hide Apply, Replay, LogsLifecycle;
    var t := LifeAfter(s, p, step);
    if step.DropBacklog? {
      assert s.phase.backlog[0] in s.phase.backlog;
      LogsOne(s, t, Event(step.at, TxFailed(s.phase.backlog[0], "queue capacity exceeded during restart recovery")));
    } else {
      LogsNothing(s, t);
    }
  }

  lemma WorkLogs(s: State, step: WorkerStep)
    requires (!s.worker.Idle? ==> IsPending(s, s.worker.id)) && Site(s) && WorkerEnabled(s, step)
    ensures LogsLifecycle(s, WorkerAfter(s, step))
  {
    hide Apply, LogsLifecycle, WorkerNext, WorkerSends, Lost;
    var t := WorkerAfter(s, step);
    if WorkerEvent(s, step).Some? {
      WorkerEventOwn(s, step);
      LogsOne(s, t, WorkerEvent(s, step).value);
    } else {
      LogsNothing(s, t);
    }
  }

  lemma StepLogs(s: State, p: Profile, step: Step)
    requires p.Valid() && Base(s) && Enabled(s, p, step)
    ensures LogsLifecycle(s, After(s, p, step))
  {
    hide ServerAfter, ChainAfter, LifeAfter, WorkerAfter, LogsLifecycle, Recorded, JournaledFirst, OneReceipt;
    match step {
      case Server(x) => ServerLogs(s, p, x);
      case Network(x) => ChainLogs(s, x);
      case Life(x) => LifeLogs(s, p, x);
      case Work(x) => WorkLogs(s, x);
    }
  }

  lemma ChainLogs(s: State, step: ChainStep)
    ensures LogsLifecycle(s, ChainAfter(s, step))
  {
  }

  /** The journal of every run follows the request lifecycle, so the laws of the books hold for it. */
  lemma {:induction false} RunJournalIsLifecycle(run: Run, p: Profile, k: nat)
    requires p.Valid() && run.Valid(p) && k < |run.states|
    ensures LifecycleRun(run.states[k].journal)
  {
    hide Enabled, After, Lifecycle, Replay, Owners, Ledger, Balanced;
    if k == 0 {
      assert run.states[0].journal == [];
    } else {
      RunJournalIsLifecycle(run, p, k - 1);
      RunKeepsBase(run, p, k - 1);
      var s, t := run.states[k - 1], run.states[k];
      assert Enabled(s, p, run.steps[k - 1]) && t == After(s, p, run.steps[k - 1]);
      StepLogs(s, p, run.steps[k - 1]);
      if t.journal != s.journal {
        var e :| t.journal == s.journal + [e] && Lifecycle(s.store, e);
        LifecycleRunAppend(s.journal, s.store, e);
      }
    }
  }

  lemma LifecycleRunAppend(events: seq<Event>, s: StoreState, e: Event)
    requires LifecycleRun(events) && Replay(events) == Ok(s) && Lifecycle(s, e)
    ensures LifecycleRun(events + [e])
  {
    hide Lifecycle, Replay;
    var longer := events + [e];
    forall i | 0 <= i < |longer| ensures Replay(longer[..i]).Ok? && Lifecycle(Replay(longer[..i]).value, longer[i]) {
      if i < |events| {
        assert longer[..i] == events[..i];
      } else {
        assert longer[..i] == events;
      }
    }
  }

  lemma {:induction false} JournalsGrow(run: Run, p: Profile, i: nat, k: nat)
    requires run.Valid(p) && i <= k < |run.states|
    ensures run.states[i].journal <= run.states[k].journal
    decreases k
  {
    hide Enabled, After;
    if i == k {
    } else {
      JournalsGrow(run, p, i, k - 1);
      assert Enabled(run.states[k - 1], p, run.steps[k - 1]);
      StepGrowsJournal(run.states[k - 1], p, run.steps[k - 1]);
    }
  }

  /** In every run a request that is confirmed, failed or denied never changes again in any field. */
  lemma RunLeavesFinalRequestsAlone(run: Run, p: Profile, i: nat, k: nat, id: RequestId)
    requires p.Valid() && run.Valid(p) && i <= k < |run.states|
    requires id in run.states[i].store.requests && Final(run.states[i].store.requests[id].status)
    ensures id in run.states[k].store.requests
    ensures run.states[k].store.requests[id] == run.states[i].store.requests[id]
  {
    hide Owners, Ledger, Balanced, Replay, Init, Enabled, After;
    var early, late := run.states[i], run.states[k];
    RunKeepsBase(run, p, i);
    RunKeepsBase(run, p, k);
    JournalsGrow(run, p, i, k);
    RunJournalIsLifecycle(run, p, k);
    assert late.journal[..|early.journal|] == early.journal;
    TerminalStatesAreFinal(late.journal, |early.journal|, id);
  }
}
