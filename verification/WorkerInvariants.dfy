/**
 What every step of the submission protocol keeps, with no hypothesis on the environment: the books
 balance, every pending request has exactly one owner, and every transaction is journaled before it
 is broadcast.
 */
module WorkerInvariants {
  import opened Basics
  import opened FaucetEvents
  import opened FaucetBooks
  import opened FaucetPending
  import opened WorkerProtocol

  // ---------------------------------------------------------------- journal and books

  ghost predicate Books(s: State) {
    Replay(s.journal) == Ok(s.store) && Balanced(s.store)
  }

  lemma LogKeepsBooks(s: State, e: Event)
    requires Books(s) && Lifecycle(s.store, e)
    ensures Books(s.Log(e)) && Apply(s.store, e) == Ok(s.Log(e).store)
  {
    ReplayAppend(s.journal, e);
    LifecycleKeepsBalance(s.store, e);
  }

  lemma BooksFrame(s: State, t: State)
    requires Books(s) && t.journal == s.journal && t.store == s.store
    ensures Books(t)
  {
  }

  lemma ServerKeepsBooks(s: State, p: Profile, step: ServerStep)
    requires p.Valid() && Books(s) && Owners(s) && ServerEnabled(s, p, step)
    ensures Books(ServerAfter(s, p, step))
  {
    var t := ServerAfter(s, p, step);
    match step {
      case Accept(clientKey, address, at, id) =>
        LogKeepsBooks(s, Acceptance(p, clientKey, address, at, id));
      case RejectFull(id, at) => LogKeepsBooks(s, Event(at, TxFailed(id, "queue is full")));
      case Pause(reason, at) => LogKeepsBooks(s, Event(at, ServicePaused(reason)));
      case Resume(at) => LogKeepsBooks(s, Event(at, ServiceResumed));
      case Refill(source, amount, at) => LogKeepsBooks(s, Event(at, RefillObserved(source, amount)));
      case SwapSigner(key, at) =>
        LogKeepsBooks(s, Event(at, SignerRotated(if s.signer == ZERO_ADDRESS then None else Some(s.signer), key)));
      case _ => BooksFrame(s, t);
    }
  }

  lemma LifeKeepsBooks(s: State, p: Profile, step: LifeStep)
    requires Books(s) && Owners(s) && LifeEnabled(s, p, step)
    ensures Books(LifeAfter(s, p, step))
  {
    match step {
      case DropBacklog(at) =>
        assert s.phase.backlog[0] in s.phase.backlog;
        LogKeepsBooks(s, Event(at, TxFailed(s.phase.backlog[0], "queue capacity exceeded during restart recovery")));
      case _ => BooksFrame(s, LifeAfter(s, p, step));
    }
  }

  /** The worker only writes about its own request, and confirms only what it submitted. */
  lemma WorkerEventOwn(s: State, step: WorkerStep)
    requires (!s.worker.Idle? ==> IsPending(s, s.worker.id)) && Site(s) && WorkerEnabled(s, step)
    requires WorkerEvent(s, step).Some?
    ensures var e := WorkerEvent(s, step).value;
            && Lifecycle(s.store, e)
            && (e.payload.TxFailed? || e.payload.TxSubmitted? || e.payload.TxConfirmed?)
            && e.payload.requestId == s.worker.id
            && (e.payload.TxSubmitted? <==> step.Journal?)
  {
  }

  lemma WorkerKeepsBooks(s: State, step: WorkerStep)
    requires Books(s) && (!s.worker.Idle? ==> IsPending(s, s.worker.id)) && Site(s) && WorkerEnabled(s, step)
    ensures Books(WorkerAfter(s, step))
  {
    var t := WorkerAfter(s, step);
    if WorkerEvent(s, step).Some? {
      WorkerEventOwn(s, step);
      LogKeepsBooks(s, WorkerEvent(s, step).value);
      BooksFrame(s.Log(WorkerEvent(s, step).value), t);
    } else {
      BooksFrame(s, t);
    }
  }

  // ---------------------------------------------------------------- ownership

  predicate IsPending(s: State, id: RequestId) {
    id in s.store.requests && s.store.requests[id].Pending()
  }

  /** Some actor of the running process still has to bring this request to an end. */
  predicate Owned(s: State, id: RequestId) {
    || id in s.queue
    || id in s.awaiting
    || (!s.worker.Idle? && s.worker.id == id)
    || (s.phase.Booting? && id in s.phase.backlog)
  }

  /** Each pending request is with one actor: queue, handler, worker or restart backlog. */
  ghost predicate Owners(s: State) {
    && Distinct(s.queue)
    && (forall id :: id in s.queue ==> IsPending(s, id))
    && (forall id :: id in s.awaiting ==> IsPending(s, id) && s.store.requests[id].status == Queued && id !in s.queue)
    && (!s.worker.Idle? ==>
         s.phase.Running? && IsPending(s, s.worker.id) && s.worker.id !in s.queue && s.worker.id !in s.awaiting)
    && (s.phase.Booting? ==>
          && s.awaiting == {}
          && Distinct(s.phase.backlog)
          && forall id :: id in s.phase.backlog ==> IsPending(s, id) && id !in s.queue)
    && (s.phase.Down? ==> s.queue == [] && s.awaiting == {})
    && (!s.phase.Down? ==> forall id :: IsPending(s, id) ==> Owned(s, id))
  }

  lemma OwnersFrame(s: State, t: State)
    requires Owners(s) && t.store.requests == s.store.requests && t.queue == s.queue && t.awaiting == s.awaiting
    requires t.phase == s.phase && t.worker == s.worker
    ensures Owners(t)
  {
    forall x | IsPending(t, x) && !t.phase.Down? ensures Owned(t, x) {
      assert IsPending(s, x);
    }
  }

  lemma ServerKeepsOwners(s: State, p: Profile, step: ServerStep)
    requires p.Valid() && Owners(s) && ServerEnabled(s, p, step)
    ensures Owners(ServerAfter(s, p, step))
  {
    hide Owners;
    var t := ServerAfter(s, p, step);
    match step {
      case Accept(_, _, _, _) => AcceptKeepsOwners(s, p, step);
      case Enqueue(_) => EnqueueKeepsOwners(s, p, step);
      case RejectFull(_, _) => RejectKeepsOwners(s, p, step);
      case _ => OwnersFrame(s, t);
    }
  }

  lemma AcceptKeepsOwners(s: State, p: Profile, step: ServerStep)
    requires Owners(s) && ServerEnabled(s, p, step) && step.Accept?
    ensures Owners(ServerAfter(s, p, step))
  {
    hide Decide, AddSpent, BudgetDay;
    var t := ServerAfter(s, p, step);
    forall x | IsPending(t, x) ensures Owned(t, x) {
      assert IsPending(s, x) || x == step.id;
    }
  }

  lemma EnqueueKeepsOwners(s: State, p: Profile, step: ServerStep)
    requires Owners(s) && ServerEnabled(s, p, step) && step.Enqueue?
    ensures Owners(ServerAfter(s, p, step))
  {
    var t := ServerAfter(s, p, step);
    forall x | IsPending(t, x) ensures Owned(t, x) {
      assert IsPending(s, x);
    }
  }

  lemma RejectKeepsOwners(s: State, p: Profile, step: ServerStep)
    requires Owners(s) && ServerEnabled(s, p, step) && step.RejectFull?
    ensures Owners(ServerAfter(s, p, step))
  {
    hide AddSpent, BudgetDay;
    var t := ServerAfter(s, p, step);
    forall x | IsPending(t, x) ensures Owned(t, x) {
      assert IsPending(s, x);
    }
  }

  lemma BootKeepsOwners(s: State, p: Profile, key: Address)
    requires Balanced(s.store) && Owners(s) && LifeEnabled(s, p, Boot(key))
    ensures Owners(LifeAfter(s, p, Boot(key)))
  {
    var t := LifeAfter(s, p, Boot(key));
    var backlog := BacklogOf(s.store);
    forall x | IsPending(t, x) ensures Owned(t, x) {
      assert x in backlog;
    }
  }

  /** `PendingIds`, with what `Balanced` gives about it and nothing else. */
  lemma BacklogOf(store: StoreState) returns (ids: seq<RequestId>)
    requires Balanced(store)
    ensures ids == PendingIds(store) && Distinct(ids)
    ensures forall id :: id in ids <==> id in store.requests && store.requests[id].Pending()
  {
    ids := PendingIds(store);
    PendingRequestsOrder(store);
  }

  /** Moving the backlog's head to the queue, or failing it, leaves the rest of the backlog. */
  lemma BacklogKeepsOwners(s: State, p: Profile, step: LifeStep)
    requires Owners(s) && LifeEnabled(s, p, step) && (step.Reenqueue? || step.DropBacklog?)
    ensures Owners(LifeAfter(s, p, step))
  {
    var t, b := LifeAfter(s, p, step), s.phase.backlog;
    assert b[0] in b && forall id :: id in b[1..] ==> id in b && id != b[0];
    forall x | IsPending(t, x) ensures Owned(t, x) {
      assert IsPending(s, x);
      assert x in b ==> x == b[0] || x in b[1..];
    }
  }

  lemma LifeKeepsOwners(s: State, p: Profile, step: LifeStep)
    requires Replay(s.journal) == Ok(s.store) && Balanced(s.store) && Owners(s) && LifeEnabled(s, p, step)
    ensures Owners(LifeAfter(s, p, step))
  {
    match step {
      case Boot(key) => BootKeepsOwners(s, p, key);
      case Reenqueue => BacklogKeepsOwners(s, p, step);
      case DropBacklog(_) => BacklogKeepsOwners(s, p, step);
      case Crash =>
      case Serve => ServeKeepsOwners(s, p);
    }
  }

  lemma ServeKeepsOwners(s: State, p: Profile)
    requires Owners(s) && LifeEnabled(s, p, Serve)
    ensures Owners(LifeAfter(s, p, Serve))
  {
    var t := LifeAfter(s, p, Serve);
    forall x | IsPending(t, x) ensures Owned(t, x) {
      assert IsPending(s, x);
    }
  }

  lemma TakeKeepsOwners(s: State)
    requires Owners(s) && WorkerEnabled(s, Take)
    ensures Owners(WorkerAfter(s, Take))
  {
    var t := WorkerAfter(s, Take);
    assert forall id :: id in s.queue[1..] ==> id in s.queue && id != s.queue[0];
    assert s.queue[0] in s.queue;
    forall x | IsPending(t, x) ensures Owned(t, x) {
      assert IsPending(s, x);
      assert x in s.queue ==> x == s.queue[0] || x in s.queue[1..];
    }
  }

  /** A worker step touches no request but its own, and lets go of it exactly when it ends. */
  lemma WorkerFrame(s: State, step: WorkerStep)
    requires (!s.worker.Idle? ==> IsPending(s, s.worker.id)) && Site(s) && WorkerEnabled(s, step) && step != Take
    ensures var t := WorkerAfter(s, step);
            && t.queue == s.queue && t.awaiting == s.awaiting && t.phase == s.phase
            && t.store.requests.Keys == s.store.requests.Keys
            && (forall id :: id in s.store.requests && id != s.worker.id ==>
                 t.store.requests[id] == s.store.requests[id])
            && (t.worker.Idle? <==> !t.store.requests[s.worker.id].Pending())
            && (!t.worker.Idle? ==> t.worker.id == s.worker.id)
  {
    if WorkerEvent(s, step).Some? {
      WorkerEventOwn(s, step);
    }
  }

  lemma WorkerKeepsOwners(s: State, step: WorkerStep)
    requires Owners(s) && Site(s) && WorkerEnabled(s, step)
    ensures Owners(WorkerAfter(s, step))
  {
    if step == Take {
      TakeKeepsOwners(s);
    } else {
      var t := WorkerAfter(s, step);
      WorkerFrame(s, step);
      forall x | IsPending(t, x) ensures Owned(t, x) {
        assert IsPending(s, x);
      }
    }
  }

  // ---------------------------------------------------------------- transactions

  /** A transaction pays exactly what the request asked for. */
  predicate Funds(r: Request, tx: Tx) { tx.to == r.address && tx.value == r.amount }

  /** The store's single remembered hash is one of the journaled transactions. */
  ghost predicate Recorded(s: State, id: RequestId)
    requires id in s.store.requests
  {
    var r := s.store.requests[id];
    && (forall t :: t in s.TxsOf(id) ==> Funds(r, t))
    && s.OverwrittenOf(id) <= s.TxsOf(id)
    && (r.status == Queued || r.status == Denied ==> r.hash == None && s.TxsOf(id) == {})
    && (r.hash == None ==> s.TxsOf(id) == {})
    && (r.status == Submitted || r.status == Confirmed ==> r.hash.Some?)
    && (r.hash.Some? ==> r.hash.value in s.TxsOf(id) && r.hash.value.nonce == r.nonce)
  }

  /** What the worker's position says about the request it is on. */
  predicate Site(s: State) {
    match s.worker
    case Probing(_, _) => On(s, Submitted)
    case Stuck(_) => On(s, Submitted)
    case Replacing(_) => On(s, Submitted)
    case Signed(id, tx, replacement) =>
      && id in s.store.requests && Funds(s.store.requests[id], tx)
      && (replacement ==> On(s, Submitted) && tx.nonce == s.store.requests[id].nonce)
    case Journaled(id, tx, _) => On(s, Submitted) && s.store.requests[id].hash == Some(tx)
    case Waiting(id, tx) => On(s, Submitted) && s.store.requests[id].hash == Some(tx)
    case _ => true
  }

  /** Every broadcast transaction was journaled for some request first. */
  ghost predicate JournaledFirst(s: State) {
    forall t :: t in s.mempool ==> exists id :: t in s.TxsOf(id)
  }

  /** One receipt per account and nonce, and the account has moved past it. */
  ghost predicate OneReceipt(c: Chain) {
    && (forall i :: 0 <= i < |c.landed| ==> c.Passed(c.landed[i].tx))
    && (forall i, j :: 0 <= i < j < |c.landed| ==>
          c.landed[i].tx.signer != c.landed[j].tx.signer || c.landed[i].tx.nonce != c.landed[j].tx.nonce)
  }

  ghost predicate Ledger(s: State) {
    && s.txs.Keys <= s.store.requests.Keys && s.overwritten.Keys <= s.store.requests.Keys
    && (forall id :: id in s.store.requests ==> Recorded(s, id))
    && Site(s)
    && JournaledFirst(s)
    && OneReceipt(s.chain)
    && (forall i :: 0 <= i < |s.chain.landed| ==> s.chain.landed[i].tx in s.mempool)
  }

  /** A status change that keeps the request's identity and its remembered hash. */
  predicate Evolves(r: Request, q: Request) {
    && q.address == r.address && q.amount == r.amount && q.hash == r.hash && q.nonce == r.nonce
    && (q.status == Queued || q.status == Denied ==> q.status == r.status)
    && (q.status == Submitted || q.status == Confirmed ==> q.hash.Some?)
  }

  /** Steps that journal no transaction: known requests evolve, new ones start without any. */
  lemma EvolutionKeepsRecords(s: State, t: State)
    requires t.txs == s.txs && t.overwritten == s.overwritten
    requires s.txs.Keys <= s.store.requests.Keys && s.overwritten.Keys <= s.store.requests.Keys
    requires forall id :: id in s.store.requests ==> Recorded(s, id)
    requires forall id :: id in s.store.requests ==>
               id in t.store.requests && Evolves(s.store.requests[id], t.store.requests[id])
    requires forall id :: id in t.store.requests && id !in s.store.requests ==>
               t.store.requests[id].status == Queued && t.store.requests[id].hash == None
    ensures t.txs.Keys <= t.store.requests.Keys && t.overwritten.Keys <= t.store.requests.Keys
    ensures forall id :: id in t.store.requests ==> Recorded(t, id)
  {
    hide Recorded, Evolves;
    forall id | id in t.store.requests ensures Recorded(t, id) {
      if id in s.store.requests {
        EvolutionKeepsRecord(s, t, id);
      } else {
        NewRecord(t, id);
      }
    }
  }

  lemma EvolutionKeepsRecord(s: State, t: State, id: RequestId)
    requires t.txs == s.txs && t.overwritten == s.overwritten && id in s.store.requests && id in t.store.requests
    requires Recorded(s, id) && Evolves(s.store.requests[id], t.store.requests[id])
    ensures Recorded(t, id)
  {
    assert t.TxsOf(id) == s.TxsOf(id) && t.OverwrittenOf(id) == s.OverwrittenOf(id);
  }

  lemma NewRecord(t: State, id: RequestId)
    requires id in t.store.requests && id !in t.txs && id !in t.overwritten
    requires t.store.requests[id].status == Queued && t.store.requests[id].hash == None
    ensures Recorded(t, id)
  {
  }

  lemma JournaledFirstFrame(s: State, t: State)
    requires JournaledFirst(s) && t.mempool == s.mempool && t.txs == s.txs
    ensures JournaledFirst(t)
  {
    forall x | x in t.mempool ensures exists id :: x in t.TxsOf(id) {
      var id :| x in s.TxsOf(id);
      assert x in t.TxsOf(id);
    }
  }

  lemma ServerKeepsLedger(s: State, p: Profile, step: ServerStep)
    requires Owners(s) && Ledger(s) && ServerEnabled(s, p, step)
    ensures Ledger(ServerAfter(s, p, step))
  {
    var t := ServerAfter(s, p, step);
    ServerEvolves(s, p, step);
    EvolutionKeepsRecords(s, t);
    JournaledFirstFrame(s, t);
  }

  lemma EvolvesSelf(s: State, id: RequestId)
    requires id in s.store.requests && Recorded(s, id)
    ensures Evolves(s.store.requests[id], s.store.requests[id])
  {
  }

  /** Which requests a server step touches, and how: it starts new ones and fails those it holds. */
  ghost predicate TouchedByServer(s: State, t: State)
    requires forall id :: id in s.awaiting ==> id in s.store.requests
  {
    && t.txs == s.txs && t.overwritten == s.overwritten && t.mempool == s.mempool && t.chain == s.chain
    && t.worker == s.worker
    && (forall id :: id in s.store.requests ==> id in t.store.requests)
    && (forall id :: id in s.store.requests && id !in s.awaiting ==> t.store.requests[id] == s.store.requests[id])
    && (forall id :: id in s.awaiting ==>
          || t.store.requests[id] == s.store.requests[id]
          || (t.store.requests[id].status == Failed
              && t.store.requests[id].(status := Queued, reason := "", updatedAt := 0)
                 == s.store.requests[id].(status := Queued, reason := "", updatedAt := 0)))
    && (forall id :: id in t.store.requests && id !in s.store.requests ==>
          t.store.requests[id].status == Queued && t.store.requests[id].hash == None)
  }

  lemma ServerTouches(s: State, p: Profile, step: ServerStep)
    requires Owners(s) && ServerEnabled(s, p, step)
    ensures TouchedByServer(s, ServerAfter(s, p, step))
  {
    hide TouchedByServer, ServerAfter;
    if step.Accept? {
      AcceptTouches(s, p, step);
    } else if step.RejectFull? {
      RejectTouches(s, p, step);
    } else {
      OtherServerStep(s, p, step);
      SameRequestsTouch(s, ServerAfter(s, p, step));
    }
  }

  lemma OtherServerStep(s: State, p: Profile, step: ServerStep)
    requires !step.Accept? && !step.RejectFull?
    ensures var t := ServerAfter(s, p, step);
            && t.txs == s.txs && t.overwritten == s.overwritten && t.mempool == s.mempool && t.chain == s.chain
            && t.worker == s.worker && t.store.requests == s.store.requests
  {
    hide Apply;
    match step {
      case Pause(reason, at) => ServiceEvent(s.store, Event(at, ServicePaused(reason)));
      case Resume(at) => ServiceEvent(s.store, Event(at, ServiceResumed));
      case Refill(source, amount, at) => ServiceEvent(s.store, Event(at, RefillObserved(source, amount)));
      case SwapSigner(key, at) =>
        var out := if s.signer == ZERO_ADDRESS then None else Some(s.signer);
        ServiceEvent(s.store, Event(at, SignerRotated(out, key)));
      case _ =>
    }
  }

  /** Entries about the service leave the requests alone. */
  lemma ServiceEvent(s: StoreState, e: Event)
    requires
      || e.payload.ServicePaused? || e.payload.ServiceResumed? || e.payload.RefillObserved?
      || e.payload.SignerRotated?
    ensures Apply(s, e).Ok? && Apply(s, e).value.requests == s.requests
  {
    hide WithAccepted, WithDenied, WithSubmitted, WithConfirmed, WithFailed;
  }

  lemma SameRequestsTouch(s: State, t: State)
    requires forall id :: id in s.awaiting ==> id in s.store.requests
    requires t.txs == s.txs && t.overwritten == s.overwritten && t.mempool == s.mempool && t.chain == s.chain
    requires t.worker == s.worker && t.store.requests == s.store.requests
    ensures TouchedByServer(s, t)
  {
  }

  lemma AcceptTouches(s: State, p: Profile, step: ServerStep)
    requires forall id :: id in s.awaiting ==> id in s.store.requests
    requires ServerEnabled(s, p, step) && step.Accept?
    ensures TouchedByServer(s, ServerAfter(s, p, step))
  {
    hide Decide, AddSpent, BudgetDay;
  }

  lemma RejectTouches(s: State, p: Profile, step: ServerStep)
    requires forall id :: id in s.awaiting ==> id in s.store.requests
    requires ServerEnabled(s, p, step) && step.RejectFull?
    ensures TouchedByServer(s, ServerAfter(s, p, step))
  {
    hide AddSpent, BudgetDay;
  }

  lemma ServerEvolves(s: State, p: Profile, step: ServerStep)
    requires Owners(s) && Site(s) && ServerEnabled(s, p, step)
    requires forall id :: id in s.store.requests ==> Recorded(s, id)
    ensures var t := ServerAfter(s, p, step);
            && t.txs == s.txs && t.overwritten == s.overwritten && t.mempool == s.mempool && t.chain == s.chain
            && (forall id :: id in s.store.requests ==>
                 id in t.store.requests && Evolves(s.store.requests[id], t.store.requests[id]))
            && (forall id :: id in t.store.requests && id !in s.store.requests ==>
                  t.store.requests[id].status == Queued && t.store.requests[id].hash == None)
            && Site(t)
  {
    var t := ServerAfter(s, p, step);
    ServerTouches(s, p, step);
    forall id | id in s.store.requests
      ensures id in t.store.requests && Evolves(s.store.requests[id], t.store.requests[id])
    {
      EvolvesSelf(s, id);
    }
  }

  lemma LandKeepsOneReceipt(c: Chain, tx: Tx, ok: bool)
    requires OneReceipt(c) && tx.nonce == c.NonceAt(tx.signer)
    ensures OneReceipt(Chain(c.Bump(tx.signer), c.landed + [Landing(tx, ok)]))
  {
  }

  /** Steps that change neither requests nor transactions. */
  lemma LedgerFrame(s: State, t: State)
    requires Ledger(s) && t.store.requests == s.store.requests && t.txs == s.txs && t.overwritten == s.overwritten
    requires t.mempool == s.mempool && (t.worker == s.worker || t.worker.Idle?)
    requires OneReceipt(t.chain) && forall i :: 0 <= i < |t.chain.landed| ==> t.chain.landed[i].tx in t.mempool
    ensures Ledger(t)
  {
    hide OneReceipt, Funds;
    JournaledFirstFrame(s, t);
    forall id | id in t.store.requests ensures Recorded(t, id) {
      assert Recorded(s, id);
      assert t.TxsOf(id) == s.TxsOf(id) && t.OverwrittenOf(id) == s.OverwrittenOf(id);
    }
  }

  lemma ChainKeepsLedger(s: State, step: ChainStep)
    requires Ledger(s) && ChainEnabled(s, step)
    ensures Ledger(ChainAfter(s, step))
  {
    hide Recorded, JournaledFirst, Site;
    var t := ChainAfter(s, step);
    if step.Land? {
      LandKeepsOneReceipt(s.chain, step.tx, step.ok);
    }
    hide Ledger;
    LedgerFrame(s, t);
  }

  lemma LifeKeepsLedger(s: State, p: Profile, step: LifeStep)
    requires Replay(s.journal) == Ok(s.store) && Owners(s) && Ledger(s) && LifeEnabled(s, p, step)
    ensures Ledger(LifeAfter(s, p, step))
  {
    hide Replay, PendingIds, Recorded, JournaledFirst, Site, OneReceipt, Owners;
    if step.DropBacklog? {
      DropKeepsLedger(s, p, step);
    } else {
      LedgerFrame(s, LifeAfter(s, p, step));
    }
  }

  lemma LifeKeepsRecords(s: State, p: Profile, step: LifeStep)
    requires Replay(s.journal) == Ok(s.store) && LifeEnabled(s, p, step) && !step.DropBacklog?
    ensures var t := LifeAfter(s, p, step);
            && t.txs == s.txs && t.overwritten == s.overwritten && t.mempool == s.mempool && t.chain == s.chain
            && t.store == s.store && (t.worker == s.worker || t.worker.Idle?)
  {
    hide Replay, PendingIds;
  }

  lemma DropTouches(s: State, p: Profile, step: LifeStep)
    requires LifeEnabled(s, p, step) && step.DropBacklog? && s.phase.backlog[0] in s.store.requests
    ensures var (t, id) := (LifeAfter(s, p, step), s.phase.backlog[0]);
            && t.txs == s.txs && t.overwritten == s.overwritten && t.mempool == s.mempool && t.chain == s.chain
            && t.worker == s.worker
            && t.store.requests == s.store.requests[id := s.store.requests[id].(
                 status := Failed, reason := "queue capacity exceeded during restart recovery", updatedAt := step.at)]
  {
    hide AddSpent, BudgetDay;
  }

  lemma DropKeepsLedger(s: State, p: Profile, step: LifeStep)
    requires Owners(s) && Ledger(s) && LifeEnabled(s, p, step) && step.DropBacklog?
    ensures Ledger(LifeAfter(s, p, step))
  {
    hide OneReceipt, Funds, LifeAfter, Recorded, JournaledFirst;
    var t := LifeAfter(s, p, step);
    assert s.phase.backlog[0] in s.phase.backlog;
    DropTouches(s, p, step);
    forall id | id in s.store.requests
      ensures id in t.store.requests && Evolves(s.store.requests[id], t.store.requests[id])
    {
      EvolvesSelf(s, id);
    }
    EvolutionKeepsRecords(s, t);
    JournaledFirstFrame(s, t);
  }

  lemma JournalKeepsRecord(s: State, at: Time, id: RequestId)
    requires WorkerEnabled(s, Journal(at)) && id in s.store.requests && Recorded(s, id)
    requires Site(s)
    ensures Recorded(WorkerAfter(s, Journal(at)), id)
  {
    var t := WorkerAfter(s, Journal(at));
    if id == s.worker.id {
      assert t.TxsOf(id) == s.TxsOf(id) + {s.worker.tx};
    } else {
      assert t.TxsOf(id) == s.TxsOf(id) && t.OverwrittenOf(id) == s.OverwrittenOf(id);
    }
  }

  /** What journaling changes: the request the worker is on, and its transactions. */
  lemma JournalTouches(s: State, at: Time)
    requires WorkerEnabled(s, Journal(at))
    ensures var t := WorkerAfter(s, Journal(at));
            && t.worker == Journaled(s.worker.id, s.worker.tx, s.worker.replacement)
            && t.mempool == s.mempool && t.chain == s.chain && Moves(s.store, t.store, s.worker.id)
            && t.store.requests[s.worker.id].status == Submitted
            && t.store.requests[s.worker.id].hash == Some(s.worker.tx)
            && t.store.requests[s.worker.id].nonce == s.worker.tx.nonce
            && t.txs == s.txs[s.worker.id := s.TxsOf(s.worker.id) + {s.worker.tx}]
            && t.overwritten.Keys == s.overwritten.Keys + {s.worker.id}
            && (forall id :: id != s.worker.id ==> t.OverwrittenOf(id) == s.OverwrittenOf(id))
  {
  }

  lemma JournalKeepsLedger(s: State, at: Time)
    requires Ledger(s) && WorkerEnabled(s, Journal(at))
    ensures Ledger(WorkerAfter(s, Journal(at)))
  {
    hide WorkerAfter, Recorded, OneReceipt, Funds;
    JournalTouches(s, at);
    var t := WorkerAfter(s, Journal(at));
    forall id | id in t.store.requests ensures Recorded(t, id) {
      JournalKeepsRecord(s, at, id);
    }
    forall x | x in t.mempool ensures exists id :: x in t.TxsOf(id) {
      var id :| x in s.TxsOf(id);
      assert x in t.TxsOf(id);
    }
  }

  lemma WorkerTouches(s: State, step: WorkerStep)
    requires (!s.worker.Idle? ==> IsPending(s, s.worker.id)) && Site(s) && WorkerEnabled(s, step) && !step.Journal?
    ensures var t := WorkerAfter(s, step);
            && t.txs == s.txs && t.overwritten == s.overwritten && t.chain == s.chain
            && t.store.requests.Keys == s.store.requests.Keys
            && (forall id :: id in s.store.requests && (s.worker.Idle? || id != s.worker.id) ==>
                  t.store.requests[id] == s.store.requests[id])
  {
    if step != Take {
      WorkerFrame(s, step);
    }
  }

  /** What a worker step other than journaling makes of its request. */
  lemma WorkerOutcome(s: State, step: WorkerStep)
    requires (!s.worker.Idle? ==> IsPending(s, s.worker.id)) && Site(s) && WorkerEnabled(s, step) && !step.Journal?
    ensures var (t, e) := (WorkerAfter(s, step), WorkerEvent(s, step));
            && (e.None? ==> t.store == s.store)
            && (e.Some? ==>
                  && (e.value.payload.TxFailed? || e.value.payload.TxConfirmed?)
                  && Moves(s.store, t.store, s.worker.id)
                  && t.store.requests[s.worker.id].signer == s.store.requests[s.worker.id].signer
                  && t.store.requests[s.worker.id].status == if e.value.payload.TxFailed? then Failed else Confirmed)
  {
    hide WorkerEvent, WorkerEnabled, WorkerNext, WorkerSends, AddSpent, BudgetDay;
    if WorkerEvent(s, step).Some? {
      WorkerEventOwn(s, step);
      EndingEvent(s.store, WorkerEvent(s, step).value);
    }
  }

  lemma EndingEvent(s: StoreState, e: Event)
    requires Lifecycle(s, e) && (e.payload.TxFailed? || e.payload.TxConfirmed?)
    ensures Apply(s, e).Ok? && Moves(s, Apply(s, e).value, e.payload.requestId)
    ensures var (r, q) := (s.requests[e.payload.requestId], Apply(s, e).value.requests[e.payload.requestId]);
            q.signer == r.signer && q.status == if e.payload.TxFailed? then Failed else Confirmed
  {
    hide AddSpent, BudgetDay, WithAccepted, WithDenied, WithSubmitted;
  }

  /** A confirmation records the hash the request already holds. */
  lemma ConfirmedHash(s: State, step: WorkerStep)
    requires Site(s) && WorkerEnabled(s, step) && WorkerEvent(s, step).Some?
    requires WorkerEvent(s, step).value.payload.TxConfirmed?
    ensures On(s, Submitted) && s.store.requests[s.worker.id].hash == Some(WorkerEvent(s, step).value.payload.hash)
  {
  }

  lemma WorkerEvolvesOwn(s: State, step: WorkerStep)
    requires !s.worker.Idle? && IsPending(s, s.worker.id) && Site(s) && Recorded(s, s.worker.id)
    requires WorkerEnabled(s, step) && !step.Journal?
    ensures var t := WorkerAfter(s, step);
            s.worker.id in t.store.requests && Evolves(s.store.requests[s.worker.id], t.store.requests[s.worker.id])
  {
    if WorkerEvent(s, step).Some? {
      WorkerEventOwn(s, step);
      if WorkerEvent(s, step).value.payload.TxConfirmed? {
        ConfirmedHash(s, step);
      }
    }
  }

  lemma WorkerKeepsSite(s: State, step: WorkerStep)
    requires Site(s) && WorkerEnabled(s, step) && !step.Journal?
    ensures Site(WorkerAfter(s, step))
  {
    hide Apply, WorkerEnabled;
    if WorkerEvent(s, step).Some? {
      assert WorkerNext(s, step) == Idle;
    } else {
      NextSite(s, step);
    }
  }

  lemma NextSite(s: State, step: WorkerStep)
    requires Site(s) && WorkerEnabled(s, step) && WorkerEvent(s, step).None?
    ensures Site(s.(worker := WorkerNext(s, step)))
    ensures var t := WorkerAfter(s, step); t.store == s.store && t.worker == WorkerNext(s, step)
  {
    hide Apply;
  }

  /** Every other worker step changes at most a status, and the worker's position stays truthful. */
  lemma WorkerEvolves(s: State, step: WorkerStep)
    requires (!s.worker.Idle? ==> IsPending(s, s.worker.id)) && Site(s) && WorkerEnabled(s, step) && !step.Journal?
    requires forall id :: id in s.store.requests ==> Recorded(s, id)
    ensures var t := WorkerAfter(s, step);
            && t.txs == s.txs && t.overwritten == s.overwritten && t.chain == s.chain
            && t.store.requests.Keys == s.store.requests.Keys
            && (forall id :: id in s.store.requests ==> Evolves(s.store.requests[id], t.store.requests[id]))
            && Site(t)
  {
    var t := WorkerAfter(s, step);
    WorkerTouches(s, step);
    WorkerKeepsSite(s, step);
    forall id | id in s.store.requests
      ensures Evolves(s.store.requests[id], t.store.requests[id])
    {
      EvolvesSelf(s, id);
      if !s.worker.Idle? && id == s.worker.id {
        WorkerEvolvesOwn(s, step);
      }
    }
  }

  lemma WorkerKeepsLedger(s: State, step: WorkerStep)
    requires (!s.worker.Idle? ==> IsPending(s, s.worker.id)) && Ledger(s) && WorkerEnabled(s, step)
    ensures Ledger(WorkerAfter(s, step))
  {
    if step.Journal? {
      JournalKeepsLedger(s, step.at);
    } else {
      var t := WorkerAfter(s, step);
      WorkerEvolves(s, step);
      EvolutionKeepsRecords(s, t);
      BroadcastWasJournaled(s, t, step);
    }
  }

  /** Sending puts only the current, already journaled transaction on the network. */
  lemma BroadcastWasJournaled(s: State, t: State, step: WorkerStep)
    requires Ledger(s) && WorkerEnabled(s, step) && t == WorkerAfter(s, step) && !step.Journal?
    ensures JournaledFirst(t) && s.mempool <= t.mempool
  {
    hide WorkerNext, WorkerEvent, OneReceipt, Funds;
    forall x | x in t.mempool ensures exists id :: x in t.TxsOf(id) {
      if x in s.mempool {
        var id :| x in s.TxsOf(id);
        assert x in t.TxsOf(id);
      } else {
        assert Recorded(s, s.worker.id);
        assert x in t.TxsOf(s.worker.id);
      }
    }
  }

  // ---------------------------------------------------------------- runs

  ghost predicate Base(s: State) { Books(s) && Owners(s) && Ledger(s) }

  lemma InitBase(s: State)
    requires Init(s)
    ensures Base(s)
  {
  }

  lemma StepKeepsBooks(s: State, p: Profile, step: Step)
    requires p.Valid() && Base(s) && Enabled(s, p, step)
    ensures Books(After(s, p, step))
  {
    match step {
      case Server(x) => ServerKeepsBooks(s, p, x);
      case Network(x) => BooksFrame(s, ChainAfter(s, x));
      case Life(x) => LifeKeepsBooks(s, p, x);
      case Work(x) => WorkerKeepsBooks(s, x);
    }
  }

  lemma StepKeepsOwners(s: State, p: Profile, step: Step)
    requires p.Valid() && Base(s) && Enabled(s, p, step)
    ensures Owners(After(s, p, step))
  {
    match step {
      case Server(x) => ServerKeepsOwners(s, p, x);
      case Network(x) => ChainKeepsOwners(s, x);
      case Life(x) => LifeKeepsOwners(s, p, x);
      case Work(x) => WorkerKeepsOwners(s, x);
    }
  }

  lemma ChainKeepsOwners(s: State, step: ChainStep)
    requires Owners(s) && ChainEnabled(s, step)
    ensures Owners(ChainAfter(s, step))
  {
    var t := ChainAfter(s, step);
    forall x | IsPending(t, x) && !t.phase.Down? ensures Owned(t, x) {
      assert IsPending(s, x);
    }
  }

  lemma StepKeepsLedger(s: State, p: Profile, step: Step)
    requires p.Valid() && Base(s) && Enabled(s, p, step)
    ensures Ledger(After(s, p, step))
  {
    match step {
      case Server(x) => ServerKeepsLedger(s, p, x);
      case Network(x) => ChainKeepsLedger(s, x);
      case Life(x) => LifeKeepsLedger(s, p, x);
      case Work(x) => WorkerKeepsLedger(s, x);
    }
  }

  lemma StepKeepsBase(s: State, p: Profile, step: Step)
    requires p.Valid() && Base(s) && Enabled(s, p, step)
    ensures Base(After(s, p, step))
  {
    StepKeepsBooks(s, p, step);
    StepKeepsOwners(s, p, step);
    StepKeepsLedger(s, p, step);
  }

  /** Every state of every run, whatever the network and the operator do. */
  lemma {:induction false} RunKeepsBase(run: Run, p: Profile, k: nat)
    requires p.Valid() && run.Valid(p) && k < |run.states|
    ensures Base(run.states[k])
  {
    if k == 0 {
      InitBase(run.states[0]);
    } else {
      RunKeepsBase(run, p, k - 1);
      StepKeepsBase(run.states[k - 1], p, run.steps[k - 1]);
    }
  }

  lemma ChainStepFollows(s: State, step: ChainStep, view: Chain)
    requires ChainEnabled(s, step) && s.chain.Follows(view)
    ensures ChainAfter(s, step).chain.Follows(view)
  {
    var t := ChainAfter(s, step);
    if step.Land? {
      assert t.chain.landed[|s.chain.landed|] == Landing(step.tx, step.ok);
      assert step.tx.nonce >= view.NonceAt(step.tx.signer);
    }
  }

  lemma StepFollows(s: State, p: Profile, step: Step, view: Chain)
    requires Enabled(s, p, step) && s.chain.Follows(view)
    ensures After(s, p, step).chain.Follows(view)
  {
    hide ServerAfter, LifeAfter, WorkerAfter, Chain.Follows;
    match step {
      case Server(x) => ServerKeepsChain(s, p, x);
      case Network(x) => ChainStepFollows(s, x, view);
      case Life(x) => LifeKeepsChain(s, p, x);
      case Work(x) => WorkKeepsChain(s, x);
    }
  }

  lemma ServerKeepsChain(s: State, p: Profile, step: ServerStep)
    ensures ServerAfter(s, p, step).chain == s.chain
  {
    hide Apply;
  }

  lemma LifeKeepsChain(s: State, p: Profile, step: LifeStep)
    requires LifeEnabled(s, p, step)
    ensures LifeAfter(s, p, step).chain == s.chain
  {
    hide Apply, Replay;
  }

  lemma WorkKeepsChain(s: State, step: WorkerStep)
    requires WorkerEnabled(s, step)
    ensures WorkerAfter(s, step).chain == s.chain
  {
    hide Apply, WorkerNext, WorkerSends, Lost;
  }

  lemma FollowsItself(c: Chain)
    requires OneReceipt(c)
    ensures c.Follows(c)
  {
  }

  /** The views a read may be answered from include every state the chain was in before. */
  lemma {:induction false} PastChainsAreViews(run: Run, p: Profile, i: nat, k: nat)
    requires p.Valid() && run.Valid(p) && i <= k < |run.states|
    ensures run.states[k].chain.Follows(run.states[i].chain)
    decreases k
  {
    hide Enabled, After;
    if i == k {
      RunKeepsBase(run, p, k);
      FollowsItself(run.states[k].chain);
    } else {
      PastChainsAreViews(run, p, i, k - 1);
      assert Enabled(run.states[k - 1], p, run.steps[k - 1]);
      StepFollows(run.states[k - 1], p, run.steps[k - 1], run.states[i].chain);
    }
  }
}
