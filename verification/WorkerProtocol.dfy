/**
 The submission protocol as a state machine: HTTP and admin handlers, the single worker goroutine,
 process crashes and restarts, and the chain, each advancing by atomic steps in any interleaving.
 */
module WorkerProtocol {
  import opened Basics
  import opened FaucetEvents
  import opened FaucetPending

  datatype Landing = Landing(tx: Tx, ok: bool)

  /** The finalised chain as the faucet sees it: confirmed account nonces and receipts. */
  datatype Chain = Chain(nonces: map<Address, nat>, landed: seq<Landing>)
  {
    function NonceAt(a: Address): nat { if a in nonces then nonces[a] else 0 }
    /** A successful receipt: the transfer moved its value. */
    predicate Paid(tx: Tx) { Landing(tx, true) in landed }
    /** A failed receipt: the nonce is used up, no value moved. */
    predicate Reverted(tx: Tx) { Landing(tx, false) in landed }
    /** The account has moved past this nonce, so the transaction can no longer land. */
    predicate Passed(tx: Tx) { NonceAt(tx.signer) > tx.nonce }
    function Bump(a: Address): map<Address, nat> { nonces[a := NonceAt(a) + 1] }

    /** A node may answer from this earlier view: a prefix of the receipts, with nonces to match. */
    predicate Follows(view: Chain) {
      && view.landed <= landed
      && (forall a :: a in view.nonces ==> view.nonces[a] <= NonceAt(a))
      && (forall i :: 0 <= i < |view.landed| ==> view.Passed(view.landed[i].tx))
      && (forall i :: |view.landed| <= i < |landed| ==> landed[i].tx.nonce >= view.NonceAt(landed[i].tx.signer))
    }
  }

  datatype Phase = Down | Booting(backlog: seq<RequestId>) | Running

  /** Where the worker goroutine stands in `process`. */
  datatype Worker =
    | Idle
    | Deciding(id: RequestId)                                      // loop head
    | Probing(id: RequestId, seen: Chain)                          // receipt not found, nonce not read yet
    | Stuck(id: RequestId)                                         // unknown for a full timeout
    | Replacing(id: RequestId)                                     // replacement checks passed, not signed
    | Cleared(id: RequestId)                                       // queued, or judged gone
    | Ready(id: RequestId)                                         // fence check passed
    | Attempting(id: RequestId, account: Address, nonce: nat)      // fundOnce read address and nonce
    | Signed(id: RequestId, tx: Tx, replacement: bool)             // signed, not journaled
    | Journaled(id: RequestId, tx: Tx, replacement: bool)          // journaled, not broadcast
    | Waiting(id: RequestId, tx: Tx)                               // broadcast, polling the receipt

  /** One use of the hot key, with the number of journal entries written before it. */
  datatype Signature = Signature(key: Address, position: nat)

  /**
   `journal` is durable.  `store` through `worker` are process memory.  `chain` and `mempool` are the
   network.  `txs`, `overwritten` and `signatures` record history: every transaction ever journaled
   for a request, those whose hash a replacement overwrote, and every use of the key.
   */
  datatype State = State(
    journal: seq<Event>,
    store: StoreState,
    phase: Phase,
    signer: Address,
    queue: seq<RequestId>,
    awaiting: set<RequestId>,
    rotating: multiset<Address>,
    worker: Worker,
    chain: Chain,
    mempool: set<Tx>,
    txs: map<RequestId, set<Tx>>,
    overwritten: map<RequestId, set<Tx>>,
    signatures: seq<Signature>)
  {
    function TxsOf(id: RequestId): set<Tx> { if id in txs then txs[id] else {} }
    function OverwrittenOf(id: RequestId): set<Tx> { if id in overwritten then overwritten[id] else {} }

    /** `transition`: append to the journal, then apply to memory. */
    function Log(e: Event): State {
      this.(journal := journal + [e], store := match Apply(store, e) case Ok(t) => t case Err(_) => store)
    }
  }

  datatype ServerStep =
    | Accept(clientKey: string, address: Address, at: Time, id: RequestId)
    | Enqueue(id: RequestId)
    | RejectFull(id: RequestId, at: Time)
    | Pause(reason: string, at: Time)
    | Resume(at: Time)
    | Refill(source: string, amount: int, at: Time)
    | CheckRotation(key: Address)
    | SwapSigner(key: Address, at: Time)
    | SignDrain  // the pause check came earlier; its transaction lands as a `Foreign` step

  predicate ServerEnabled(s: State, p: Profile, step: ServerStep) {
    s.phase == Running &&
    match step
    case Accept(clientKey, address, at, id) =>
      id != "" && id !in s.store.requests && Decide(s.store, p, clientKey, address, at) == Granted
    case Enqueue(id) => id in s.awaiting && |s.queue| < p.queueCapacity
    case RejectFull(id, _) => id in s.awaiting && |s.queue| >= p.queueCapacity
    case CheckRotation(key) => key !in s.store.fencedKeys && key != s.signer
    case SwapSigner(key, _) => key in s.rotating
    case _ => true
  }

  function ServerAfter(s: State, p: Profile, step: ServerStep): State {
    match step
    case Accept(clientKey, address, at, id) =>
      s.Log(Acceptance(p, clientKey, address, at, id)).(awaiting := s.awaiting + {id})
    case Enqueue(id) => s.(queue := s.queue + [id], awaiting := s.awaiting - {id})
    case RejectFull(id, at) => s.Log(Event(at, TxFailed(id, "queue is full"))).(awaiting := s.awaiting - {id})
    case Pause(reason, at) => s.Log(Event(at, ServicePaused(reason)))
    case Resume(at) => s.Log(Event(at, ServiceResumed))
    case Refill(source, amount, at) => s.Log(Event(at, RefillObserved(source, amount)))
    case CheckRotation(key) => s.(rotating := s.rotating + multiset{key})
    case SwapSigner(key, at) =>
      s.Log(Event(at, SignerRotated(if s.signer == ZERO_ADDRESS then None else Some(s.signer), key)))
       .(signer := key, rotating := s.rotating - multiset{key})
    case SignDrain => s.(signatures := s.signatures + [Signature(s.signer, |s.journal|)])
  }

  datatype ChainStep =
    | Land(tx: Tx, ok: bool)
    | Foreign(account: Address)  // any other transaction of that account, such as a drain

  predicate ChainEnabled(s: State, step: ChainStep) {
    match step
    case Land(tx, _) => tx in s.mempool && tx.nonce == s.chain.NonceAt(tx.signer)
    case Foreign(_) => true
  }

  function ChainAfter(s: State, step: ChainStep): State {
    match step
    case Land(tx, ok) => s.(chain := Chain(s.chain.Bump(tx.signer), s.chain.landed + [Landing(tx, ok)]))
    case Foreign(account) => s.(chain := s.chain.(nonces := s.chain.Bump(account)))
  }

  datatype LifeStep =
    | Crash
    | Boot(key: Address)
    | Reenqueue
    | DropBacklog(at: Time)
    | Serve

  predicate LifeEnabled(s: State, p: Profile, step: LifeStep) {
    match step
    case Crash => true
    case Boot(key) => s.phase == Down && key !in s.store.fencedKeys
    case Reenqueue => s.phase.Booting? && s.phase.backlog != [] && |s.queue| < p.queueCapacity
    case DropBacklog(_) => s.phase.Booting? && s.phase.backlog != [] && |s.queue| >= p.queueCapacity
    case Serve => s.phase == Booting([])
  }

  function LifeAfter(s: State, p: Profile, step: LifeStep): State
    requires LifeEnabled(s, p, step)
  {
    match step
    case Crash =>
      s.(phase := Down, queue := [], awaiting := {}, rotating := multiset{}, worker := Idle,
         store := match Replay(s.journal) case Ok(t) => t case Err(_) => s.store)
    case Boot(key) => s.(signer := key, phase := Booting(PendingIds(s.store)))
    case Reenqueue => s.(queue := s.queue + [s.phase.backlog[0]], phase := Booting(s.phase.backlog[1..]))
    case DropBacklog(at) =>
      s.Log(Event(at, TxFailed(s.phase.backlog[0], "queue capacity exceeded during restart recovery")))
       .(phase := Booting(s.phase.backlog[1..]))
    case Serve => s.(phase := Running)
  }

  datatype WorkerStep =
    | Take
    | Finish
    | ReceiptPaid(at: Time, block: nat)
    | ReceiptReverted(at: Time)
    | ReceiptMissing(view: Chain)  // a read that finds nothing, or no progress, may lag behind the chain
    | NonceAhead(view: Chain)
    | NonceBehind(view: Chain)
    | TimedOut(view: Chain)
    | CheckReplacement
    | SignReplacement(tip: nat, feeCap: nat)
    | Begin
    | PassFence
    | Attempt(nonce: nat)
    | Sign(tip: nat, feeCap: nat)
    | SignMismatch
    | Retry
    | FailEarly(reason: string, at: Time)
    | Journal(at: Time)
    | SendOk
    | SendFailed(reached: bool)
    | WaitPaid(at: Time, block: nat)
    | WaitReverted(at: Time)
    | WaitOver
    | FailMarked(reason: string, reached: bool, at: Time)

  /** The request the worker is on is known and in the given status. */
  predicate On(s: State, status: Status) {
    !s.worker.Idle? && s.worker.id in s.store.requests && s.store.requests[s.worker.id].status == status
  }

  /** At the loop head with a submitted transaction to settle, the service not paused. */
  predicate Settling(s: State) {
    s.worker.Deciding? && On(s, Submitted) && s.store.requests[s.worker.id].hash.Some? && !s.store.paused
  }

  predicate WorkerEnabled(s: State, step: WorkerStep) {
    s.phase == Running &&
    match step
    case Take => s.worker.Idle? && s.queue != []
    case Finish =>
      s.worker.Deciding? &&
      (s.worker.id !in s.store.requests || !s.store.requests[s.worker.id].Pending())
    case ReceiptPaid(_, _) => Settling(s) && s.chain.Paid(s.store.requests[s.worker.id].hash.value)
    case ReceiptReverted(_) => Settling(s) && s.chain.Reverted(s.store.requests[s.worker.id].hash.value)
    case ReceiptMissing(view) =>
      Settling(s) && s.chain.Follows(view) &&
      var hash := s.store.requests[s.worker.id].hash.value;
      !view.Paid(hash) && !view.Reverted(hash)
    case NonceAhead(view) =>
      s.worker.Probing? && On(s, Submitted) && s.chain.Follows(view) &&
      var r := s.store.requests[s.worker.id];
      view.NonceAt(r.signer) > r.nonce
    case NonceBehind(view) =>
      s.worker.Probing? && On(s, Submitted) && s.chain.Follows(view) &&
      var r := s.store.requests[s.worker.id];
      view.NonceAt(r.signer) <= r.nonce
    case TimedOut(view) =>
      s.worker.Probing? && On(s, Submitted) && s.chain.Follows(view) &&
      var r := s.store.requests[s.worker.id];
      view.NonceAt(r.signer) <= r.nonce
    case CheckReplacement =>
      s.worker.Stuck? && On(s, Submitted) && s.store.requests[s.worker.id].signer == s.signer
    case SignReplacement(_, _) => s.worker.Replacing? && On(s, Submitted)
    case Begin => s.worker.Deciding? && On(s, Queued) && !s.store.paused
    case PassFence => s.worker.Cleared? && s.signer !in s.store.fencedKeys
    case Attempt(_) => s.worker.Ready?
    case Sign(_, _) => s.worker.Attempting? && s.signer == s.worker.account && s.worker.id in s.store.requests
    case SignMismatch => s.worker.Attempting? && s.signer != s.worker.account
    case Retry => s.worker.Stuck? || s.worker.Replacing? || s.worker.Cleared? || s.worker.Ready? || s.worker.Attempting?
    case FailEarly(_, _) => s.worker.Cleared? || s.worker.Ready? || s.worker.Attempting?
    case Journal(_) => s.worker.Signed? && s.worker.id in s.store.requests
    case SendOk => s.worker.Journaled?
    case SendFailed(_) => s.worker.Journaled?
    case WaitPaid(_, _) => s.worker.Waiting? && s.chain.Paid(s.worker.tx)
    case WaitReverted(_) => s.worker.Waiting? && s.chain.Reverted(s.worker.tx)
    case WaitOver => s.worker.Waiting?
    case FailMarked(_, _, _) => (s.worker.Journaled? && !s.worker.replacement) || s.worker.Waiting?
  }

  /** The journal entry a worker step writes, if any. */
  function WorkerEvent(s: State, step: WorkerStep): Option<Event>
    requires WorkerEnabled(s, step)
  {
    match step
    case ReceiptPaid(at, block) =>
      Some(Event(at, TxConfirmed(s.worker.id, s.store.requests[s.worker.id].hash.value, block)))
    case ReceiptReverted(at) => Some(Event(at, TxFailed(s.worker.id, "funding transaction reverted")))
    case FailEarly(reason, at) => Some(Event(at, TxFailed(s.worker.id, reason)))
    case Journal(at) =>
      Some(Event(at, TxSubmitted(s.worker.id, s.worker.tx, s.worker.tx.nonce,
        if s.worker.replacement then s.store.requests[s.worker.id].signer else s.worker.tx.signer)))
    case WaitPaid(at, block) => Some(Event(at, TxConfirmed(s.worker.id, s.worker.tx, block)))
    case WaitReverted(at) => Some(Event(at, TxFailed(s.worker.id, "funding transaction reverted")))
    case FailMarked(reason, _, at) => Some(Event(at, TxFailed(s.worker.id, reason)))
    case _ => None
  }

  /** Where the worker stands afterwards. */
  function WorkerNext(s: State, step: WorkerStep): Worker
    requires WorkerEnabled(s, step)
  {
    match step
    case Take => Deciding(s.queue[0])
    case ReceiptMissing(view) => Probing(s.worker.id, view)
    case NonceAhead(_) => Cleared(s.worker.id)
    case TimedOut(_) => Stuck(s.worker.id)
    case CheckReplacement => Replacing(s.worker.id)
    case SignReplacement(tip, feeCap) =>
      var r := s.store.requests[s.worker.id];
      Signed(s.worker.id, Tx(s.signer, r.nonce, r.address, r.amount, tip, feeCap), true)
    case Begin => Cleared(s.worker.id)
    case PassFence => Ready(s.worker.id)
    case Attempt(nonce) => Attempting(s.worker.id, s.signer, nonce)
    case Sign(tip, feeCap) =>
      var r := s.store.requests[s.worker.id];
      Signed(s.worker.id, Tx(s.signer, s.worker.nonce, r.address, r.amount, tip, feeCap), false)
    case Journal(_) => Journaled(s.worker.id, s.worker.tx, s.worker.replacement)
    case SendOk => if s.worker.replacement then Deciding(s.worker.id) else Waiting(s.worker.id, s.worker.tx)
    case NonceBehind(_) => Deciding(s.worker.id)
    case SignMismatch => Deciding(s.worker.id)
    case Retry => Deciding(s.worker.id)
    case SendFailed(_) => Deciding(s.worker.id)
    case WaitOver => Deciding(s.worker.id)
    case Finish => Idle
    case ReceiptPaid(_, _) => Idle
    case ReceiptReverted(_) => Idle
    case FailEarly(_, _) => Idle
    case WaitPaid(_, _) => Idle
    case WaitReverted(_) => Idle
    case FailMarked(_, _, _) => Idle
  }

  /** What reaches the network; an error reply leaves open whether the transaction got through. */
  function WorkerSends(s: State, step: WorkerStep): set<Tx>
    requires WorkerEnabled(s, step)
  {
    match step
    case SendOk => {s.worker.tx}
    case SendFailed(reached) => if reached then {s.worker.tx} else {}
    case FailMarked(_, reached, _) => if reached then {s.worker.tx} else {}
    case _ => {}
  }

  predicate Signs(step: WorkerStep) { step.SignReplacement? || step.Sign? || step.SignMismatch? }

  /** The hash a replacement entry removes from the store. */
  function Lost(s: State): set<Tx> {
    if s.worker.Signed? && s.worker.replacement && s.worker.id in s.store.requests &&
       s.store.requests[s.worker.id].hash.Some?
    then {s.store.requests[s.worker.id].hash.value} else {}
  }

  function WorkerAfter(s: State, step: WorkerStep): State
    requires WorkerEnabled(s, step)
  {
    var logged := match WorkerEvent(s, step) case None => s case Some(e) => s.Log(e);
    logged.(
      queue := if step.Take? then s.queue[1..] else s.queue,
      worker := WorkerNext(s, step),
      mempool := s.mempool + WorkerSends(s, step),
      txs := if step.Journal? then s.txs[s.worker.id := s.TxsOf(s.worker.id) + {s.worker.tx}] else s.txs,
      overwritten :=
        if step.Journal?
        then s.overwritten[s.worker.id := s.OverwrittenOf(s.worker.id) + Lost(s) - {s.worker.tx}]
        else s.overwritten,
      signatures := if Signs(step) then s.signatures + [Signature(s.signer, |s.journal|)] else s.signatures)
  }

  datatype Step = Server(server: ServerStep) | Network(network: ChainStep) | Life(life: LifeStep)
      | Work(work: WorkerStep)

  predicate Enabled(s: State, p: Profile, step: Step) {
    match step
    case Server(x) => ServerEnabled(s, p, x)
    case Network(x) => ChainEnabled(s, x)
    case Life(x) => LifeEnabled(s, p, x)
    case Work(x) => WorkerEnabled(s, x)
  }

  function After(s: State, p: Profile, step: Step): State
    requires Enabled(s, p, step)
  {
    match step
    case Server(x) => ServerAfter(s, p, x)
    case Network(x) => ChainAfter(s, x)
    case Life(x) => LifeAfter(s, p, x)
    case Work(x) => WorkerAfter(s, x)
  }

  /** A fresh deployment: empty journal, nothing broadcast, any account nonces. */
  predicate Init(s: State) {
    && s.journal == [] && s.store == EMPTY && s.phase == Down
    && s.queue == [] && s.awaiting == {} && s.rotating == multiset{} && s.worker == Idle
    && s.chain.landed == [] && s.mempool == {}
    && s.txs == map[] && s.overwritten == map[] && s.signatures == []
  }

  /** A run: the states visited and the steps between them. */
  datatype Run = Run(states: seq<State>, steps: seq<Step>)
  {
    ghost predicate Valid(p: Profile) {
      && |states| == |steps| + 1
      && Init(states[0])
      && forall i :: 0 <= i < |steps| ==>
           Enabled(states[i], p, steps[i]) && states[i + 1] == After(states[i], p, steps[i])
    }

    function Last(): State requires states != [] { states[|states| - 1] }
  }
}
