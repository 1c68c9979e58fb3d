/**
 The public faucet's persistent state as a fold over journal events: what one event does to the
 store (`Apply`), what a restart rebuilds (`Replay`), and what the accept decision reads (`Decide`).
 */
module FaucetEvents {
  import opened Basics

  /** Nanoseconds since Go's zero time, so that 0 is the instant `time.Time.IsZero` recognises. */
  type Time = int
  type Address = nat
  type RequestId = string

  const DAY_NANOS: int := 86_400 * SECOND
  const ZERO_TIME: Time := 0
  const ZERO_ADDRESS: Address := 0

  datatype Result<+T> = Ok(value: T) | Err(error: string)

  /** The UTC day an instant belongs to, as a day number. */
  function BudgetDay(at: Time): int { at / DAY_NANOS }

  /** A signed value transfer.  Hashing is collision free, so a transaction stands for its own hash. */
  datatype Tx = Tx(signer: Address, nonce: nat, to: Address, value: int, tip: nat, feeCap: nat)

  datatype Status = Queued | Submitted | Confirmed | Denied | Failed

  datatype Request = Request(
    id: RequestId, status: Status, address: Address, amount: int,
    createdAt: Time, updatedAt: Time, reason: string,
    hash: Option<Tx>, blockNumber: nat, nonce: nat, signer: Address)
  {
    /** Still owned by the server or the worker: `PendingRequests` returns exactly these. */
    predicate Pending() { status == Queued || status == Submitted }

    /** Still holds its budget reservation. */
    predicate Reserved() { status != Denied && status != Failed }
  }

  /** `IdempotencyKeyFor` before it is rendered; `ScopedKeys` shows the rendering is injective. */
  datatype ScopedKey = ScopedKey(address: Address, day: int, clientKey: string)

  datatype Payload =
    | RequestAccepted(requestId: RequestId, key: ScopedKey, address: Address, amount: int)
    | RequestDenied(requestId: RequestId, address: Address, amount: int, reason: string)
    | TxSubmitted(requestId: RequestId, hash: Tx, nonce: nat, signer: Address)
    | TxConfirmed(requestId: RequestId, hash: Tx, blockNumber: nat)
    | TxFailed(requestId: RequestId, reason: string)
    | ServicePaused(reason: string)
    | ServiceResumed
    | SignerRotated(oldSigner: Option<Address>, newSigner: Address)
    | RefillObserved(source: string, amount: int)
    | Unrecognised(kind: string)

  datatype Event = Event(at: Time, payload: Payload)

  datatype AddressState = AddressState(lastAccepted: Time, dailyCount: map<int, nat>)
  {
    function CountOn(day: int): nat { if day in dailyCount then dailyCount[day] else 0 }
  }

  const NO_HISTORY := AddressState(ZERO_TIME, map[])

  datatype StoreState = StoreState(
    requests: map<RequestId, Request>,
    order: seq<RequestId>,
    idempotency: map<ScopedKey, RequestId>,
    addresses: map<Address, AddressState>,
    spentByDay: map<int, int>,
    paused: bool,
    pauseReason: string,
    fencedKeys: map<Address, Time>,
    activeSigner: Address)
  {
    function AddressOf(a: Address): AddressState { if a in addresses then addresses[a] else NO_HISTORY }
    function SpentOn(day: int): int { if day in spentByDay then spentByDay[day] else 0 }
  }

  const EMPTY := StoreState(map[], [], map[], map[], map[], false, "", map[], ZERO_ADDRESS)

  datatype Profile = Profile(amount: int, cooldown: int, dailyCap: int, budget: int, queueCapacity: int)
  {
    predicate Valid() {
      0 < amount <= budget && 0 < cooldown && 0 < dailyCap && 0 < queueCapacity
    }
  }

  /** `addSpent`: adds and clamps at zero. */
  function AddSpent(spent: map<int, int>, day: int, amount: int): map<int, int> {
    var total := (if day in spent then spent[day] else 0) + amount;
    spent[day := if total < 0 then 0 else total]
  }

  function WithAccepted(s: StoreState, at: Time, id: RequestId, key: ScopedKey, address: Address, amount: int)
    : StoreState
  {
    var day := BudgetDay(at);
    var seen := s.AddressOf(address);
    s.(requests := s.requests[id := Request(id, Queued, address, amount, at, at, "", None, 0, 0, ZERO_ADDRESS)],
       order := s.order + [id],
       idempotency := s.idempotency[key := id],
       addresses := s.addresses[address := AddressState(at, seen.dailyCount[day := seen.CountOn(day) + 1])],
       spentByDay := AddSpent(s.spentByDay, day, amount))
  }

  function WithDenied(s: StoreState, at: Time, id: RequestId, address: Address, amount: int, reason: string)
    : StoreState
  {
    s.(requests := s.requests[id := Request(id, Denied, address, amount, at, at, reason, None, 0, 0, ZERO_ADDRESS)],
       order := s.order + [id])
  }

  function WithSubmitted(s: StoreState, at: Time, id: RequestId, hash: Tx, nonce: nat, signer: Address): StoreState
    requires id in s.requests
  {
    s.(requests := s.requests[id := s.requests[id].(
         status := Submitted, hash := Some(hash), nonce := nonce, signer := signer, updatedAt := at)])
  }

  function WithConfirmed(s: StoreState, at: Time, id: RequestId, hash: Tx, blockNumber: nat): StoreState
    requires id in s.requests
  {
    s.(requests := s.requests[id := s.requests[id].(
         status := Confirmed, hash := Some(hash), blockNumber := blockNumber, updatedAt := at)])
  }

  function WithFailed(s: StoreState, at: Time, id: RequestId, reason: string): StoreState
    requires id in s.requests
  {
    var request := s.requests[id];
    s.(requests := s.requests[id := request.(status := Failed, reason := reason, updatedAt := at)],
       spentByDay := AddSpent(s.spentByDay, BudgetDay(request.createdAt), -request.amount))
  }

  /** `applyEntry`: the effect of one journal event, or the error that aborts a replay. */
  function Apply(s: StoreState, e: Event): Result<StoreState> {
    match e.payload
    case RequestAccepted(id, key, address, amount) =>
      if id == "" then Err("accepted request entry is missing identifiers")
      else Ok(WithAccepted(s, e.at, id, key, address, amount))
    case RequestDenied(id, address, amount, reason) =>
      Ok(if id == "" then s else WithDenied(s, e.at, id, address, amount, reason))
    case TxSubmitted(id, hash, nonce, signer) =>
      if id !in s.requests then Err("submitted entry references unknown request")
      else Ok(WithSubmitted(s, e.at, id, hash, nonce, signer))
    case TxConfirmed(id, hash, blockNumber) =>
      if id !in s.requests then Err("confirmed entry references unknown request")
      else Ok(WithConfirmed(s, e.at, id, hash, blockNumber))
    case TxFailed(id, reason) =>
      if id !in s.requests then Err("failed entry references unknown request")
      else Ok(WithFailed(s, e.at, id, reason))
    case ServicePaused(reason) => Ok(s.(paused := true, pauseReason := reason))
    case ServiceResumed => Ok(s.(paused := false, pauseReason := ""))
    case SignerRotated(oldSigner, newSigner) =>
      Ok(s.(
        fencedKeys := if oldSigner.Some? then s.fencedKeys[oldSigner.value := e.at] else s.fencedKeys,
        activeSigner := newSigner))
    case RefillObserved(_, _) => Ok(s)
    case Unrecognised(_) => Err("unknown journal entry type")
  }

  /** Of the requests only one changes, which may be listed, and no key is fenced. */
  predicate Touches(s: StoreState, t: StoreState, id: RequestId) {
    && t.requests.Keys == s.requests.Keys + {id} && t.fencedKeys == s.fencedKeys
    && (t.order == s.order || t.order == s.order + [id])
    && (forall other :: other in s.requests && other != id ==> t.requests[other] == s.requests[other])
  }

  /** One request moves on, with its address, amount and creation kept. */
  predicate Moves(s: StoreState, t: StoreState, id: RequestId) {
    && id in s.requests && Touches(s, t, id) && t.idempotency == s.idempotency && t.addresses == s.addresses
    && t.requests[id].id == s.requests[id].id && t.requests[id].address == s.requests[id].address
    && t.requests[id].amount == s.requests[id].amount && t.requests[id].createdAt == s.requests[id].createdAt
  }

  lemma AcceptedTouches(s: StoreState, at: Time, id: RequestId, key: ScopedKey, address: Address, amount: int)
    ensures var t := WithAccepted(s, at, id, key, address, amount);
            Touches(s, t, id) && t.idempotency == s.idempotency[key := id]
  {
    hide AddSpent, BudgetDay;
  }

  lemma DeniedTouches(s: StoreState, at: Time, id: RequestId, address: Address, amount: int, reason: string)
    ensures var t := WithDenied(s, at, id, address, amount, reason);
            Touches(s, t, id) && t.idempotency == s.idempotency && t.addresses == s.addresses
  {
  }

  lemma SubmittedTouches(s: StoreState, at: Time, id: RequestId, hash: Tx, nonce: nat, signer: Address)
    requires id in s.requests
    ensures Moves(s, WithSubmitted(s, at, id, hash, nonce, signer), id)
  {
  }

  lemma ConfirmedTouches(s: StoreState, at: Time, id: RequestId, hash: Tx, blockNumber: nat)
    requires id in s.requests
    ensures Moves(s, WithConfirmed(s, at, id, hash, blockNumber), id)
  {
  }

  lemma FailedTouches(s: StoreState, at: Time, id: RequestId, reason: string)
    requires id in s.requests
    ensures Moves(s, WithFailed(s, at, id, reason), id)
  {
    hide AddSpent, BudgetDay;
  }

  /** `NewStore`: what a restart rebuilds from the journal. */
  function Replay(events: seq<Event>): Result<StoreState> {
    if events == [] then Ok(EMPTY)
    else
      var before := Replay(events[..|events| - 1]);
      if before.Err? then before else Apply(before.value, events[|events| - 1])
  }

  lemma ReplayAppend(events: seq<Event>, e: Event)
    ensures Replay(events + [e]) ==
            if Replay(events).Err? then Replay(events) else Apply(Replay(events).value, e)
  {
    assert (events + [e])[..|events|] == events;
  }

  datatype Decision =
    | Replayed(request: Request)
    | Broken(missing: RequestId)
    | Refused(reason: string, retryAfterSeconds: int)
    | Granted

  /** `int64(cooldownEnds.Sub(now)/time.Second) + 1`, with the subtraction saturating. */
  function RetryAfterSeconds(cooldownEnds: Time, now: Time): int
    requires now < cooldownEnds
  {
    (if cooldownEnds - now > MAX_DURATION then MAX_DURATION else cooldownEnds - now) / SECOND + 1
  }

  /** The accept decision: idempotency, pause, cooldown, daily cap and global budget, in that order. */
  function Decide(s: StoreState, p: Profile, clientKey: string, address: Address, at: Time): Decision {
    var key := ScopedKey(address, BudgetDay(at), clientKey);
    if key in s.idempotency then
      var id := s.idempotency[key];
      if id in s.requests then Replayed(s.requests[id]) else Broken(id)
    else if s.paused then Refused("service is paused", 0)
    else
      var seen := s.AddressOf(address);
      if seen.lastAccepted != ZERO_TIME && at < seen.lastAccepted + p.cooldown then
        Refused("address is in cooldown", RetryAfterSeconds(seen.lastAccepted + p.cooldown, at))
      else if seen.CountOn(BudgetDay(at)) >= p.dailyCap then
        Refused("address reached the daily request cap", 0)
      else if s.SpentOn(BudgetDay(at)) + p.amount > p.budget then
        Refused("global daily budget is exhausted", 0)
      else Granted
  }

  /** The event a granted request appends. */
  function Acceptance(p: Profile, clientKey: string, address: Address, at: Time, id: RequestId): Event {
    Event(at, RequestAccepted(id, ScopedKey(address, BudgetDay(at), clientKey), address, p.amount))
  }
}
