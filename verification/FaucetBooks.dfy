/**
 Budget conservation: as long as events follow the request lifecycle, the day's spent counter is
 exactly the sum of the reservations still held, and the clamp in `addSpent` never fires.
 */
module FaucetBooks {
  import opened FaucetEvents

  /** What the server and the worker guarantee about the event they append next. */
  predicate Lifecycle(s: StoreState, e: Event) {
    match e.payload
    case RequestAccepted(id, _, _, amount) => id != "" && id !in s.requests && 0 < amount
    case RequestDenied(id, _, _, _) => id != "" && id !in s.requests
    case TxSubmitted(id, _, _, _) => id in s.requests && s.requests[id].Pending()
    case TxConfirmed(id, _, _) => id in s.requests && s.requests[id].status == Submitted
    case TxFailed(id, _) => id in s.requests && s.requests[id].Pending()
    case Unrecognised(_) => false
    case _ => true
  }

  predicate Distinct<T(==)>(xs: seq<T>) {
    forall i, j :: 0 <= i < j < |xs| ==> xs[i] != xs[j]
  }

  function Held(requests: map<RequestId, Request>, id: RequestId, day: int): int {
    if id in requests && requests[id].Reserved() && BudgetDay(requests[id].createdAt) == day
    then requests[id].amount else 0
  }

  /** Amounts of the requests in `ids` created on `day`, accepted and not failed. */
  function Reserved(requests: map<RequestId, Request>, ids: seq<RequestId>, day: int): int {
    if ids == [] then 0
    else Reserved(requests, ids[..|ids| - 1], day) + Held(requests, ids[|ids| - 1], day)
  }

  /** The books balance: every request is listed once and the counters equal the reservations. */
  ghost predicate Balanced(s: StoreState) {
    && Distinct(s.order)
    && (forall id :: id in s.order <==> id in s.requests)
    && (forall id :: id in s.requests ==> id != "" && s.requests[id].id == id)
    && (forall id :: id in s.requests && s.requests[id].Reserved() ==> 0 < s.requests[id].amount)
    && (forall day: int :: s.SpentOn(day) == Reserved(s.requests, s.order, day))
  }

  lemma {:induction false} ReservedUnchanged(old_: map<RequestId, Request>, new_: map<RequestId, Request>,
      ids: seq<RequestId>, day: int)
    requires forall id :: id in ids ==> Held(old_, id, day) == Held(new_, id, day)
    ensures Reserved(old_, ids, day) == Reserved(new_, ids, day)
  {
    if ids == [] {
    } else {
      assert ids[|ids| - 1] in ids;
      ReservedUnchanged(old_, new_, ids[..|ids| - 1], day);
    }
  }

  /** Changing one listed request moves the sum by exactly that request's difference. */
  lemma {:induction false} ReservedMoves(old_: map<RequestId, Request>, new_: map<RequestId, Request>,
      ids: seq<RequestId>, changed: RequestId, day: int)
    requires Distinct(ids) && changed in ids
    requires forall id :: id in ids && id != changed ==> Held(old_, id, day) == Held(new_, id, day)
    ensures Reserved(new_, ids, day) == Reserved(old_, ids, day) - Held(old_, changed, day) + Held(new_, changed, day)
  {
    var front, last := ids[..|ids| - 1], ids[|ids| - 1];
    assert last in ids;
    if last == changed {
      assert forall id :: id in front ==> id in ids && id != changed;
      ReservedUnchanged(old_, new_, front, day);
    } else {
      assert changed in front;
      ReservedMoves(old_, new_, front, changed, day);
    }
  }

  /** No reservation is larger than the sum it is part of. */
  lemma {:induction false} HeldWithinReserved(requests: map<RequestId, Request>, ids: seq<RequestId>, id: RequestId,
      day: int)
    requires forall x :: x in requests && requests[x].Reserved() ==> 0 < requests[x].amount
    ensures 0 <= Reserved(requests, ids, day)
    ensures id in ids ==> Held(requests, id, day) <= Reserved(requests, ids, day)
  {
    if ids == [] {
    } else {
      HeldWithinReserved(requests, ids[..|ids| - 1], id, day);
      assert ids == ids[..|ids| - 1] + [ids[|ids| - 1]];
    }
  }

  lemma AppendKeepsDistinct(ids: seq<RequestId>, id: RequestId)
    requires Distinct(ids) && id !in ids
    ensures Distinct(ids + [id])
  {
  }

  /** The new request's id is listed last and adds exactly its own reservation. */
  lemma ListingAddsReservation(s: StoreState, t: StoreState, r: Request, day: int)
    requires r.id !in s.order
    requires t.requests == s.requests[r.id := r] && t.order == s.order + [r.id]
    ensures Reserved(t.requests, t.order, day) == Reserved(s.requests, s.order, day) + Held(t.requests, r.id, day)
  {
    assert t.order[..|s.order|] == s.order;
    ReservedUnchanged(s.requests, t.requests, s.order, day);
  }

  lemma ListingKeepsBalance(s: StoreState, t: StoreState, r: Request)
    requires Balanced(s) && r.id != "" && r.id !in s.requests && (r.Reserved() ==> 0 < r.amount)
    requires t.requests == s.requests[r.id := r] && t.order == s.order + [r.id]
    requires forall day: int :: t.SpentOn(day) == s.SpentOn(day) + Held(t.requests, r.id, day)
    ensures Balanced(t)
  {
    AppendKeepsDistinct(s.order, r.id);
    forall day: int ensures t.SpentOn(day) == Reserved(t.requests, t.order, day) {
      ListingAddsReservation(s, t, r, day);
    }
  }

  /** A status change of a known request keeps the list of requests as it is. */
  lemma UpdatedKeepsList(s: StoreState, t: StoreState, r: Request)
    requires Balanced(s) && r.id in s.requests
    requires t.requests == s.requests[r.id := r] && t.order == s.order
    ensures Distinct(t.order) && forall id :: id in t.order <==> id in t.requests
  {
  }

  lemma UpdatedMovesReserved(s: StoreState, t: StoreState, r: Request, day: int)
    requires Balanced(s) && r.id in s.requests
    requires t.requests == s.requests[r.id := r] && t.order == s.order
    ensures Reserved(t.requests, t.order, day) ==
            Reserved(s.requests, s.order, day) - Held(s.requests, r.id, day) + Held(t.requests, r.id, day)
  {
    ReservedMoves(s.requests, t.requests, s.order, r.id, day);
  }

  /** Conservation, one event: the books stay balanced and no counter is clamped. */
  lemma LifecycleKeepsBalance(s: StoreState, e: Event)
    requires Balanced(s) && Lifecycle(s, e)
    ensures Apply(s, e).Ok? && Balanced(Apply(s, e).value)
    ensures e.payload.TxFailed? ==>
              var r := s.requests[e.payload.requestId];
              s.SpentOn(BudgetDay(r.createdAt)) - r.amount >= 0
  {
    hide WithAccepted, WithDenied, WithSubmitted, WithConfirmed, WithFailed, Balanced;
    match e.payload {
      case RequestAccepted(_, _, _, _) => AcceptKeepsBalance(s, e);
      case RequestDenied(_, _, _, _) => DenyKeepsBalance(s, e);
      case TxSubmitted(_, _, _, _) => ProgressKeepsBalance(s, e);
      case TxConfirmed(_, _, _) => ProgressKeepsBalance(s, e);
      case TxFailed(_, _) => FailKeepsBalance(s, e);
      case Unrecognised(_) =>
      case _ => SameBooks(s, Apply(s, e).value);
    }
  }

  lemma SameBooks(s: StoreState, t: StoreState)
    requires Balanced(s) && t.requests == s.requests && t.order == s.order && t.spentByDay == s.spentByDay
    ensures Balanced(t)
  {
    assert forall day :: t.SpentOn(day) == s.SpentOn(day);
  }

  lemma ProgressKeepsBalance(s: StoreState, e: Event)
    requires Balanced(s) && Lifecycle(s, e) && (e.payload.TxSubmitted? || e.payload.TxConfirmed?)
    ensures Apply(s, e).Ok? && Balanced(Apply(s, e).value)
  {
    hide WithAccepted, WithDenied, WithFailed;
    UpdateKeepsBalance(s, Apply(s, e).value, Apply(s, e).value.requests[e.payload.requestId]);
  }

  lemma AcceptKeepsBalance(s: StoreState, e: Event)
    requires Balanced(s) && Lifecycle(s, e) && e.payload.RequestAccepted?
    ensures Apply(s, e).Ok? && Balanced(Apply(s, e).value)
  {
    var t, id := Apply(s, e).value, e.payload.requestId;
    HeldWithinReserved(s.requests, s.order, id, BudgetDay(e.at));
    ListingKeepsBalance(s, t, t.requests[id]);
  }

  lemma DenyKeepsBalance(s: StoreState, e: Event)
    requires Balanced(s) && Lifecycle(s, e) && e.payload.RequestDenied?
    ensures Apply(s, e).Ok? && Balanced(Apply(s, e).value)
  {
    var t, id := Apply(s, e).value, e.payload.requestId;
    ListingKeepsBalance(s, t, t.requests[id]);
  }

  /** A failure releases exactly the failed request's reservation. */
  lemma FailKeepsBalance(s: StoreState, e: Event)
    requires Balanced(s) && Lifecycle(s, e) && e.payload.TxFailed?
    ensures Apply(s, e).Ok? && Balanced(Apply(s, e).value)
    ensures var r := s.requests[e.payload.requestId];
            s.SpentOn(BudgetDay(r.createdAt)) - r.amount >= 0
  {
    hide BudgetDay, Reserved, WithAccepted, WithDenied, WithSubmitted, WithConfirmed;
    var t, id := Apply(s, e).value, e.payload.requestId;
    HeldWithinReserved(s.requests, s.order, id, BudgetDay(s.requests[id].createdAt));
    UpdatedKeepsList(s, t, t.requests[id]);
    forall day: int ensures t.SpentOn(day) == Reserved(t.requests, t.order, day) {
      UpdatedMovesReserved(s, t, t.requests[id], day);
    }
  }

  lemma UpdateKeepsBalance(s: StoreState, t: StoreState, r: Request)
    requires Balanced(s) && r.id in s.requests && s.requests[r.id].Reserved() && r.Reserved()
    requires r.amount == s.requests[r.id].amount && r.createdAt == s.requests[r.id].createdAt
    requires t == s.(requests := s.requests[r.id := r])
    ensures Balanced(t)
  {
    UpdatedKeepsList(s, t, r);
    forall day: int ensures t.SpentOn(day) == Reserved(t.requests, t.order, day) {
      UpdatedMovesReserved(s, t, r, day);
    }
  }

  /** Every event follows the lifecycle of the state its predecessors lead to. */
  ghost predicate LifecycleRun(events: seq<Event>) {
    forall i :: 0 <= i < |events| ==> Replay(events[..i]).Ok? && Lifecycle(Replay(events[..i]).value, events[i])
  }

  /** Conservation over whole journals. */
  lemma {:induction false} BudgetConservation(events: seq<Event>)
    requires LifecycleRun(events)
    ensures Replay(events).Ok? && Balanced(Replay(events).value)
  {
    if events == [] {
    } else {
      var n := |events| - 1;
      LifecycleRunPrefix(events, n);
      BudgetConservation(events[..n]);
      LifecycleKeepsBalance(Replay(events[..n]).value, events[n]);
    }
  }

  /** The clamp never fires: what a failure gives back was in the counter. */
  lemma ClampNeverFires(events: seq<Event>, k: nat)
    requires LifecycleRun(events) && k < |events| && events[k].payload.TxFailed?
    ensures Replay(events[..k]).Ok? && events[k].payload.requestId in Replay(events[..k]).value.requests
    ensures var s := Replay(events[..k]).value;
            var r := s.requests[events[k].payload.requestId];
            0 < r.amount <= s.SpentOn(BudgetDay(r.createdAt))
  {
    LifecycleRunPrefix(events, k);
    BudgetConservation(events[..k]);
    hide Replay, Reserved, Apply;
    var s := Replay(events[..k]).value;
    var id := events[k].payload.requestId;
    assert Lifecycle(s, events[k]);
    HeldWithinReserved(s.requests, s.order, id, BudgetDay(s.requests[id].createdAt));
  }

  predicate Final(status: Status) { status == Failed || status == Denied || status == Confirmed }

  lemma LifecycleKeepsFinal(s: StoreState, e: Event, id: RequestId)
    requires Lifecycle(s, e) && id in s.requests && Final(s.requests[id].status)
    ensures Apply(s, e).Ok? && id in Apply(s, e).value.requests
    ensures Apply(s, e).value.requests[id] == s.requests[id]
  {
    hide WithAccepted, WithDenied, WithSubmitted, WithConfirmed, WithFailed;
    match e.payload
    case RequestAccepted(other, key, address, amount) => AcceptedTouches(s, e.at, other, key, address, amount);
    case RequestDenied(other, address, amount, reason) => DeniedTouches(s, e.at, other, address, amount, reason);
    case TxSubmitted(other, hash, nonce, signer) => SubmittedTouches(s, e.at, other, hash, nonce, signer);
    case TxConfirmed(other, hash, blockNumber) => ConfirmedTouches(s, e.at, other, hash, blockNumber);
    case TxFailed(other, reason) => FailedTouches(s, e.at, other, reason);
    case _ =>
  }

  lemma LifecycleRunPrefix(events: seq<Event>, k: nat)
    requires LifecycleRun(events) && k <= |events|
    ensures LifecycleRun(events[..k])
  {
    forall i | 0 <= i < k
      ensures Replay(events[..k][..i]).Ok? && Lifecycle(Replay(events[..k][..i]).value, events[..k][i])
    {
      assert events[..k][..i] == events[..i];
    }
  }

  /** Failed, denied and confirmed are final: no later event changes such a request at all. */
  lemma {:induction false} TerminalStatesAreFinal(events: seq<Event>, k: nat, id: RequestId)
    requires LifecycleRun(events) && k <= |events|
    requires Replay(events[..k]).Ok? && id in Replay(events[..k]).value.requests
    requires Final(Replay(events[..k]).value.requests[id].status)
    ensures Replay(events).Ok? && id in Replay(events).value.requests
    ensures Replay(events).value.requests[id] == Replay(events[..k]).value.requests[id]
    decreases |events|
  {
    hide Apply, Replay, Lifecycle;
    if k == |events| {
      assert events[..k] == events;
    } else {
      var n := |events| - 1;
      assert events == events[..n] + [events[n]];
      ReplayAppend(events[..n], events[n]);
      LifecycleRunPrefix(events, n);
      assert events[..n][..k] == events[..k];
      TerminalStatesAreFinal(events[..n], k, id);
      LifecycleKeepsFinal(Replay(events[..n]).value, events[n], id);
    }
  }
}
