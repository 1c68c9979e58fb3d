/**
 The live store over its journal.  Every operation is proved against `Apply` and `Decide`, and the
 live state always answers like the state a restart would replay.
 */
module FaucetStore {
  import opened Basics
  import opened FaucetEvents
  import opened FaucetJournal
  import opened FaucetHistory
  import opened FaucetPending

  // ---------------------------------------------------------------- states that answer alike

  /** Equal up to address records without history, which a refused request leaves behind. */
  ghost predicate Same(s: StoreState, t: StoreState) {
    && s.requests == t.requests && s.order == t.order && s.idempotency == t.idempotency
    && s.spentByDay == t.spentByDay && s.paused == t.paused && s.pauseReason == t.pauseReason
    && s.fencedKeys == t.fencedKeys && s.activeSigner == t.activeSigner
    && forall a :: s.AddressOf(a) == t.AddressOf(a)
  }

  /** No question the store answers tells two such states apart. */
  lemma SameAnswers(s: StoreState, t: StoreState, p: Profile, clientKey: string, address: Address, at: Time)
    requires Same(s, t)
    ensures Decide(s, p, clientKey, address, at) == Decide(t, p, clientKey, address, at)
    ensures PendingIds(s) == PendingIds(t) && s.SpentOn(BudgetDay(at)) == t.SpentOn(BudgetDay(at))
  {
    assert s.AddressOf(address) == t.AddressOf(address);
  }

  /** The same event keeps them alike, or fails on both. */
  lemma SameApply(s: StoreState, t: StoreState, e: Event)
    requires Same(s, t)
    ensures Apply(s, e).Ok? <==> Apply(t, e).Ok?
    ensures Apply(s, e).Ok? ==> Same(Apply(s, e).value, Apply(t, e).value)
  {
    if e.payload.RequestAccepted? {
      SameAccept(s, t, e);
    } else {
      SameOther(s, t, e);
    }
  }

  lemma SameAccept(s: StoreState, t: StoreState, e: Event)
    requires Same(s, t) && e.payload.RequestAccepted?
    ensures Apply(s, e).Ok? <==> Apply(t, e).Ok?
    ensures Apply(s, e).Ok? ==> Same(Apply(s, e).value, Apply(t, e).value)
  {
    if e.payload.requestId != "" {
      var u, v := Apply(s, e).value, Apply(t, e).value;
      assert s.AddressOf(e.payload.address) == t.AddressOf(e.payload.address);
      forall a ensures u.AddressOf(a) == v.AddressOf(a) {
        assert s.AddressOf(a) == t.AddressOf(a);
      }
    }
  }

  lemma SameOther(s: StoreState, t: StoreState, e: Event)
    requires Same(s, t) && !e.payload.RequestAccepted?
    ensures Apply(s, e).Ok? <==> Apply(t, e).Ok?
    ensures Apply(s, e).Ok? ==> Same(Apply(s, e).value, Apply(t, e).value)
  {
    hide Apply;
    ExplainedIsApplicable(s, e);
    ExplainedIsApplicable(t, e);
    if Apply(s, e).Ok? {
      assert t == s.(addresses := t.addresses);
      OtherIgnoresAddresses(s, e, t.addresses);
      var u, v := Apply(s, e).value, Apply(t, e).value;
      forall a ensures u.AddressOf(a) == v.AddressOf(a) {
        assert s.AddressOf(a) == t.AddressOf(a);
      }
    }
  }

  /** Other events neither read nor write the address records. */
  predicate IgnoresAddresses(s: StoreState, e: Event, addresses: map<Address, AddressState>)
    requires Apply(s, e).Ok?
  {
    && Apply(s.(addresses := addresses), e) == Ok(Apply(s, e).value.(addresses := addresses))
    && Apply(s, e).value.addresses == s.addresses
  }

  lemma OtherIgnoresAddresses(s: StoreState, e: Event, addresses: map<Address, AddressState>)
    requires Apply(s, e).Ok? && !e.payload.RequestAccepted?
    ensures IgnoresAddresses(s, e, addresses)
  {
    hide Apply, IgnoresAddresses;
    if e.payload.RequestDenied? {
      DeniedIgnores(s, e, addresses);
    } else if e.payload.TxSubmitted? || e.payload.TxConfirmed? {
      UpdateIgnores(s, e, addresses);
    } else if e.payload.TxFailed? {
      FailedIgnores(s, e, addresses);
    } else {
      SwitchIgnores(s, e, addresses);
    }
  }

  lemma DeniedIgnores(s: StoreState, e: Event, addresses: map<Address, AddressState>)
    requires Apply(s, e).Ok? && e.payload.RequestDenied?
    ensures IgnoresAddresses(s, e, addresses)
  {
  }

  lemma UpdateIgnores(s: StoreState, e: Event, addresses: map<Address, AddressState>)
    requires Apply(s, e).Ok? && (e.payload.TxSubmitted? || e.payload.TxConfirmed?)
    ensures IgnoresAddresses(s, e, addresses)
  {
    if e.payload.TxSubmitted? {} else {}
  }

  lemma FailedIgnores(s: StoreState, e: Event, addresses: map<Address, AddressState>)
    requires Apply(s, e).Ok? && e.payload.TxFailed?
    ensures IgnoresAddresses(s, e, addresses)
  {
    hide AddSpent, BudgetDay;
  }

  lemma SwitchIgnores(s: StoreState, e: Event, addresses: map<Address, AddressState>)
    requires Apply(s, e).Ok?
    requires e.payload.ServicePaused? || e.payload.ServiceResumed? || e.payload.SignerRotated?
             || e.payload.RefillObserved? || e.payload.Unrecognised?
    ensures IgnoresAddresses(s, e, addresses)
  {
  }

  /** When an event can be applied: what a caller can check beforehand. */
  predicate Explained(s: StoreState, payload: Payload) {
    match payload
    case RequestAccepted(id, _, _, _) => id != ""
    case TxSubmitted(id, _, _, _) => id in s.requests
    case TxConfirmed(id, _, _) => id in s.requests
    case TxFailed(id, _) => id in s.requests
    case Unrecognised(_) => false
    case _ => true
  }

  // ---------------------------------------------------------------- the store

  datatype AcceptResult =
    | Accepted(request: Request)
    | Original(request: Request)
    | Denial(reason: string, retryAfterSeconds: int)
    | Failure(error: string)

  class Store {
    const journal: Journal
    const profile: Profile
    var requests: map<RequestId, Request>
    var order: seq<RequestId>
    var idempotency: map<ScopedKey, RequestId>
    var addresses: map<Address, AddressState>
    var spentByDay: map<int, int>
    var paused: bool
    var pauseReason: string
    var fencedKeys: map<Address, Time>
    var activeSigner: Address

    function Model(): StoreState
      reads this
    {
      StoreState(requests, order, idempotency, addresses, spentByDay, paused, pauseReason, fencedKeys, activeSigner)
    }

    /** The journal explains the live state, and every acceptance in it was granted. */
    ghost predicate Synced()
      reads this, journal
    {
      && journal.InStep()
      && Replay(journal.Events()).Ok? && Same(Model(), Replay(journal.Events()).value)
      && Produced(profile, journal.Events())
    }

    constructor (journal: Journal, profile: Profile)
      ensures this.journal == journal && this.profile == profile && Model() == EMPTY
    {
      this.journal, this.profile := journal, profile;
      requests, order, idempotency, addresses, spentByDay := map[], [], map[], map[], map[];
      paused, pauseReason, fencedKeys, activeSigner := false, "", map[], ZERO_ADDRESS;
    }

    /** `addressStateFor`: creates an empty record if there is none. */
    method AddressStateFor(address: Address) returns (state: AddressState)
      modifies this
      ensures state == old(Model()).AddressOf(address)
      ensures Model() == old(Model()).(addresses := old(addresses)[address := state])
    {
      if address !in addresses {
        addresses := addresses[address := NO_HISTORY];
      }
      state := addresses[address];
      assert addresses == old(addresses)[address := state];
    }

    /** `addSpent`. */
    method AddToSpent(day: int, amount: int)
      modifies this`spentByDay
      ensures spentByDay == AddSpent(old(spentByDay), day, amount)
    {
      if day !in spentByDay {
        spentByDay := spentByDay[day := 0];
      }
      spentByDay := spentByDay[day := spentByDay[day] + amount];
      if spentByDay[day] < 0 {
        spentByDay := spentByDay[day := 0];
      }
    }

    /** `applyEntry`, the accepted case. */
    method ApplyAccepted(at: Time, id: RequestId, key: ScopedKey, address: Address, amount: int) returns (ok: bool)
      modifies this
      ensures ok <==> id != ""
      ensures ok ==> Apply(old(Model()), Event(at, RequestAccepted(id, key, address, amount))) == Ok(Model())
      ensures !ok ==> Model() == old(Model())
    {
      if id == "" {
        return false;
      }
      requests := requests[id := Request(id, Queued, address, amount, at, at, "", None, 0, 0, ZERO_ADDRESS)];
      order := order + [id];
      idempotency := idempotency[key := id];
      var state := AddressStateFor(address);
      var day := BudgetDay(at);
      addresses := addresses[address := AddressState(at, state.dailyCount[day := state.CountOn(day) + 1])];
      assert addresses == old(addresses)[address := AddressState(at, state.dailyCount[day := state.CountOn(day) + 1])];
      AddToSpent(day, amount);
      return true;
    }

    /** `applyEntry`. */
    method ApplyEntry(e: Event) returns (ok: bool)
      modifies this
      ensures ok <==> Apply(old(Model()), e).Ok?
      ensures ok ==> Apply(old(Model()), e) == Ok(Model())
      ensures !ok ==> Model() == old(Model())
    {
      match e.payload
      case RequestAccepted(id, key, address, amount) =>
        ok := ApplyAccepted(e.at, id, key, address, amount);
      case RequestDenied(id, address, amount, reason) =>
        if id != "" {
          requests := requests[id :=
              Request(id, Denied, address, amount, e.at, e.at, reason, None, 0, 0, ZERO_ADDRESS)];
          order := order + [id];
        }
        ok := true;
      case TxSubmitted(id, hash, nonce, signer) =>
        ok := id in requests;
        if ok {
          var request := requests[id];
          requests := requests[id :=
              request.(status := Submitted, hash := Some(hash), signer := signer, updatedAt := e.at, nonce := nonce)];
        }
      case TxConfirmed(id, hash, blockNumber) =>
        ok := id in requests;
        if ok {
          var request := requests[id];
          requests := requests[id :=
              request.(status := Confirmed, hash := Some(hash), updatedAt := e.at, blockNumber := blockNumber)];
        }
      case TxFailed(id, reason) =>
        ok := id in requests;
        if ok {
          var request := requests[id];
          requests := requests[id := request.(status := Failed, reason := reason, updatedAt := e.at)];
          AddToSpent(BudgetDay(request.createdAt), -request.amount);
        }
      case ServicePaused(reason) =>
        paused, pauseReason, ok := true, reason, true;
      case ServiceResumed =>
        paused, pauseReason, ok := false, "", true;
      case SignerRotated(oldSigner, newSigner) =>
        if oldSigner.Some? {
          fencedKeys := fencedKeys[oldSigner.value := e.at];
        }
        activeSigner, ok := newSigner, true;
      case RefillObserved(_, _) =>
        ok := true;
      case Unrecognised(_) =>
        ok := false;
    }

    /** `transition`: journal first, then apply. */
    method Transition(e: Event, write: Write) returns (ok: bool)
      requires !e.payload.RequestAccepted?
      modifies this, journal
      ensures journal.Model() == old(journal.Model()).After(journal.codec, e, write)
      ensures ok <==> write.Durable? && Explained(old(Model()), e.payload)
      ensures ok ==> Apply(old(Model()), e) == Ok(Model())
      ensures !ok ==> Model() == old(Model())
      ensures old(Synced()) && write == Incomplete(0) ==> Synced()
      ensures old(Synced()) && write.Durable? ==> (Synced() <==> Explained(old(Model()), e.payload))
    {
      hide Apply, Produced;
      ghost var events := if journal.Aligned() then journal.Events() else [];
      ghost var before := Model();
      var entry := journal.Append(e, write);
      ExplainedIsApplicable(before, e);
      if entry.Err? {
        return false;
      }
      ok := ApplyEntry(entry.value.event);
      if old(Synced()) {
        StepKeepsSync(profile, events, e, before, Model());
      }
    }

    /** `RecordRotation`: the zero address is never fenced. */
    method RecordRotation(oldSigner: Address, newSigner: Address, at: Time, write: Write) returns (ok: bool)
      modifies this, journal
      ensures ok <==> write.Durable?
      ensures ok ==> activeSigner == newSigner
      ensures ok ==> fencedKeys.Keys == old(fencedKeys.Keys) + (if oldSigner == ZERO_ADDRESS then {} else {oldSigner})
      ensures old(Synced()) && (write.Durable? || write == Incomplete(0)) ==> Synced()
    {
      var fenced := if oldSigner == ZERO_ADDRESS then None else Some(oldSigner);
      ok := Transition(Event(at, SignerRotated(fenced, newSigner)), write);
    }

    /** `FindReplay`. */
    method FindReplay(clientKey: string, address: Address, at: Time) returns (r: Option<Request>)
      ensures var d := Decide(Model(), profile, clientKey, address, at);
              r == if d.Replayed? then Some(d.request) else None
    {
      var key := ScopedKey(address, BudgetDay(at), clientKey);
      if key !in idempotency || idempotency[key] !in requests {
        return None;
      }
      return Some(requests[idempotency[key]]);
    }

    /** `Accept`. */
    method Accept(clientKey: string, address: Address, at: Time, requestId: RequestId, write: Write)
      returns (r: AcceptResult)
      modifies this, journal
      ensures var d := old(Decide(Model(), profile, clientKey, address, at));
              match d
              case Replayed(request) => r == Original(request)
              case Broken(_) => r.Failure?
              case Refused(reason, seconds) => r == Denial(reason, seconds)
              case Granted =>
                if write.Durable? && requestId != "" then
                  && requestId in requests && r == Accepted(requests[requestId])
                  && exists base :: Same(base, old(Model()))
                       && Apply(base, Acceptance(profile, clientKey, address, at, requestId)) == Ok(Model())
                else r.Failure?
      ensures journal.Model() ==
              if old(Decide(Model(), profile, clientKey, address, at)).Granted?
              then old(journal.Model()).After(journal.codec, Acceptance(profile, clientKey, address, at, requestId),
                  write)
              else old(journal.Model())
      ensures !r.Accepted? ==> Same(Model(), old(Model()))
      ensures old(Synced()) && !old(Decide(Model(), profile, clientKey, address, at)).Granted? ==> Synced()
      ensures old(Synced()) && write == Incomplete(0) ==> Synced()
      ensures old(Synced()) && write.Durable? && old(Decide(Model(), profile, clientKey, address, at)).Granted? ==>
                (Synced() <==> requestId != "")
    {
      hide Apply, Replay, Produced, Decide;
      ghost var events := if journal.Aligned() then journal.Events() else [];
      ghost var before := Model();
      var answer := Refuse(clientKey, address, at);
      if answer.Some? {
        return answer.value;
      }
      r := Grant(clientKey, address, at, requestId, write, before, events);
    }

    /** The checks of `Accept`, in order; an address is given its record on the way. */
    method Refuse(clientKey: string, address: Address, at: Time) returns (answer: Option<AcceptResult>)
      modifies this
      ensures Same(Model(), old(Model()))
      ensures match old(Decide(Model(), profile, clientKey, address, at))
              case Replayed(request) => answer == Some(Original(request))
              case Broken(_) => answer.Some? && answer.value.Failure?
              case Refused(reason, seconds) => answer == Some(Denial(reason, seconds))
              case Granted => answer == None
    {
      ghost var before := Model();
      var key := ScopedKey(address, BudgetDay(at), clientKey);
      if key in idempotency {
        if idempotency[key] !in requests {
          return Some(Failure("idempotency index references unknown request"));
        }
        return Some(Original(requests[idempotency[key]]));
      }
      if paused {
        return Some(Denial("service is paused", 0));
      }
      var day := BudgetDay(at);
      var state := AddressStateFor(address);
      assert Same(Model(), before);
      if state.lastAccepted != ZERO_TIME {
        var cooldownEnds := state.lastAccepted + profile.cooldown;
        if at < cooldownEnds {
          return Some(Denial("address is in cooldown", RetryAfterSeconds(cooldownEnds, at)));
        }
      }
      if state.CountOn(day) >= profile.dailyCap {
        return Some(Denial("address reached the daily request cap", 0));
      }
      var spent := if day in spentByDay then spentByDay[day] else 0;
      if spent + profile.amount > profile.budget {
        return Some(Denial("global daily budget is exhausted", 0));
      }
      return None;
    }

    /** The end of `Accept`: the durable entry, its application, and the snapshot. */
    method Grant(clientKey: string, address: Address, at: Time, requestId: RequestId, write: Write,
                 ghost before: StoreState, ghost events: seq<Event>) returns (r: AcceptResult)
      requires Same(Model(), before) && Decide(before, profile, clientKey, address, at) == Granted
      requires journal.Aligned() ==> events == journal.Events()
      modifies this, journal
      ensures journal.Model() ==
                old(journal.Model()).After(journal.codec, Acceptance(profile, clientKey, address, at, requestId), write)
      ensures if write.Durable? && requestId != "" then
                && requestId in requests && r == Accepted(requests[requestId])
                && Apply(old(Model()), Acceptance(profile, clientKey, address, at, requestId)) == Ok(Model())
              else r.Failure? && Model() == old(Model())
      ensures old(Synced()) && write == Incomplete(0) ==> Synced()
      ensures old(Synced()) && write.Durable? ==> (Synced() <==> requestId != "")
    {
      hide Apply, Replay, Produced, Decide;
      var e := Acceptance(profile, clientKey, address, at, requestId);
      ghost var base := Model();
      var entry := journal.Append(e, write);
      if entry.Err? {
        return Failure("append journal entry");
      }
      ExplainedIsApplicable(base, e);
      var ok := ApplyEntry(entry.value.event);
      if old(Synced()) {
        SameAnswers(base, before, profile, clientKey, address, at);
        SameAnswers(base, Replay(events).value, profile, clientKey, address, at);
        GrantIsProduced(profile, events, clientKey, address, at, requestId);
        StepKeepsSync(profile, events, e, base, Model());
      }
      if !ok {
        return Failure("accepted request entry is missing identifiers");
      }
      AcceptedIsListed(base, e, Model());
      return Accepted(requests[requestId]);
    }

    /** `PendingRequests`: the loop, then the stable sort by creation time. */
    method PendingRequests() returns (pending: seq<Request>)
      requires forall id :: id in order ==> id in requests
      ensures var ids := PendingIds(Model());
              |pending| == |ids| && forall i :: 0 <= i < |ids| ==> ids[i] in requests && pending[i] == requests[ids[i]]
    {
      var ids: seq<RequestId> := [];
      var n := 0;
      while n < |order|
        invariant 0 <= n <= |order| && ids == PendingOf(requests, order[..n])
      {
        assert order[..n + 1][..n] == order[..n];
        var request := requests[order[n]];
        if request.status == Queued || request.status == Submitted {
          ids := ids + [order[n]];
        }
        n := n + 1;
      }
      assert order[..n] == order;
      var sorted := SortByCreated(requests, ids);
      forall id | id in sorted ensures id in requests {
        assert id in multiset(sorted);
        PendingIsKnown(requests, order, id);
      }
      var known := requests;
      pending := seq(|sorted|, i requires 0 <= i < |sorted| && sorted[i] in known => known[sorted[i]]);
    }
  }

  lemma {:induction false} PendingIsKnown(requests: map<RequestId, Request>, ids: seq<RequestId>, id: RequestId)
    requires id in PendingOf(requests, ids)
    ensures id in requests && requests[id].Pending()
  {
    if ids == [] || id !in PendingOf(requests, ids[..|ids| - 1]) {
    } else {
      PendingIsKnown(requests, ids[..|ids| - 1], id);
    }
  }

  lemma ExplainedIsApplicable(s: StoreState, e: Event)
    ensures Apply(s, e).Ok? <==> Explained(s, e.payload)
  {
  }

  lemma AcceptedIsListed(s: StoreState, e: Event, t: StoreState)
    requires e.payload.RequestAccepted? && Apply(s, e) == Ok(t)
    ensures e.payload.requestId in t.requests
  {
  }

  /** A granted acceptance extends a produced journal. */
  lemma GrantIsProduced(p: Profile, events: seq<Event>, clientKey: string, address: Address, at: Time, id: RequestId)
    requires Produced(p, events) && Replay(events).Ok?
             && Decide(Replay(events).value, p, clientKey, address, at) == Granted
    ensures Produced(p, events + [Acceptance(p, clientKey, address, at, id)])
  {
    hide Replay, Decide;
    var e := Acceptance(p, clientKey, address, at, id);
    assert (events + [e])[..|events|] == events;
    assert GrantedAt(p, events + [e], |events|);
    ProducedAppend(p, events, e);
  }

  /** Journal and live state stay in step exactly if the event could be applied. */
  lemma StepKeepsSync(p: Profile, events: seq<Event>, e: Event, before: StoreState, after: StoreState)
    requires Replay(events).Ok? && Same(before, Replay(events).value) && Produced(p, events)
    requires if Apply(before, e).Ok? then Apply(before, e) == Ok(after) else after == before
    requires e.payload.RequestAccepted? ==> Produced(p, events + [e])
    ensures Apply(before, e).Ok? ==> Produced(p, events + [e])
    ensures Apply(before, e).Ok? <==> Replay(events + [e]).Ok?
    ensures Apply(before, e).Ok? ==> Same(after, Replay(events + [e]).value)
  {
    hide Apply, Replay, Produced;
    ReplayAppend(events, e);
    SameApply(before, Replay(events).value, e);
    if !e.payload.RequestAccepted? {
      ProducedAppend(p, events, e);
    }
  }

  // ---------------------------------------------------------------- restart

  lemma ReplayNothing(events: seq<Event>)
    ensures Replay(events[..0]) == Ok(EMPTY)
  {
  }

  /** What `PendingRequests` relies on. */
  lemma {:induction false} ListedIsKnown(events: seq<Event>, id: RequestId)
    requires Replay(events).Ok? && id in Replay(events).value.order
    ensures id in Replay(events).value.requests
  {
    hide Apply;
    if events == [] {
    } else {
      var n := |events| - 1;
      assert events[..n + 1] == events;
      ReplayStep(events, n);
      var s := Replay(events[..n]).value;
      ApplyOrder(s, events[n]);
      ApplyIndex(s, events[n]);
      if id in s.order {
        ListedIsKnown(events[..n], id);
      }
    }
  }

  lemma ApplyOrder(s: StoreState, e: Event)
    requires Apply(s, e).Ok?
    ensures forall id :: id in Apply(s, e).value.order ==> id in s.order || id in Apply(s, e).value.requests
  {
    hide WithAccepted, WithDenied, WithSubmitted, WithConfirmed, WithFailed;
    match e.payload
    case RequestAccepted(id, key, address, amount) => AcceptedTouches(s, e.at, id, key, address, amount);
    case RequestDenied(id, address, amount, reason) => DeniedTouches(s, e.at, id, address, amount, reason);
    case TxSubmitted(id, hash, nonce, signer) => SubmittedTouches(s, e.at, id, hash, nonce, signer);
    case TxConfirmed(id, hash, blockNumber) => ConfirmedTouches(s, e.at, id, hash, blockNumber);
    case TxFailed(id, reason) => FailedTouches(s, e.at, id, reason);
    case _ =>
  }

  /** `NewStore`: succeeds exactly when the journal replays, with exactly the replayed state. */
  method NewStore(journal: Journal, entries: seq<Entry>, profile: Profile) returns (r: Option<Store>)
    requires journal.Aligned() && entries == Entries(journal.file)
    ensures r.Some? <==> Replay(journal.Events()).Ok?
    ensures r.Some? ==> fresh(r.value) && r.value.journal == journal && r.value.profile == profile
    ensures r.Some? ==> Ok(r.value.Model()) == Replay(journal.Events())
  {
    hide Apply, Replay, Chained;
    var store := new Store(journal, profile);
    ghost var events := journal.Events();
    ReplayNothing(events);
    var i := 0;
    while i < |entries|
      invariant 0 <= i <= |entries| && fresh(store) && journal.Aligned() && journal.Events() == events
      invariant Replay(events[..i]) == Ok(store.Model())
    {
      assert events[..i + 1] == events[..i] + [events[i]];
      ReplayAppend(events[..i], events[i]);
      var ok := store.ApplyEntry(entries[i].event);
      if !ok {
        assert events == events[..i + 1] + events[i + 1..];
        FailureIsForever(events[..i + 1], events[i + 1..]);
        return None;
      }
      i := i + 1;
    }
    assert events[..i] == events;
    return Some(store);
  }

  /**
   A restart changes no answer: from the file of a store in step, the rebuilt store is the same up
   to records without history, provided every line can be read.
   */
  method Restart(live: Store) returns (r: Option<Store>)
    requires live.Synced()
    ensures r.Some? <==> AllFit(live.journal.file)
    ensures r.Some? ==> fresh(r.value) && r.value.Synced() && Same(live.Model(), r.value.Model())
    ensures r.Some? ==> r.value.journal.file == live.journal.file
  {
    hide Replay, Produced, Same;
    var journal, entries := OpenJournal(live.journal.codec, live.journal.file, live.journal.terminated);
    if journal.None? {
      return None;
    }
    r := NewStore(journal.value, entries, live.profile);
    ReplayedIsSame(r.value.Model());
    return r;
  }

  lemma ReplayedIsSame(s: StoreState)
    ensures Same(s, s)
  {
  }

  /**
   An event for an unknown request is journaled before it is refused: from then on every restart
   fails, whatever is appended later.
   */
  lemma UnexplainedEventIsFatal(events: seq<Event>, e: Event, more: seq<Event>)
    requires Replay(events).Ok? && !Explained(Replay(events).value, e.payload)
    ensures Replay(events + [e] + more).Err?
  {
    hide Apply, Explained, Replay;
    ExplainedIsApplicable(Replay(events).value, e);
    ReplayAppend(events, e);
    FailureIsForever(events + [e], more);
  }

  // ---------------------------------------------------------------- whole runs

  datatype Operation =
    | AcceptCall(clientKey: string, address: Address, at: Time, id: RequestId)
    | RecordCall(event: Event)
    | RestartCall

  /** A running store: its memory and the events of its journal. */
  datatype Running = Running(memory: StoreState, journal: seq<Event>)

  /** An empty record is created on the way to every cooldown check. */
  function Touched(s: StoreState, clientKey: string, address: Address, at: Time): StoreState {
    if ScopedKey(address, BudgetDay(at), clientKey) in s.idempotency || s.paused then s
    else s.(addresses := s.addresses[address := s.AddressOf(address)])
  }

  function Journaled(s: StoreState, journal: seq<Event>, e: Event): Running {
    Running(if Apply(s, e).Ok? then Apply(s, e).value else s, journal + [e])
  }

  /** One operation with a durable write; a restart that fails leaves the old process running. */
  function Operate(p: Profile, r: Running, op: Operation): Running {
    match op
    case AcceptCall(clientKey, address, at, id) =>
      var touched := Touched(r.memory, clientKey, address, at);
      if Decide(r.memory, p, clientKey, address, at).Granted?
      then Journaled(touched, r.journal, Acceptance(p, clientKey, address, at, id))
      else r.(memory := touched)
    case RecordCall(e) => Journaled(r.memory, r.journal, e)
    case RestartCall => if Replay(r.journal).Ok? then r.(memory := Replay(r.journal).value) else r
  }

  function OperateAll(p: Profile, ops: seq<Operation>): Running {
    if ops == [] then Running(EMPTY, [])
    else Operate(p, OperateAll(p, ops[..|ops| - 1]), ops[|ops| - 1])
  }

  /** The operation names a fresh or a known request. */
  predicate Proper(r: Running, op: Operation) {
    match op
    case AcceptCall(_, _, _, id) => id != ""
    case RecordCall(e) => !e.payload.RequestAccepted? && Explained(r.memory, e.payload)
    case RestartCall => true
  }

  predicate ProperRun(p: Profile, ops: seq<Operation>) {
    forall k :: 0 <= k < |ops| ==> Proper(OperateAll(p, ops[..k]), ops[k])
  }

  ghost predicate Refines(p: Profile, r: Running) {
    Replay(r.journal).Ok? && Same(r.memory, Replay(r.journal).value) && Produced(p, r.journal)
  }

  /** Replay refinement: after every run of operations, memory answers like a replay of the journal. */
  lemma {:induction false} MemoryAnswersLikeReplay(p: Profile, ops: seq<Operation>)
    requires ProperRun(p, ops)
    ensures Refines(p, OperateAll(p, ops))
  {
    hide Operate, Proper, Refines;
    if ops == [] {
      StartRefines(p);
    } else {
      var n := |ops| - 1;
      forall k | 0 <= k < n ensures Proper(OperateAll(p, ops[..n][..k]), ops[..n][k]) {
        assert ops[..n][..k] == ops[..k];
      }
      MemoryAnswersLikeReplay(p, ops[..n]);
      OperateKeeps(p, OperateAll(p, ops[..n]), ops[n]);
    }
  }

  lemma StartRefines(p: Profile)
    ensures Refines(p, Running(EMPTY, []))
  {
  }

  lemma OperateKeeps(p: Profile, r: Running, op: Operation)
    requires Refines(p, r) && Proper(r, op)
    ensures Refines(p, Operate(p, r, op))
  {
    hide Apply, Replay, Produced, Decide, Same;
    match op
    case AcceptCall(clientKey, address, at, id) =>
      var touched := Touched(r.memory, clientKey, address, at);
      TouchedIsSame(r.memory, Replay(r.journal).value, clientKey, address, at);
      SameAnswers(r.memory, Replay(r.journal).value, p, clientKey, address, at);
      var e := Acceptance(p, clientKey, address, at, id);
      if Decide(r.memory, p, clientKey, address, at).Granted? {
        GrantIsProduced(p, r.journal, clientKey, address, at, id);
        JournaledKeeps(p, touched, r.journal, e);
      }
    case RecordCall(e) =>
      JournaledKeeps(p, r.memory, r.journal, e);
    case RestartCall =>
      ReplayedIsSame(Replay(r.journal).value);
  }

  lemma TouchedIsSame(s: StoreState, t: StoreState, clientKey: string, address: Address, at: Time)
    requires Same(s, t)
    ensures Same(Touched(s, clientKey, address, at), t)
  {
    var touched := Touched(s, clientKey, address, at);
    forall a ensures touched.AddressOf(a) == t.AddressOf(a) {
      assert s.AddressOf(a) == t.AddressOf(a);
    }
  }

  lemma JournaledKeeps(p: Profile, s: StoreState, journal: seq<Event>, e: Event)
    requires Replay(journal).Ok? && Same(s, Replay(journal).value) && Produced(p, journal) && Explained(s, e.payload)
    requires e.payload.RequestAccepted? ==> Produced(p, journal + [e])
    ensures Refines(p, Journaled(s, journal, e))
  {
    hide Apply, Replay, Produced, Explained, Same;
    ExplainedIsApplicable(s, e);
    StepKeepsSync(p, journal, e, s, Apply(s, e).value);
  }
}
