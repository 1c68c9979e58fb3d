/**
 What holds of every journal the store produces: one accepted entry per scoped key, cooldowns and
 daily caps per address, whatever the order of the timestamps.
 */
module FaucetHistory {
  import opened Basics
  import opened FaucetEvents

  /** Entry `k` is an acceptance that the accept decision granted in the state replayed before it. */
  ghost predicate GrantedAt(p: Profile, events: seq<Event>, k: nat)
    requires k < |events|
  {
    var before := Replay(events[..k]);
    && before.Ok?
    && exists clientKey, address, at, id ::
         events[k] == Acceptance(p, clientKey, address, at, id)
             && Decide(before.value, p, clientKey, address, at) == Granted
  }

  /** Every accepted entry was granted; other entries are free. */
  ghost predicate Produced(p: Profile, events: seq<Event>) {
    forall k :: 0 <= k < |events| && events[k].payload.RequestAccepted? ==> GrantedAt(p, events, k)
  }

  lemma ProducedPrefix(p: Profile, events: seq<Event>, n: nat)
    requires Produced(p, events) && n <= |events|
    ensures Produced(p, events[..n])
  {
    forall k | 0 <= k < n && events[k].payload.RequestAccepted? ensures GrantedAt(p, events[..n], k) {
      assert GrantedAt(p, events, k);
      assert events[..n][..k] == events[..k];
    }
  }

  lemma ProducedAppend(p: Profile, events: seq<Event>, e: Event)
    requires Produced(p, events) && (e.payload.RequestAccepted? ==> GrantedAt(p, events + [e], |events|))
    ensures Produced(p, events + [e])
  {
    var longer := events + [e];
    forall k | 0 <= k < |longer| && longer[k].payload.RequestAccepted? ensures GrantedAt(p, longer, k) {
      if k < |events| {
        assert GrantedAt(p, events, k);
        assert longer[..k] == events[..k];
      }
    }
  }

  // ---------------------------------------------------------------- replay, entry by entry

  lemma {:induction false} ReplayPrefix(events: seq<Event>, n: nat)
    requires Replay(events).Ok? && n <= |events|
    ensures Replay(events[..n]).Ok?
  {
    if n == |events| {
      assert events[..n] == events;
    } else {
      assert events[..|events| - 1][..n] == events[..n];
      ReplayPrefix(events[..|events| - 1], n);
    }
  }

  lemma ReplayStep(events: seq<Event>, n: nat)
    requires Replay(events).Ok? && n < |events|
    ensures Replay(events[..n]).Ok? && Replay(events[..n + 1]).Ok?
    ensures Apply(Replay(events[..n]).value, events[n]) == Replay(events[..n + 1])
  {
    hide Apply, Replay;
    ReplayPrefix(events, n);
    ReplayPrefix(events, n + 1);
    assert events[..n + 1] == events[..n] + [events[n]];
    ReplayAppend(events[..n], events[n]);
  }

  /** A journal that fails to replay fails forever. */
  lemma {:induction false} FailureIsForever(events: seq<Event>, more: seq<Event>)
    requires Replay(events).Err?
    ensures Replay(events + more).Err?
  {
    if more == [] {
      assert events + more == events;
    } else {
      assert (events + more)[..|events + more| - 1] == events + more[..|more| - 1];
      FailureIsForever(events, more[..|more| - 1]);
    }
  }

  // ---------------------------------------------------------------- idempotency

  /** Every scoped key in the index belongs to a request, and neither ever disappears. */
  predicate Indexed(s: StoreState) {
    forall key :: key in s.idempotency ==> s.idempotency[key] in s.requests
  }

  /** Only an acceptance adds to the index, and no request is ever dropped. */
  lemma ApplyIndex(s: StoreState, e: Event)
    requires Apply(s, e).Ok?
    ensures Apply(s, e).value.idempotency ==
            if e.payload.RequestAccepted? then s.idempotency[e.payload.key := e.payload.requestId] else s.idempotency
    ensures s.requests.Keys <= Apply(s, e).value.requests.Keys
    ensures e.payload.RequestAccepted? ==> e.payload.requestId in Apply(s, e).value.requests
  {
    hide WithAccepted, WithDenied, WithSubmitted, WithConfirmed, WithFailed;
    match e.payload
    case RequestAccepted(id, key, address, amount) => AcceptedTouches(s, e.at, id, key, address, amount);
    case RequestDenied(id, address, amount, reason) => DeniedTouches(s, e.at, id, address, amount, reason);
    case TxSubmitted(id, hash, nonce, signer) => SubmittedTouches(s, e.at, id, hash, nonce, signer);
    case TxConfirmed(id, hash, blockNumber) => ConfirmedTouches(s, e.at, id, hash, blockNumber);
    case TxFailed(id, reason) => FailedTouches(s, e.at, id, reason);
    case _ =>
  }

  lemma ApplyKeepsIndex(s: StoreState, e: Event)
    requires Apply(s, e).Ok? && Indexed(s)
    ensures Indexed(Apply(s, e).value)
    ensures forall key :: key in s.idempotency ==> key in Apply(s, e).value.idempotency
    ensures forall key :: key in s.idempotency && !(e.payload.RequestAccepted? && e.payload.key == key) ==>
              Apply(s, e).value.idempotency[key] == s.idempotency[key]
  {
    hide Apply;
    ApplyIndex(s, e);
  }

  lemma {:induction false} ReplayIsIndexed(events: seq<Event>)
    requires Replay(events).Ok?
    ensures Indexed(Replay(events).value)
  {
    if events == [] {
    } else {
      var n := |events| - 1;
      assert events[..n + 1] == events;
      ReplayStep(events, n);
      ReplayIsIndexed(events[..n]);
      ApplyKeepsIndex(Replay(events[..n]).value, events[n]);
    }
  }

  /** The index of a replay is exactly the set of keys accepted, each with the last id accepted for it. */
  lemma {:induction false} KeyStaysIndexed(p: Profile, events: seq<Event>, i: nat, n: nat)
    requires Produced(p, events) && Replay(events).Ok? && i < n <= |events| && events[i].payload.RequestAccepted?
    ensures Replay(events[..n]).Ok?
    ensures var s := Replay(events[..n]).value;
            events[i].payload.key in s.idempotency
                && s.idempotency[events[i].payload.key] == events[i].payload.requestId
    decreases n
  {
    hide Apply, Replay, Produced;
    var key := events[i].payload.key;
    ReplayStep(events, n - 1);
    ApplyIndex(Replay(events[..n - 1]).value, events[n - 1]);
    if n - 1 == i {
    } else {
      KeyStaysIndexed(p, events, i, n - 1);
      ReplayIsIndexed(events[..n - 1]);
      var s := Replay(events[..n - 1]).value;
      ApplyKeepsIndex(s, events[n - 1]);
      if events[n - 1].payload.RequestAccepted? && events[n - 1].payload.key == key {
        GrantedKeyIsNew(p, events, n - 1);
      }
    }
  }

  /** A granted key was not in the index. */
  lemma GrantedKeyIsNew(p: Profile, events: seq<Event>, k: nat)
    requires Produced(p, events) && k < |events| && events[k].payload.RequestAccepted?
    ensures Replay(events[..k]).Ok? && events[k].payload.key !in Replay(events[..k]).value.idempotency
  {
    assert GrantedAt(p, events, k);
  }

  /** At most one accepted entry per address, UTC day and client key. */
  lemma OneEntryPerKey(p: Profile, events: seq<Event>, i: nat, j: nat)
    requires Produced(p, events) && Replay(events).Ok? && i < j < |events|
    requires events[i].payload.RequestAccepted? && events[j].payload.RequestAccepted?
    ensures events[i].payload.key != events[j].payload.key
  {
    KeyStaysIndexed(p, events, i, j);
    GrantedKeyIsNew(p, events, j);
  }

  /** Every later call with an accepted key gets the request that entry created, and appends nothing. */
  lemma LaterCallsReplay(p: Profile, events: seq<Event>, i: nat, at: Time, clientKey: string, address: Address)
    requires Produced(p, events) && Replay(events).Ok? && i < |events| && events[i].payload.RequestAccepted?
    requires events[i].payload.key == ScopedKey(address, BudgetDay(at), clientKey)
    ensures var d := Decide(Replay(events).value, p, clientKey, address, at);
            var id := events[i].payload.requestId;
            id in Replay(events).value.requests && d == Replayed(Replay(events).value.requests[id])
  {
    KeyStaysIndexed(p, events, i, |events|);
    assert events[..|events|] == events;
    ReplayIsIndexed(events);
  }

  predicate Creates(e: Event, id: RequestId) {
    (e.payload.RequestAccepted? || e.payload.RequestDenied?) && e.payload.requestId == id
  }

  /** The identity of a request: what no transition changes. */
  predicate StillThe(s: StoreState, e: Event)
    requires e.payload.RequestAccepted?
  {
    var id := e.payload.requestId;
    && id in s.requests
    && var r := s.requests[id];
       r.id == id && r.address == e.payload.address && r.amount == e.payload.amount && r.createdAt == e.at
  }

  lemma ApplyKeepsRequest(s: StoreState, e: Event, creation: Event)
    requires creation.payload.RequestAccepted? && StillThe(s, creation) && Apply(s, e).Ok?
             && !Creates(e, creation.payload.requestId)
    ensures StillThe(Apply(s, e).value, creation)
  {
    hide WithAccepted, WithDenied, WithSubmitted, WithConfirmed, WithFailed;
    match e.payload
    case RequestAccepted(id, key, address, amount) => AcceptedTouches(s, e.at, id, key, address, amount);
    case RequestDenied(id, address, amount, reason) => DeniedTouches(s, e.at, id, address, amount, reason);
    case TxSubmitted(id, hash, nonce, signer) => SubmittedTouches(s, e.at, id, hash, nonce, signer);
    case TxConfirmed(id, hash, blockNumber) => ConfirmedTouches(s, e.at, id, hash, blockNumber);
    case TxFailed(id, reason) => FailedTouches(s, e.at, id, reason);
    case _ =>
  }

  /** A request keeps its address, amount and creation time as long as its identifier is not reused. */
  lemma {:induction false} RequestKeepsItsIdentity(events: seq<Event>, i: nat, n: nat)
    requires Replay(events).Ok? && i < n <= |events| && events[i].payload.RequestAccepted?
    requires forall k :: i < k < n ==> !Creates(events[k], events[i].payload.requestId)
    ensures Replay(events[..n]).Ok? && StillThe(Replay(events[..n]).value, events[i])
    decreases n
  {
    hide Replay;
    ReplayStep(events, n - 1);
    var s := Replay(events[..n - 1]).value;
    if n - 1 > i {
      hide Apply;
      RequestKeepsItsIdentity(events, i, n - 1);
      ApplyKeepsRequest(s, events[n - 1], events[i]);
    } else {
      assert Apply(s, events[i]).Ok?;
    }
  }

  // ---------------------------------------------------------------- address limits

  predicate AcceptedFor(e: Event, address: Address) { e.payload.RequestAccepted? && e.payload.address == address }

  /** When the address was last accepted, in journal order; the zero instant if never. */
  function LastAccepted(events: seq<Event>, address: Address): Time {
    if events == [] then ZERO_TIME
    else if AcceptedFor(events[|events| - 1], address) then events[|events| - 1].at
    else LastAccepted(events[..|events| - 1], address)
  }

  function AcceptedOn(events: seq<Event>, address: Address, day: int): nat {
    if events == [] then 0
    else
      var e := events[|events| - 1];
      AcceptedOn(events[..|events| - 1], address, day) +
      if AcceptedFor(e, address) && BudgetDay(e.at) == day then 1 else 0
  }

  /** The address records of a replay are what the journal says. */
  lemma {:induction false} AddressRecords(events: seq<Event>, address: Address, day: int)
    requires Replay(events).Ok?
    ensures Replay(events).value.AddressOf(address).lastAccepted == LastAccepted(events, address)
    ensures Replay(events).value.AddressOf(address).CountOn(day) == AcceptedOn(events, address, day)
  {
    if events == [] {
    } else {
      var n := |events| - 1;
      assert events[..n + 1] == events;
      ReplayStep(events, n);
      AddressRecords(events[..n], address, day);
      ApplyAddress(Replay(events[..n]).value, events[n], address, day);
    }
  }

  lemma ApplyAddress(s: StoreState, e: Event, address: Address, day: int)
    requires Apply(s, e).Ok?
    ensures var (before, now) := (s.AddressOf(address), Apply(s, e).value.AddressOf(address));
            if AcceptedFor(e, address)
            then now.lastAccepted == e.at
                && now.CountOn(day) == before.CountOn(day) + (if BudgetDay(e.at) == day then 1 else 0)
            else now == before
  {
    hide WithDenied, WithSubmitted, WithConfirmed, WithFailed, AddSpent, BudgetDay;
    match e.payload
    case RequestAccepted(_, _, _, _) =>
    case RequestDenied(id, other, amount, reason) => DeniedTouches(s, e.at, id, other, amount, reason);
    case TxSubmitted(id, hash, nonce, signer) => SubmittedTouches(s, e.at, id, hash, nonce, signer);
    case TxConfirmed(id, hash, blockNumber) => ConfirmedTouches(s, e.at, id, hash, blockNumber);
    case TxFailed(id, reason) => FailedTouches(s, e.at, id, reason);
    case _ =>
  }

  predicate InCooldown(d: Decision) { d.Refused? && d.reason == "address is in cooldown" }

  predicate FreshKey(s: StoreState, clientKey: string, address: Address, at: Time) {
    ScopedKey(address, BudgetDay(at), clientKey) !in s.idempotency
  }

  /** When the cooldown is what a call is refused for. */
  lemma CooldownRefusesExactly(s: StoreState, p: Profile, clientKey: string, address: Address, at: Time)
    ensures InCooldown(Decide(s, p, clientKey, address, at)) <==>
            var last := s.AddressOf(address).lastAccepted;
            FreshKey(s, clientKey, address, at) && !s.paused && last != ZERO_TIME && at < last + p.cooldown
  {
    assert "address is in cooldown"[0] != "service is paused"[0];
    assert "address is in cooldown"[8] != "address reached the daily request cap"[8];
    assert "address is in cooldown"[0] != "global daily budget is exhausted"[0];
  }

  /**
   The cooldown covers every reading before its end exactly if the last acceptance is not at the zero
   instant, which stands for no acceptance at all.
   */
  lemma CooldownHoldsExactlyOffZero(s: StoreState, p: Profile, clientKey: string, address: Address)
    requires p.cooldown > 0 && !s.paused && forall at :: FreshKey(s, clientKey, address, at)
    ensures (forall at :: at < s.AddressOf(address).lastAccepted + p.cooldown ==>
              InCooldown(Decide(s, p, clientKey, address, at)))
            <==> s.AddressOf(address).lastAccepted != ZERO_TIME
  {
    hide Decide, FreshKey;
    var last := s.AddressOf(address).lastAccepted;
    forall at
      ensures InCooldown(Decide(s, p, clientKey, address, at)) <==> last != ZERO_TIME && at < last + p.cooldown
    {
      assert FreshKey(s, clientKey, address, at);
      CooldownRefusesExactly(s, p, clientKey, address, at);
    }
    assert last == ZERO_TIME ==> !InCooldown(Decide(s, p, clientKey, address, last));
  }

  /** Every check but the cooldown lets the call pass. */
  predicate Room(s: StoreState, p: Profile, clientKey: string, address: Address, at: Time) {
    && FreshKey(s, clientKey, address, at) && !s.paused
    && s.AddressOf(address).CountOn(BudgetDay(at)) < p.dailyCap && s.SpentOn(BudgetDay(at)) + p.amount <= p.budget
  }

  /**
   The same for journals: where every other check passes, a reading before the end of the cooldown is
   accepted exactly if the last acceptance in the journal carries the zero instant, or there is none.
   */
  lemma EarlyReadingAcceptedExactlyAtZero(p: Profile, events: seq<Event>, clientKey: string, address: Address, at: Time)
    requires Replay(events).Ok? && Room(Replay(events).value, p, clientKey, address, at)
    requires at < LastAccepted(events, address) + p.cooldown
    ensures Decide(Replay(events).value, p, clientKey, address, at) == Granted <==>
              LastAccepted(events, address) == ZERO_TIME
  {
    hide Replay;
    AddressRecords(events, address, BudgetDay(at));
  }

  /** What a granted entry was compared with. */
  lemma GrantedLimits(p: Profile, events: seq<Event>, k: nat)
    requires Produced(p, events) && Replay(events).Ok? && k < |events| && events[k].payload.RequestAccepted?
    ensures var last := LastAccepted(events[..k], events[k].payload.address);
            last == ZERO_TIME || last + p.cooldown <= events[k].at
    ensures AcceptedOn(events[..k], events[k].payload.address, BudgetDay(events[k].at)) < p.dailyCap
  {
    assert GrantedAt(p, events, k);
    AddressRecords(events[..k], events[k].payload.address, BudgetDay(events[k].at));
  }

  /** From one entry up to another, no acceptance for the address carries the zero instant. */
  predicate NoneAtZero(events: seq<Event>, address: Address, i: nat, j: nat)
    requires j <= |events|
  {
    forall k :: i <= k < j && AcceptedFor(events[k], address) ==> events[k].at != ZERO_TIME
  }

  /**
   Cooldown over whole runs: two acceptances for one address are at least the cooldown apart, and in
   journal order, even if the clock readings of the calls were out of order.  Only an acceptance at
   the zero instant, the earlier of the two or one between them, can break this.
   */
  lemma {:induction false} AcceptancesAreSpaced(p: Profile, events: seq<Event>, address: Address, i: nat, j: nat)
    requires p.Valid() && Produced(p, events) && Replay(events).Ok?
    requires i < j < |events| && AcceptedFor(events[i], address) && AcceptedFor(events[j], address)
    requires NoneAtZero(events, address, i, j)
    ensures events[i].at + p.cooldown <= events[j].at
    decreases j
  {
    GrantedLimits(p, events, j);
    var k := PreviousAcceptance(events, address, i, j);
    assert events[k].at != ZERO_TIME;
    if k == i {
    } else {
      AcceptancesAreSpaced(p, events, address, i, k);
    }
  }

  /** The acceptance that `LastAccepted` reports before `n`, given that there is one. */
  lemma {:induction false} PreviousAcceptance(events: seq<Event>, address: Address, i: nat, n: nat) returns (k: nat)
    requires i < n <= |events| && AcceptedFor(events[i], address)
    ensures i <= k < n && AcceptedFor(events[k], address) && LastAccepted(events[..n], address) == events[k].at
    decreases n
  {
    assert events[..n][..n - 1] == events[..n - 1];
    if AcceptedFor(events[n - 1], address) {
      k := n - 1;
    } else {
      k := PreviousAcceptance(events, address, i, n - 1);
    }
  }

  /** Daily cap over whole runs. */
  lemma {:induction false} DailyCapHolds(p: Profile, events: seq<Event>, address: Address, day: int)
    requires p.Valid() && Produced(p, events) && Replay(events).Ok?
    ensures AcceptedOn(events, address, day) <= p.dailyCap
  {
    if events == [] {
    } else {
      var n := |events| - 1;
      ProducedPrefix(p, events, n);
      ReplayPrefix(events, n);
      DailyCapHolds(p, events[..n], address, day);
      if AcceptedFor(events[n], address) {
        GrantedLimits(p, events, n);
      }
    }
  }

  /**
   The zero instant is the one exception: an acceptance there is taken for no acceptance at all, and
   a second one may follow at once.
   */
  lemma ZeroInstantHasNoCooldown() returns (p: Profile, events: seq<Event>)
    ensures p.Valid() && Produced(p, events) && Replay(events).Ok? && |events| == 2
    ensures AcceptedFor(events[0], 1) && AcceptedFor(events[1], 1)
    ensures events[1].at < events[0].at + p.cooldown
  {
    hide Apply, Replay, Decide;
    p := Profile(1, 100, 2, 10, 1);
    var e, f := Acceptance(p, "a", 1, 0, "x"), Acceptance(p, "b", 1, 5, "y");
    events := [e, f];
    TwoAtOnce(p);
    assert [] + [e] == [e] && [e] + [f] == events;
    ReplayAppend([], e);
    ReplayAppend([e], f);
    assert events[..0] == [] && events[..1] == [e];
    assert GrantedAt(p, events, 0);
    assert GrantedAt(p, events, 1);
  }

  lemma TwoAtOnce(p: Profile)
    requires p == Profile(1, 100, 2, 10, 1)
    ensures Replay([]) == Ok(EMPTY) && Decide(EMPTY, p, "a", 1, 0) == Granted
    ensures var once := Apply(EMPTY, Acceptance(p, "a", 1, 0, "x"));
            once.Ok? && Decide(once.value, p, "b", 1, 5) == Granted
                && Apply(once.value, Acceptance(p, "b", 1, 5, "y")).Ok?
  {
  }

  /** The longest wait, in seconds, that a saturated cooldown answer can ask for. */
  const LONGEST_WAIT: int := MAX_DURATION / SECOND + 1

  /**
   Waiting as told clears the cooldown, exactly if its end is not more than the longest wait away, or
   the later call replays.  A cooldown is at most `MAX_DURATION`, so only a reading far before the last
   acceptance can miss.
   */
  lemma WaitingClearsCooldown(s: StoreState, p: Profile, clientKey: string, address: Address, at: Time, later: Time)
    requires var d := Decide(s, p, clientKey, address, at); InCooldown(d) && later == at + d.retryAfterSeconds * SECOND
    ensures InCooldown(Decide(s, p, clientKey, address, later)) <==>
            && s.AddressOf(address).lastAccepted + p.cooldown - at > LONGEST_WAIT * SECOND
            && FreshKey(s, clientKey, address, later)
    ensures s.AddressOf(address).lastAccepted <= at && p.cooldown <= MAX_DURATION ==>
              !InCooldown(Decide(s, p, clientKey, address, later))
  {
    var ends := s.AddressOf(address).lastAccepted + p.cooldown;
    CooldownRefusesExactly(s, p, clientKey, address, at);
    assert Decide(s, p, clientKey, address, at).retryAfterSeconds == RetryAfterSeconds(ends, at);
    hide Decide, FreshKey;
    CooldownRefusesExactly(s, p, clientKey, address, later);
    HintReaches(ends, at);
  }

  lemma HintReaches(ends: Time, at: Time)
    requires at < ends
    ensures at + RetryAfterSeconds(ends, at) * SECOND >= ends <==> ends - at <= LONGEST_WAIT * SECOND
  {
    var wait := if ends - at > MAX_DURATION then MAX_DURATION else ends - at;
    assert wait == (wait / SECOND) * SECOND + wait % SECOND;
  }

  /** A produced journal and a reading for which waiting as told is not enough. */
  lemma HintCanBeTooShort() returns (p: Profile, events: seq<Event>, at: Time)
    ensures p.Valid() && Produced(p, events) && Replay(events).Ok?
    ensures var s := Replay(events).value;
            var d := Decide(s, p, "b", 1, at);
            InCooldown(d) && InCooldown(Decide(s, p, "b", 1, at + d.retryAfterSeconds * SECOND))
  {
    hide *;
    p, at := Profile(1, 100, 2, 10, 1), 1;
    ValidExample(p);
    var e := Acceptance(p, "a", 1, 3 * MAX_DURATION, "x");
    events := [e];
    AcceptedFarAhead(p, e);
    OneAcceptance(p, "a", 1, 3 * MAX_DURATION, "x");
    FarAhead(p, Apply(EMPTY, e).value, at);
  }

  lemma ValidExample(p: Profile)
    requires p == Profile(1, 100, 2, 10, 1)
    ensures p.Valid() && p.cooldown == 100
  {
  }

  /** A journal of one granted acceptance. */
  lemma OneAcceptance(p: Profile, clientKey: string, address: Address, at: Time, id: RequestId)
    requires Replay([]) == Ok(EMPTY) && Decide(EMPTY, p, clientKey, address, at) == Granted
    ensures var e := Acceptance(p, clientKey, address, at, id); Produced(p, [e]) && Replay([e]) == Apply(EMPTY, e)
  {
    hide Apply, Replay, Decide;
    var e := Acceptance(p, clientKey, address, at, id);
    assert [] + [e] == [e] && [e][..0] == [];
    ReplayAppend([], e);
    assert GrantedAt(p, [e], 0);
  }

  lemma AcceptedFarAhead(p: Profile, e: Event)
    requires p == Profile(1, 100, 2, 10, 1) && e == Acceptance(p, "a", 1, 3 * MAX_DURATION, "x")
    ensures Replay([]) == Ok(EMPTY) && Decide(EMPTY, p, "a", 1, 3 * MAX_DURATION) == Granted && Apply(EMPTY, e).Ok?
    ensures var s := Apply(EMPTY, e).value;
            && !s.paused && s.AddressOf(1).lastAccepted == 3 * MAX_DURATION
            && forall key :: key in s.idempotency ==> key.clientKey == "a"
  {
    hide AddSpent;
  }

  lemma FarAhead(p: Profile, s: StoreState, at: Time)
    requires p.cooldown == 100 && at == 1 && !s.paused && s.AddressOf(1).lastAccepted == 3 * MAX_DURATION
    requires forall key :: key in s.idempotency ==> key.clientKey == "a"
    ensures var d := Decide(s, p, "b", 1, at);
            InCooldown(d) && InCooldown(Decide(s, p, "b", 1, at + d.retryAfterSeconds * SECOND))
  {
    CooldownRefusesExactly(s, p, "b", 1, at);
    var later := at + Decide(s, p, "b", 1, at).retryAfterSeconds * SECOND;
    WaitingClearsCooldown(s, p, "b", 1, at, later);
  }
}
