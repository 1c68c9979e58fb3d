/**
 The local faucet's per-address quota: a slice of funding records per address, compacted in place
 by every check, with a sliding window and a cooldown.
 */
module AddressWindow {
  import opened Basics

  type Address = nat

  datatype Record = Record(at: int, amount: int)

  datatype Policy = Policy(defaultAmount: int, minimumAmount: int, maximumPerRequest: int, maximumPerWindow: int,
                           window: int, cooldown: int)
  {
    /** `Validate`, the parts that bear on amounts and times. */
    predicate Valid() {
      && 0 < minimumAmount <= defaultAmount <= maximumPerRequest <= maximumPerWindow
      && 0 < cooldown < window
    }
  }

  /** `Panic` is the index expression `kept[0]` on an empty slice. */
  datatype Outcome = Fine | InCooldown(retryAfter: int) | OverQuota(retryAfter: int) | Panic

  // ---------------------------------------------------------------- what a check decides

  /** The records younger than the window's start, in order. */
  function Recent(records: seq<Record>, start: int): seq<Record> {
    if records == [] then [] else
      var front, last := Recent(records[..|records| - 1], start), records[|records| - 1];
      if last.at > start then front + [last] else front
  }

  function Sum(records: seq<Record>): int {
    if records == [] then 0 else Sum(records[..|records| - 1]) + records[|records| - 1].amount
  }

  /** `time.Time.Sub`. */
  function Sub(a: int, b: int): int { if a - b > MAX_DURATION then MAX_DURATION else a - b }

  function Verdict(kept: seq<Record>, amount: int, now: int, p: Policy): Outcome {
    if kept != [] && now < kept[|kept| - 1].at + p.cooldown then InCooldown(Sub(kept[|kept| - 1].at + p.cooldown, now))
    else if Sum(kept) + amount > p.maximumPerWindow then
      if kept == [] then Panic else OverQuota(Sub(kept[0].at + p.window, now))
    else Fine
  }

  lemma RecentSnoc(records: seq<Record>, r: Record, start: int)
    ensures Recent(records + [r], start) ==
            if r.at > start then Recent(records, start) + [r] else Recent(records, start)
    ensures Sum(records + [r]) == Sum(records) + r.amount
  {
    assert (records + [r])[..|records|] == records;
  }

  lemma {:induction false} RecentAreRecent(records: seq<Record>, start: int)
    ensures |Recent(records, start)| <= |records|
    ensures forall r :: r in Recent(records, start) <==> r in records && r.at > start
  {
    if records == [] {
    } else {
      RecentAreRecent(records[..|records| - 1], start);
      assert records == records[..|records| - 1] + [records[|records| - 1]];
    }
  }

  /** The index expression fails exactly when one request alone exceeds the window's maximum. */
  lemma PanicsExactly(kept: seq<Record>, amount: int, now: int, p: Policy)
    ensures Verdict(kept, amount, now, p).Panic? <==> kept == [] && amount > p.maximumPerWindow
    ensures p.Valid() && amount <= p.maximumPerRequest ==> !Verdict(kept, amount, now, p).Panic?
  {
  }

  /** A refusal always asks for a positive wait. */
  lemma RefusalsAskToWait(records: seq<Record>, amount: int, now: int, p: Policy)
    requires p.Valid()
    ensures match Verdict(Recent(records, now - p.window), amount, now, p)
            case InCooldown(wait) => wait > 0
            case OverQuota(wait) => wait > 0
            case _ => true
  {
    var kept := Recent(records, now - p.window);
    RecentAreRecent(records, now - p.window);
    if kept != [] {
      assert kept[0] in kept;
    }
  }

  // ---------------------------------------------------------------- in place

  /** A Go slice: a prefix of a backing array that may be shared with later appends. */
  datatype Slice = Slice(data: array<Record>, len: nat)

  /** The compaction loop of `checkLocked`: `kept` grows inside the array it reads from. */
  method Compact(data: array<Record>, len: nat, start: int) returns (kept: nat, total: int)
    requires len <= data.Length
    modifies data
    ensures kept <= len && data[..kept] == Recent(old(data[..len]), start) && total == Sum(data[..kept])
  {
    hide Recent, Sum;
    ghost var before := data[..len];
    NothingYet(start, 0, 0);
    kept, total := 0, 0;
    assert data[..0] == [] && before[..0] == [];
    var i := 0;
    while i < len
      invariant 0 <= kept <= i <= len
      invariant data[..kept] == Recent(before[..i], start) && total == Sum(data[..kept])
      invariant forall k :: i <= k < len ==> data[k] == before[k]
    {
      var record := data[i];
      assert before[..i + 1] == before[..i] + [record];
      RecentSnoc(before[..i], record, start);
      ghost var front := data[..kept];
      if record.at > start {
        data[kept] := record;
        kept := kept + 1;
        assert data[..kept] == front + [record];
        RecentSnoc(front, record, start);
        total := total + record.amount;
      }
      i := i + 1;
    }
    assert before[..i] == before;
  }

  class AddressLimiter {
    var records: map<Address, Slice>

    ghost function Arrays(): set<object>
      reads this
    {
      set a | a in records :: records[a].data
    }

    /** Slices lie inside their arrays, and no two addresses share an array. */
    ghost predicate Valid()
      reads this
    {
      && (forall a :: a in records ==> records[a].len <= records[a].data.Length)
      && (forall a, b :: a in records && b in records && a != b ==> records[a].data != records[b].data)
    }

    ghost function Held(a: Address): seq<Record>
      requires Valid()
      reads this, Arrays()
    {
      if a in records then
        assert records[a].data in Arrays();
        records[a].data[..records[a].len]
      else []
    }

    constructor ()
      ensures Valid() && records == map[] && fresh(Arrays())
    {
      records := map[];
    }

    /** The first half of `checkLocked`: prune the recipient's slice in place and add up the rest. */
    method Prune(recipient: Address, start: int) returns (total: int)
      requires Valid()
      modifies this, Arrays()
      ensures Valid() && fresh(Arrays() - old(Arrays())) && recipient in records
      ensures Held(recipient) == Recent(old(Held(recipient)), start) && total == Sum(Held(recipient))
      ensures forall a :: a != recipient ==> Held(a) == old(Held(a))
    {
      hide Recent, Sum;
      var slice: Slice;
      if recipient in records {
        slice := records[recipient];
      } else {
        var none := new Record[0];
        slice := Slice(none, 0);
      }
      assert slice.data[..slice.len] == old(Held(recipient));
      assert forall a :: a != recipient && a in records ==> records[a].data != slice.data;
      var kept: nat;
      kept, total := Compact(slice.data, slice.len, start);
      records := records[recipient := Slice(slice.data, kept)];
    }

    /** `checkLocked`. */
    method CheckLocked(recipient: Address, amount: int, now: int, p: Policy) returns (r: Outcome)
      requires Valid()
      modifies this, Arrays()
      ensures Valid() && fresh(Arrays() - old(Arrays())) && recipient in records
      ensures Held(recipient) == Recent(old(Held(recipient)), now - p.window)
      ensures forall a :: a != recipient ==> Held(a) == old(Held(a))
      ensures r == Verdict(Held(recipient), amount, now, p)
      ensures p.Valid() && (r.InCooldown? || r.OverQuota?) ==> r.retryAfter > 0
    {
      hide Recent, Sum;
      if p.Valid() {
        RefusalsAskToWait(Held(recipient), amount, now, p);
      }
      var total := Prune(recipient, now - p.window);
      var kept := records[recipient];
      if kept.len > 0 {
        var last := kept.data[kept.len - 1];
        var cooldownEnds := last.at + p.cooldown;
        if now < cooldownEnds {
          return InCooldown(Sub(cooldownEnds, now));
        }
      }
      if total + amount > p.maximumPerWindow {
        if kept.len == 0 {
          return Panic;
        }
        return OverQuota(Sub(kept.data[0].at + p.window, now));
      }
      return Fine;
    }

    /** `recordLocked`: append, into the spare capacity if there is any. */
    method RecordLocked(recipient: Address, amount: int, now: int)
      requires Valid()
      modifies this, Arrays()
      ensures Valid() && fresh(Arrays() - old(Arrays()))
      ensures Held(recipient) == old(Held(recipient)) + [Record(now, amount)]
      ensures forall a :: a != recipient ==> Held(a) == old(Held(a))
    {
      var record := Record(now, amount);
      if recipient in records && records[recipient].len < records[recipient].data.Length {
        var slice := records[recipient];
        slice.data[slice.len] := record;
        records := records[recipient := Slice(slice.data, slice.len + 1)];
        assert slice.data[..slice.len + 1] == old(slice.data[..slice.len]) + [record];
      } else {
        var data, len := Grow(recipient, record);
        records := records[recipient := Slice(data, len)];
      }
    }

    /** A larger array with the records of the old one and one more. */
    method Grow(recipient: Address, record: Record) returns (data: array<Record>, len: nat)
      requires Valid()
      ensures fresh(data) && len <= data.Length && data[..len] == Held(recipient) + [record]
    {
      ghost var held := Held(recipient);
      len := if recipient in records then records[recipient].len else 0;
      data := new Record[2 * len + 1](_ => record);
      var i := 0;
      while i < len
        invariant 0 <= i <= len && held == Held(recipient) && |held| == len
        invariant data[..i] == held[..i]
        invariant forall k :: i <= k < data.Length ==> data[k] == record
      {
        data[i] := records[recipient].data[i];
        assert data[i] == held[i];
        i := i + 1;
      }
      assert data[..len + 1] == held + [record];
      len := len + 1;
    }

    /** The locked part of `handleFund`; `funded` is whether the transaction was confirmed. */
    method Handle(call: Call, p: Policy) returns (r: Outcome)
      requires Valid()
      modifies this, Arrays()
      ensures Valid() && fresh(Arrays() - old(Arrays()))
      ensures Held(call.recipient) == Next(p, old(Held(call.recipient)), call)
      ensures forall a :: a != call.recipient ==> Held(a) == old(Held(a))
      ensures r == Verdict(Recent(old(Held(call.recipient)), call.now - p.window), call.amount, call.now, p)
    {
      r := CheckLocked(call.recipient, call.amount, call.now, p);
      if r.Fine? && call.funded {
        RecordLocked(call.recipient, call.amount, call.now);
      }
    }
  }

  // ---------------------------------------------------------------- runs

  datatype Call = Call(recipient: Address, amount: int, now: int, funded: bool)

  /** A call that ends in a confirmed funding. */
  predicate Confirms(p: Policy, held: seq<Record>, call: Call) {
    call.funded && Verdict(Recent(held, call.now - p.window), call.amount, call.now, p).Fine?
  }

  function Next(p: Policy, held: seq<Record>, call: Call): seq<Record> {
    var kept := Recent(held, call.now - p.window);
    if Confirms(p, held, call) then kept + [Record(call.now, call.amount)] else kept
  }

  /** What is stored for an address after a run of calls. */
  function Stored(p: Policy, calls: seq<Call>, a: Address): seq<Record> {
    if calls == [] then [] else
      var before, call := Stored(p, calls[..|calls| - 1], a), calls[|calls| - 1];
      if call.recipient == a then Next(p, before, call) else before
  }

  /** Everything confirmed for an address in a run of calls, never pruned. */
  function Confirmed(p: Policy, calls: seq<Call>, a: Address): seq<Record> {
    if calls == [] then [] else
      var log, call := Confirmed(p, calls[..|calls| - 1], a), calls[|calls| - 1];
      if call.recipient == a && Confirms(p, Stored(p, calls[..|calls| - 1], a), call)
      then log + [Record(call.now, call.amount)] else log
  }

  /** The readings of the calls for one address do not go back. */
  predicate Ordered(calls: seq<Call>, a: Address) {
    forall i, j :: 0 <= i < j < |calls| && calls[i].recipient == a == calls[j].recipient ==>
        calls[i].now <= calls[j].now
  }

  /** The amounts asked for one address passed the parser. */
  predicate Parsed(p: Policy, calls: seq<Call>, a: Address) {
    forall i :: 0 <= i < |calls| && calls[i].recipient == a ==> 0 < calls[i].amount <= p.maximumPerRequest
  }

  /** The records of a funding log in a window of the given length that ends at `t`. */
  function InWindow(log: seq<Record>, window: int, t: int): seq<Record> {
    if log == [] then [] else
      var front, last := InWindow(log[..|log| - 1], window, t), log[|log| - 1];
      if t - window < last.at <= t then front + [last] else front
  }

  lemma InWindowSnoc(log: seq<Record>, r: Record, window: int, t: int)
    ensures InWindow(log + [r], window, t) ==
            if t - window < r.at <= t then InWindow(log, window, t) + [r] else InWindow(log, window, t)
  {
    assert (log + [r])[..|log|] == log;
  }

  lemma NothingYet(start: int, window: int, t: int)
    ensures Sum([]) == 0 && Recent([], start) == [] && InWindow([], window, t) == []
  {
  }

  lemma {:induction false} RecentTwice(records: seq<Record>, s: int, t: int)
    requires s <= t
    ensures Recent(Recent(records, s), t) == Recent(records, t)
  {
    if records == [] {
    } else {
      var front, last := records[..|records| - 1], records[|records| - 1];
      RecentTwice(front, s, t);
      RecentSnoc(Recent(front, s), last, t);
    }
  }

  lemma {:induction false} NothingRecent(records: seq<Record>, start: int)
    requires forall r :: r in records ==> r.at <= start
    ensures Recent(records, start) == []
  {
    if records == [] {
    } else {
      var front := records[..|records| - 1];
      forall r | r in front ensures r.at <= start {
        assert r in records;
      }
      NothingRecent(front, start);
      assert records[|records| - 1] in records;
    }
  }

  /** Pruning loses nothing that still counts: the store is the log restricted to the last window. */
  ghost predicate Faithful(p: Policy, calls: seq<Call>, a: Address, now: int) {
    && (forall start :: start >= now - p.window ==>
         Recent(Stored(p, calls, a), start) == Recent(Confirmed(p, calls, a), start))
    && (forall r :: r in Confirmed(p, calls, a) ==> r.at <= now && r.amount > 0)
  }

  lemma {:induction false} PruningLosesNothing(p: Policy, calls: seq<Call>, a: Address, now: int)
    requires p.Valid() && Ordered(calls, a) && Parsed(p, calls, a)
    requires forall i :: 0 <= i < |calls| && calls[i].recipient == a ==> calls[i].now <= now
    ensures Faithful(p, calls, a, now)
  {
    hide Verdict;
    if calls == [] {
    } else {
      var n := |calls| - 1;
      var call, before := calls[n], calls[..n];
      if call.recipient == a {
        PruningLosesNothing(p, before, a, call.now);
        NextIsFaithful(p, before, a, call, now);
        assert calls == before + [call];
      } else {
        PruningLosesNothing(p, before, a, now);
      }
    }
  }

  lemma NextIsFaithful(p: Policy, before: seq<Call>, a: Address, call: Call, now: int)
    requires p.Valid() && Faithful(p, before, a, call.now) && call.now <= now && call.recipient == a && call.amount > 0
    ensures Faithful(p, before + [call], a, now)
  {
    hide Verdict, Recent, Stored, Confirmed;
    var calls := before + [call];
    RunSnoc(p, before, call, a);
    var held, log := Stored(p, before, a), Confirmed(p, before, a);
    assert log + [] == log;
    var kept := Recent(held, call.now - p.window);
    var record := Record(call.now, call.amount);
    forall start | start >= now - p.window
      ensures Recent(Stored(p, calls, a), start) == Recent(Confirmed(p, calls, a), start)
    {
      assert Recent(held, start) == Recent(log, start);
      RecentTwice(held, call.now - p.window, start);
      RecentSnoc(kept, record, start);
      RecentSnoc(log, record, start);
    }
    assert forall r :: r in Confirmed(p, calls, a) ==> r in log || r == record;
  }

  lemma {:induction false} WindowWithinRecent(log: seq<Record>, window: int, t: int, start: int)
    requires start <= t - window && forall r :: r in log ==> r.amount > 0
    ensures Sum(InWindow(log, window, t)) <= Sum(Recent(log, start))
    ensures 0 <= Sum(InWindow(log, window, t))
  {
    hide Recent, Sum, InWindow;
    if log == [] {
      NothingYet(start, window, t);
    } else {
      var front, last := log[..|log| - 1], log[|log| - 1];
      assert log == front + [last];
      WindowWithinRecent(front, window, t, start);
      InWindowSnoc(front, last, window, t);
      RecentSnoc(front, last, start);
      RecentSnoc(InWindow(front, window, t), last, start);
      RecentSnoc(Recent(front, start), last, start);
    }
  }

  /**
   The quota over whole runs: with readings in order, what an address was confirmed in any window
   never exceeds the maximum, although old records are pruned as the run goes.
   */
  lemma {:induction false} WindowNeverExceeded(p: Policy, calls: seq<Call>, a: Address, t: int)
    requires p.Valid() && Ordered(calls, a) && Parsed(p, calls, a)
    ensures Sum(InWindow(Confirmed(p, calls, a), p.window, t)) <= p.maximumPerWindow
  {
    hide Recent, Sum, InWindow, Stored;
    NothingYet(0, p.window, t);
    if calls == [] {
    } else {
      var n := |calls| - 1;
      var before, call := calls[..n], calls[n];
      WindowNeverExceeded(p, before, a, t);
      InWindowSnoc(Confirmed(p, before, a), Record(call.now, call.amount), p.window, t);
      if call.recipient == a && Confirms(p, Stored(p, before, a), call) && t - p.window < call.now <= t {
        PruningLosesNothing(p, before, a, call.now);
        var log, start := Confirmed(p, before, a), call.now - p.window;
        assert Recent(Stored(p, before, a), start) == Recent(log, start);
        WindowWithinRecent(log, p.window, t, start);
        var record := Record(call.now, call.amount);
        RecentSnoc(InWindow(log, p.window, t), record, start);
      }
    }
  }

  /** Confirmed fundings of one address are at least the cooldown apart. */
  lemma {:induction false} CooldownNeverBroken(p: Policy, calls: seq<Call>, a: Address, i: nat, j: nat)
    requires p.Valid() && Ordered(calls, a) && Parsed(p, calls, a) && i < j < |Confirmed(p, calls, a)|
    ensures Confirmed(p, calls, a)[i].at + p.cooldown <= Confirmed(p, calls, a)[j].at
  {
    var n := |calls| - 1;
    var before, call := calls[..n], calls[n];
    var log := Confirmed(p, before, a);
    if j < |log| {
      CooldownNeverBroken(p, before, a, i, j);
    } else {
      PruningLosesNothing(p, before, a, call.now);
      if i < j - 1 {
        CooldownNeverBroken(p, before, a, i, j - 1);
      }
      LastIsKept(p, before, a, call);
    }
  }

  /** A confirmed call comes a cooldown after the last confirmed one, pruned or not. */
  lemma LastIsKept(p: Policy, before: seq<Call>, a: Address, call: Call)
    requires p.Valid() && Faithful(p, before, a, call.now) && Confirms(p, Stored(p, before, a), call)
    requires Confirmed(p, before, a) != []
    ensures var log := Confirmed(p, before, a); log[|log| - 1].at + p.cooldown <= call.now
  {
    var log, start := Confirmed(p, before, a), call.now - p.window;
    var last := log[|log| - 1];
    assert last in log;
    assert Recent(Stored(p, before, a), start) == Recent(log, start);
    if last.at > start {
      RecentSnoc(log[..|log| - 1], last, start);
      assert log == log[..|log| - 1] + [last];
    }
  }

  /**
   The clock is read before the lock is taken.  If two readings are served out of order, the later
   one prunes what the earlier one still needs: here two fundings of the whole quota fall in one window.
   */
  lemma OutOfOrderReadingsExceed() returns (p: Policy, calls: seq<Call>, a: Address, t: int)
    ensures p.Valid() && Parsed(p, calls, a) && !Ordered(calls, a)
    ensures Sum(InWindow(Confirmed(p, calls, a), p.window, t)) > p.maximumPerWindow
  {
    p := Policy(10, 1, 10, 10, 100, 1);
    a, t := 1, 195;
    var c1, c2, c3 := Call(a, 10, 100, true), Call(a, 10, 200, false), Call(a, 10, 195, true);
    calls := [c1, c2, c3];
    var r1, r3 := Record(100, 10), Record(195, 10);
    assert Recent([], 0) == [] && Sum([]) == 0;
    RunSnoc(p, [], c1, a);
    RunSnoc(p, [c1], c2, a);
    RunSnoc(p, [c1, c2], c3, a);
    RecentSnoc([], r1, 100);
    assert [] + [c1] == [c1] && [c1] + [c2] == [c1, c2] && [c1, c2] + [c3] == calls;
    assert [] + [r1] == [r1] && [r1] + [r3] == [r1, r3];
    assert Stored(p, [c1], a) == [r1] && Confirmed(p, [c1], a) == [r1];
    assert Stored(p, [c1, c2], a) == [] && Confirmed(p, [c1, c2], a) == [r1];
    assert Confirmed(p, calls, a) == [r1, r3];
    InWindowSnoc([], r1, 100, t);
    InWindowSnoc([r1], r3, 100, t);
    RecentSnoc([], r1, 0);
    RecentSnoc([r1], r3, 0);
  }

  lemma RunSnoc(p: Policy, calls: seq<Call>, call: Call, a: Address)
    requires call.recipient == a
    ensures Stored(p, calls + [call], a) == Next(p, Stored(p, calls, a), call)
    ensures Confirmed(p, calls + [call], a) ==
            Confirmed(p, calls, a) +
            if Confirms(p, Stored(p, calls, a), call) then [Record(call.now, call.amount)] else []
  {
    assert (calls + [call])[..|calls|] == calls;
  }

  // ---------------------------------------------------------------- amounts

  function Decimal(text: string): int {
    if text == "" then 0 else Decimal(text[..|text| - 1]) * 10 + (text[|text| - 1] as int - '0' as int)
  }

  predicate AllDigits(text: string) { forall i :: 0 <= i < |text| ==> '0' <= text[i] <= '9' }

  datatype Amount = Amount(value: int) | NotDecimal | NotPositive | BelowMinimum | AboveMaximum

  /** `parseAmount`: exactly the decimal texts in range, and the default for none. */
  method ParseAmount(text: string, p: Policy) returns (r: Amount)
    requires p.Valid()
    ensures r.Amount? <==> text == "" || (AllDigits(text) && p.minimumAmount <= Decimal(text) <= p.maximumPerRequest)
    ensures r.Amount? ==> r.value == (if text == "" then p.defaultAmount else Decimal(text))
    ensures r.Amount? ==> 0 < r.value <= p.maximumPerRequest
    ensures r.NotDecimal? <==> text != "" && !AllDigits(text)
  {
    if text == "" {
      return Amount(p.defaultAmount);
    }
    var i := 0;
    while i < |text|
      invariant 0 <= i <= |text| && AllDigits(text[..i])
    {
      if text[i] < '0' || text[i] > '9' {
        return NotDecimal;
      }
      i := i + 1;
    }
    var amount := Decimal(text);
    if amount <= 0 {
      return NotPositive;
    }
    if amount < p.minimumAmount {
      return BelowMinimum;
    }
    if amount > p.maximumPerRequest {
      return AboveMaximum;
    }
    return Amount(amount);
  }
}
