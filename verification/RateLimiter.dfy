/** One token bucket: what a sequence of visits can spend. */
module TokenBucket {
  import opened Basics

  datatype Rule = Rule(burst: int, refillSeconds: int)
  {
    predicate Valid() { burst > 0 && refillSeconds > 0 }
  }
  datatype Bucket = Bucket(tokens: real, lastFill: int)

  /** Tokens that flow in during a time in nanoseconds. */
  function Gained(rule: Rule, nanos: int): real
    requires rule.Valid()
  {
    (nanos as real / SECOND as real) / rule.refillSeconds as real
  }

  /** `refill`; the subtraction of times saturates. */
  function Refill(rule: Rule, b: Bucket, now: int): Bucket
    requires rule.Valid()
  {
    var elapsed := if now - b.lastFill > MAX_DURATION then MAX_DURATION else now - b.lastFill;
    if elapsed <= 0 then b else
      var tokens := b.tokens + Gained(rule, elapsed);
      Bucket(if tokens > rule.burst as real then rule.burst as real else tokens, now)
  }

  /** The bucket a visitor finds: created full if there is none. */
  function Touch(rule: Rule, b: Option<Bucket>, now: int): Bucket
    requires rule.Valid()
  {
    Refill(rule, if b.Some? then b.value else Bucket(rule.burst as real, now), now)
  }

  datatype Visit = Visit(now: int, spend: bool)

  function Step(rule: Rule, b: Option<Bucket>, v: Visit): Bucket
    requires rule.Valid()
  {
    var t := Touch(rule, b, v.now);
    if v.spend then t.(tokens := t.tokens - 1.0) else t
  }

  /** Every spending visit finds a whole token. */
  predicate Legal(rule: Rule, b: Option<Bucket>, visits: seq<Visit>)
    requires rule.Valid()
    decreases |visits|
  {
    visits == [] ||
    ((visits[0].spend ==> Touch(rule, b, visits[0].now).tokens >= 1.0)
        && Legal(rule, Some(Step(rule, b, visits[0])), visits[1..]))
  }

  function Spent(visits: seq<Visit>): nat {
    if visits == [] then 0 else (if visits[0].spend then 1 else 0) + Spent(visits[1..])
  }

  predicate Sane(rule: Rule, b: Bucket) { 0.0 <= b.tokens <= rule.burst as real }

  lemma DivideSum(x: real, y: real, s: real, r: real)
    requires s > 0.0 && r > 0.0
    ensures (x + y) / s / r == x / s / r + y / s / r
  {
    assert (x + y) / s == x / s + y / s;
  }

  lemma GainedAdds(rule: Rule, a: int, b: int)
    requires rule.Valid()
    ensures Gained(rule, a + b) == Gained(rule, a) + Gained(rule, b)
  {
    DivideSum(a as real, b as real, SECOND as real, rule.refillSeconds as real);
  }

  lemma DivideNonNegative(x: real, r: real)
    requires x >= 0.0 && r > 0.0
    ensures x / r >= 0.0
  {
  }

  lemma GainedGrows(rule: Rule, a: int, b: int)
    requires rule.Valid() && a <= b
    ensures Gained(rule, a) <= Gained(rule, b) && Gained(rule, 0) == 0.0
  {
    GainedAdds(rule, a, b - a);
    DivideNonNegative((b - a) as real / SECOND as real, rule.refillSeconds as real);
  }

  /** A refill adds at most what flowed in, and never more than the burst holds. */
  lemma TouchBound(rule: Rule, b: Bucket, now: int)
    requires rule.Valid() && Sane(rule, b)
    ensures var t := Touch(rule, Some(b), now);
            && Sane(rule, t) && t.tokens >= b.tokens
            && t.lastFill == (if now > b.lastFill then now else b.lastFill)
            && t.tokens <= b.tokens + Gained(rule, t.lastFill - b.lastFill)
  {
    hide Gained;
    var elapsed := now - b.lastFill;
    var counted := if elapsed > MAX_DURATION then MAX_DURATION else elapsed;
    GainedGrows(rule, 0, 0);
    if elapsed > 0 {
      GainedGrows(rule, 0, counted);
      GainedGrows(rule, counted, elapsed);
    }
  }

  lemma {:induction false} SpentFrom(rule: Rule, b: Bucket, visits: seq<Visit>, hi: int)
    requires rule.Valid() && Sane(rule, b) && Legal(rule, Some(b), visits) && b.lastFill <= hi
    requires forall i :: 0 <= i < |visits| ==> visits[i].now <= hi
    ensures Spent(visits) as real <= b.tokens + Gained(rule, hi - b.lastFill)
    decreases |visits|
  {
    hide Gained;
    if visits == [] {
      GainedGrows(rule, 0, hi - b.lastFill);
    } else {
      var t := Touch(rule, Some(b), visits[0].now);
      TouchBound(rule, b, visits[0].now);
      GainedAdds(rule, t.lastFill - b.lastFill, hi - t.lastFill);
      SpentFrom(rule, Step(rule, Some(b), visits[0]), visits[1..], hi);
    }
  }

  lemma TouchStart(rule: Rule, b: Option<Bucket>, now: int)
    requires rule.Valid() && (b.Some? ==> Sane(rule, b.value))
    ensures var t := Touch(rule, b, now); Sane(rule, t) && t.lastFill >= now
  {
    if b.Some? {
      TouchBound(rule, b.value, now);
    }
  }

  function Max(a: int, b: int): int { if a > b then a else b }

  /** The latest reading so far. */
  function HighWater(visits: seq<Visit>): int
    requires visits != []
  {
    if |visits| == 1 then visits[0].now else Max(HighWater(visits[..|visits| - 1]), visits[|visits| - 1].now)
  }

  lemma {:induction false} HighWaterIsMax(visits: seq<Visit>, i: nat)
    requires i < |visits|
    ensures visits[i].now <= HighWater(visits)
  {
    if i == |visits| - 1 {
    } else {
      HighWaterIsMax(visits[..|visits| - 1], i);
    }
  }

  lemma {:induction false} HighWaterSplits(xs: seq<Visit>, ys: seq<Visit>)
    requires xs != [] && ys != []
    ensures HighWater(xs + ys) == Max(HighWater(xs), HighWater(ys))
    decreases |ys|
  {
    if |ys| == 1 {
      assert (xs + ys)[..|xs|] == xs;
    } else {
      var last := |ys| - 1;
      assert (xs + ys)[..|xs + ys| - 1] == xs + ys[..last];
      HighWaterSplits(xs, ys[..last]);
    }
  }

  /** The bucket that visits leave. */
  function Left(rule: Rule, b: Option<Bucket>, visits: seq<Visit>): Option<Bucket>
    requires rule.Valid()
  {
    if visits == [] then b
    else Some(Step(rule, Left(rule, b, visits[..|visits| - 1]), visits[|visits| - 1]))
  }

  /** A bucket was last filled at the latest reading of its visits. */
  lemma {:induction false} FilledAtHighWater(rule: Rule, visits: seq<Visit>)
    requires rule.Valid() && visits != []
    ensures Left(rule, None, visits).Some? && Left(rule, None, visits).value.lastFill == HighWater(visits)
  {
    hide Gained;
    if |visits| == 1 {
      assert visits[..0] == [];
    } else {
      FilledAtHighWater(rule, visits[..|visits| - 1]);
    }
  }

  /**
   For any clock: what visits spend is bounded by the burst and the inflow of the time by which the
   latest reading rises from the first of them on, given what was read before.
   */
  lemma VisitsBoundedByRise(rule: Rule, before: seq<Visit>, visits: seq<Visit>)
    requires rule.Valid() && visits != []
    requires var b := Left(rule, None, before); Legal(rule, b, visits) && (b.Some? ==> Sane(rule, b.value))
    ensures Spent(visits) as real <=
            rule.burst as real + Gained(rule, HighWater(before + visits) - HighWater(before + [visits[0]]))
  {
    hide Gained, Touch, Left;
    var b := Left(rule, None, before);
    var first, rest := visits[0], visits[1..];
    FirstTouch(rule, before, first);
    var t := Touch(rule, b, first.now);
    assert visits == [first] + rest && before + visits == before + [first] + rest;
    var top := HighWater(before + visits);
    if rest == [] {
      assert before + visits == before + [first];
    } else {
      HighWaterSplits(before + [first], rest);
    }
    forall i | 0 <= i < |rest| ensures rest[i].now <= top {
      HighWaterIsMax(rest, i);
    }
    SpentFrom(rule, Step(rule, b, first), rest, top);
  }

  lemma FirstTouch(rule: Rule, before: seq<Visit>, first: Visit)
    requires rule.Valid()
    requires var b := Left(rule, None, before); b.Some? ==> Sane(rule, b.value)
    ensures var t := Touch(rule, Left(rule, None, before), first.now);
            Sane(rule, t) && t.lastFill == HighWater(before + [first])
  {
    hide Gained;
    if before == [] {
      assert before + [first] == [first];
    } else {
      FilledAtHighWater(rule, before);
      HighWaterSplits(before, [first]);
      TouchBound(rule, Left(rule, None, before).value, first.now);
    }
  }

  /** Visits whose readings lie in an interval spend at most the burst and what flows in meanwhile. */
  lemma VisitsWithin(rule: Rule, b: Option<Bucket>, visits: seq<Visit>, lo: int, hi: int)
    requires rule.Valid() && (b.Some? ==> Sane(rule, b.value)) && Legal(rule, b, visits) && lo <= hi
    requires forall i :: 0 <= i < |visits| ==> lo <= visits[i].now <= hi
    ensures Spent(visits) as real <= rule.burst as real + Gained(rule, hi - lo)
  {
    hide Gained, Touch;
    GainedGrows(rule, 0, hi - lo);
    if visits != [] {
      var t := Touch(rule, b, visits[0].now);
      TouchStart(rule, b, visits[0].now);
      var top := if t.lastFill > hi then t.lastFill else hi;
      var rest := visits[1..];
      var next := Step(rule, b, visits[0]);
      SpentFrom(rule, next, rest, top);
      GainedGrows(rule, top - t.lastFill, hi - lo);
    }
  }
}

/** The two-level limiter: a bucket per address and one per network around it. */
module RateLimiter {
  import opened Basics
  import opened TokenBucket

  datatype Addr = Invalid | V4(bits: nat) | V6(bits: nat, zone: string)
  datatype Subnet = NoSubnet | Net4(top: nat) | Net6(top: nat)
  datatype Cidr = Cidr4(bits: nat, length: nat) | Cidr6(bits: nat, length: nat)

  const LOW32: nat := 0x1_0000_0000
  const LOW80: nat := 0x1_0000_0000_0000_0000_0000

  /** `Addr.Unmap`: an IPv4 address written as IPv6 becomes IPv4. */
  function Unmap(a: Addr): Addr {
    if a.V6? && a.bits / LOW32 == 0xffff then V4(a.bits % LOW32) else a
  }

  /** `subnetFor`: /24 for IPv4 and /48 for IPv6. */
  function SubnetFor(a: Addr): Subnet {
    match a
    case Invalid => NoSubnet
    case V4(bits) => Net4(bits / 256)
    case V6(bits, _) => Net6(bits / LOW80)
  }

  /** `Prefix.Contains`: families must agree, and a zoned address matches nothing. */
  predicate Contains(c: Cidr, a: Addr) {
    match a
    case Invalid => false
    case V4(bits) => c.Cidr4? && c.length <= 32 && bits / Pow2(32 - c.length) == c.bits / Pow2(32 - c.length)
    case V6(bits, zone) =>
      c.Cidr6? && zone == "" && c.length <= 128 && bits / Pow2(128 - c.length) == c.bits / Pow2(128 - c.length)
  }

  datatype Limits = Limits(ip: Rule, subnet: Rule, deny: seq<Cidr>, allow: seq<Cidr>)
  {
    predicate Valid() { ip.Valid() && subnet.Valid() }
    predicate Denied(a: Addr) { exists c :: c in deny && Contains(c, a) }
    predicate Allowed(a: Addr) { exists c :: c in allow && Contains(c, a) }
    /** The buckets decide about this address. */
    predicate Metered(a: Addr) { !Denied(a) && !Allowed(a) }
  }

  datatype Buckets = Buckets(ips: map<Addr, Bucket>, subnets: map<Subnet, Bucket>)

  const NO_BUCKETS := Buckets(map[], map[])

  datatype Answer = Admitted | Denylisted | AddressRate | NetworkRate

  function Lookup<K, V>(m: map<K, V>, k: K): Option<V> { if k in m then Some(m[k]) else None }

  /** What a call does to the buckets and what it is told; `a` is unmapped. */
  function Serve(l: Limits, s: Buckets, a: Addr, now: int): (Buckets, Answer)
    requires l.Valid()
  {
    if l.Denied(a) then (s, Denylisted)
    else if l.Allowed(a) then (s, Admitted)
    else
      var n := SubnetFor(a);
      var ip, net := Touch(l.ip, Lookup(s.ips, a), now), Touch(l.subnet, Lookup(s.subnets, n), now);
      if ip.tokens < 1.0 then (Buckets(s.ips[a := ip], s.subnets[n := net]), AddressRate)
      else if net.tokens < 1.0 then (Buckets(s.ips[a := ip], s.subnets[n := net]), NetworkRate)
      else
        (Buckets(s.ips[a := ip.(tokens := ip.tokens - 1.0)], s.subnets[n := net.(tokens := net.tokens - 1.0)]),
            Admitted)
  }

  method AnyContains(list: seq<Cidr>, a: Addr) returns (found: bool)
    ensures found <==> exists c :: c in list && Contains(c, a)
  {
    var i := 0;
    while i < |list|
      invariant 0 <= i <= |list|
      invariant forall k :: 0 <= k < i ==> !Contains(list[k], a)
    {
      if Contains(list[i], a) {
        return true;
      }
      i := i + 1;
    }
    return false;
  }

  class Limiter {
    const limits: Limits
    var ips: map<Addr, Bucket>
    var subnets: map<Subnet, Bucket>

    function Model(): Buckets
      reads this
    {
      Buckets(ips, subnets)
    }

    constructor (limits: Limits)
      ensures this.limits == limits && Model() == NO_BUCKETS
    {
      this.limits, ips, subnets := limits, map[], map[];
    }

    /** `Admit`. */
    method Admit(client: Addr, now: int) returns (answer: Answer)
      requires limits.Valid()
      modifies this
      ensures (Model(), answer) == Serve(limits, old(Model()), Unmap(client), now)
    {
      hide Touch, Refill, Contains;
      var address := Unmap(client);
      var denied := AnyContains(limits.deny, address);
      if denied {
        return Denylisted;
      }
      var allowed := AnyContains(limits.allow, address);
      if allowed {
        return Admitted;
      }
      var ipBucket := TouchIp(address, now);
      var subnet := SubnetFor(address);
      var subnetBucket := TouchSubnet(subnet, now);
      if ipBucket.tokens < 1.0 {
        return AddressRate;
      }
      if subnetBucket.tokens < 1.0 {
        return NetworkRate;
      }
      ips := ips[address := ipBucket.(tokens := ipBucket.tokens - 1.0)];
      subnets := subnets[subnet := subnetBucket.(tokens := subnetBucket.tokens - 1.0)];
      assert ips == old(ips)[address := ipBucket.(tokens := ipBucket.tokens - 1.0)];
      assert subnets == old(subnets)[subnet := subnetBucket.(tokens := subnetBucket.tokens - 1.0)];
      return Admitted;
    }

    method TouchIp(address: Addr, now: int) returns (b: Bucket)
      requires limits.Valid()
      modifies this`ips
      ensures b == Touch(limits.ip, Lookup(old(ips), address), now) && ips == old(ips)[address := b]
    {
      if address !in ips {
        ips := ips[address := Bucket(limits.ip.burst as real, now)];
      }
      b := Refill(limits.ip, ips[address], now);
      ips := ips[address := b];
    }

    method TouchSubnet(subnet: Subnet, now: int) returns (b: Bucket)
      requires limits.Valid()
      modifies this`subnets
      ensures b == Touch(limits.subnet, Lookup(old(subnets), subnet), now) && subnets == old(subnets)[subnet := b]
    {
      if subnet !in subnets {
        subnets := subnets[subnet := Bucket(limits.subnet.burst as real, now)];
      }
      b := Refill(limits.subnet, subnets[subnet], now);
      subnets := subnets[subnet := b];
    }
  }

  // ---------------------------------------------------------------- runs

  /** A call from an unmapped address. */
  datatype Call = Call(address: Addr, now: int)

  function After(l: Limits, s: Buckets, calls: seq<Call>): Buckets
    requires l.Valid()
    decreases |calls|
  {
    if calls == [] then s else After(l, Serve(l, s, calls[0].address, calls[0].now).0, calls[1..])
  }

  /** Which bucket of the two levels is looked at. */
  datatype Key = OfAddress(address: Addr) | OfNetwork(subnet: Subnet)
  {
    predicate Covers(a: Addr) {
      match this
      case OfAddress(own) => a == own
      case OfNetwork(subnet) => SubnetFor(a) == subnet
    }
    function RuleOf(l: Limits): Rule { if OfAddress? then l.ip else l.subnet }
    function In(s: Buckets): Option<Bucket> {
      match this
      case OfAddress(own) => Lookup(s.ips, own)
      case OfNetwork(subnet) => Lookup(s.subnets, subnet)
    }
  }

  /** The metered calls of a run that reach one bucket. */
  function Visits(l: Limits, s: Buckets, calls: seq<Call>, key: Key): seq<Visit>
    requires l.Valid()
    decreases |calls|
  {
    if calls == [] then [] else
      var c := calls[0];
      var served := Serve(l, s, c.address, c.now);
      var rest := Visits(l, served.0, calls[1..], key);
      if l.Metered(c.address) && key.Covers(c.address) then [Visit(c.now, served.1 == Admitted)] + rest else rest
  }

  /** How many metered calls covered by the key are admitted. */
  function Admissions(l: Limits, s: Buckets, calls: seq<Call>, key: Key): nat
    requires l.Valid()
    decreases |calls|
  {
    if calls == [] then 0 else
      var c := calls[0];
      var served := Serve(l, s, c.address, c.now);
      Admissions(l, served.0, calls[1..], key) +
      if l.Metered(c.address) && key.Covers(c.address) && served.1 == Admitted then 1 else 0
  }

  predicate SaneBuckets(l: Limits, s: Buckets) {
    (forall a :: a in s.ips ==> Sane(l.ip, s.ips[a])) && (forall n :: n in s.subnets ==> Sane(l.subnet, s.subnets[n]))
  }

  /** What one call does to the bucket of a key. */
  lemma ServeStep(l: Limits, s: Buckets, c: Call, key: Key)
    requires l.Valid()
    ensures var (t, answer) := Serve(l, s, c.address, c.now);
            var reached := l.Metered(c.address) && key.Covers(c.address);
            && (!reached ==> key.In(t) == key.In(s))
            && (reached ==>
                  && key.In(t) == Some(Step(key.RuleOf(l), key.In(s), Visit(c.now, answer == Admitted)))
                  && (answer == Admitted ==> Touch(key.RuleOf(l), key.In(s), c.now).tokens >= 1.0))
  {
    hide Touch, Contains;
  }

  lemma ServeIsSane(l: Limits, s: Buckets, c: Call)
    requires l.Valid() && SaneBuckets(l, s)
    ensures SaneBuckets(l, Serve(l, s, c.address, c.now).0)
  {
    hide Touch, Contains;
    var n := SubnetFor(c.address);
    TouchStart(l.ip, Lookup(s.ips, c.address), c.now);
    TouchStart(l.subnet, Lookup(s.subnets, n), c.now);
  }

  lemma {:induction false} AfterIsSane(l: Limits, s: Buckets, calls: seq<Call>)
    requires l.Valid() && SaneBuckets(l, s)
    ensures SaneBuckets(l, After(l, s, calls))
    decreases |calls|
  {
    if calls == [] {
    } else {
      ServeIsSane(l, s, calls[0]);
      AfterIsSane(l, Serve(l, s, calls[0].address, calls[0].now).0, calls[1..]);
    }
  }

  /** The visits to a bucket are legal, spend what was admitted, and carry readings of the calls. */
  lemma {:induction false} VisitsAreLegal(l: Limits, s: Buckets, calls: seq<Call>, key: Key, lo: int, hi: int)
    requires l.Valid() && forall i :: 0 <= i < |calls| ==> lo <= calls[i].now <= hi
    ensures key.RuleOf(l).Valid() && Legal(key.RuleOf(l), key.In(s), Visits(l, s, calls, key))
    ensures Spent(Visits(l, s, calls, key)) == Admissions(l, s, calls, key)
    ensures forall i :: 0 <= i < |Visits(l, s, calls, key)| ==> lo <= Visits(l, s, calls, key)[i].now <= hi
    decreases |calls|
  {
    hide Serve, Touch, Step;
    if calls == [] {
    } else {
      var c := calls[0];
      var served := Serve(l, s, c.address, c.now);
      ServeStep(l, s, c, key);
      VisitsAreLegal(l, served.0, calls[1..], key, lo, hi);
      var rest := Visits(l, served.0, calls[1..], key);
      assert ([Visit(c.now, served.1 == Admitted)] + rest)[1..] == rest;
    }
  }

  /**
   The rate bound, for every address and for every network across its addresses: any stretch of
   consecutive calls whose readings lie in an interval admits at most the burst plus one per refill
   time of the interval.  Before the stretch the clock may have stepped anywhere.
   */
  lemma RateBound(l: Limits, calls: seq<Call>, i: nat, j: nat, key: Key, lo: int, hi: int)
    requires l.Valid() && i <= j <= |calls| && lo <= hi
    requires forall k :: i <= k < j ==> lo <= calls[k].now <= hi
    ensures var s := After(l, NO_BUCKETS, calls[..i]);
            key.RuleOf(l).Valid() &&
            Admissions(l, s, calls[i..j], key) as real <= key.RuleOf(l).burst as real + Gained(key.RuleOf(l), hi - lo)
  {
    hide Serve, Gained, Admissions, Visits;
    var s := After(l, NO_BUCKETS, calls[..i]);
    AfterIsSane(l, NO_BUCKETS, calls[..i]);
    VisitsAreLegal(l, s, calls[i..j], key, lo, hi);
    VisitsWithin(key.RuleOf(l), key.In(s), Visits(l, s, calls[i..j], key), lo, hi);
  }

  /** The visits so far leave the bucket that is there. */
  lemma {:induction false} VisitsLeaveTheBucket(l: Limits, s: Buckets, calls: seq<Call>, key: Key)
    requires l.Valid()
    ensures key.RuleOf(l).Valid()
            && key.In(After(l, s, calls)) == Left(key.RuleOf(l), key.In(s), Visits(l, s, calls, key))
    decreases |calls|
  {
    hide Serve, Touch, Step;
    if calls == [] {
    } else {
      var c := calls[0];
      var served := Serve(l, s, c.address, c.now);
      ServeStep(l, s, c, key);
      VisitsLeaveTheBucket(l, served.0, calls[1..], key);
      if l.Metered(c.address) && key.Covers(c.address) {
        LeftCons(key.RuleOf(l), key.In(s), Visit(c.now, served.1 == Admitted), Visits(l, served.0, calls[1..], key));
      }
    }
  }

  lemma {:induction false} LeftCons(rule: Rule, b: Option<Bucket>, first: Visit, rest: seq<Visit>)
    requires rule.Valid()
    ensures Left(rule, b, [first] + rest) == Left(rule, Some(Step(rule, b, first)), rest)
    decreases |rest|
  {
    hide Step;
    if rest == [] {
      assert [first] + rest == [first] && [first][..0] == [];
    } else {
      var last := |rest| - 1;
      assert ([first] + rest)[..|rest|] == [first] + rest[..last];
      LeftCons(rule, b, first, rest[..last]);
    }
  }

  /**
   The rate bound for any clock: a stretch of consecutive calls admits at most the burst plus one per
   refill time of the rise of the latest reading that the bucket has seen, counted from the first
   call of the stretch that reaches it.
   */
  lemma RateBoundByRise(l: Limits, calls: seq<Call>, i: nat, j: nat, key: Key)
    requires l.Valid() && i <= j <= |calls|
    ensures var s := After(l, NO_BUCKETS, calls[..i]);
            var before, stretch := Visits(l, NO_BUCKETS, calls[..i], key), Visits(l, s, calls[i..j], key);
            var admitted := Admissions(l, s, calls[i..j], key);
            if stretch == [] then admitted == 0 else
              && key.RuleOf(l).Valid()
              && admitted as real <= key.RuleOf(l).burst as real +
                   Gained(key.RuleOf(l), HighWater(before + stretch) - HighWater(before + [stretch[0]]))
  {
    hide Serve, Gained, Admissions, Visits, HighWater;
    var s := After(l, NO_BUCKETS, calls[..i]);
    AfterIsSane(l, NO_BUCKETS, calls[..i]);
    VisitsLeaveTheBucket(l, NO_BUCKETS, calls[..i], key);
    var lo, hi := ReadingsBetween(calls[i..j]);
    VisitsAreLegal(l, s, calls[i..j], key, lo, hi);
    var before, stretch := Visits(l, NO_BUCKETS, calls[..i], key), Visits(l, s, calls[i..j], key);
    if stretch != [] {
      VisitsBoundedByRise(key.RuleOf(l), before, stretch);
    }
  }

  lemma {:induction false} ReadingsBetween(calls: seq<Call>) returns (lo: int, hi: int)
    ensures forall i :: 0 <= i < |calls| ==> lo <= calls[i].now <= hi
  {
    if calls == [] {
      lo, hi := 0, 0;
    } else {
      lo, hi := ReadingsBetween(calls[1..]);
      lo, hi := if calls[0].now < lo then calls[0].now else lo, if calls[0].now > hi then calls[0].now else hi;
      assert forall i :: 1 <= i < |calls| ==> calls[i] == calls[1..][i - 1];
    }
  }

  /** With a clock that never steps back, the calls read in an interval are such a stretch. */
  lemma IntervalIsAStretch(calls: seq<Call>, lo: int, hi: int) returns (i: nat, j: nat)
    requires lo <= hi && forall a, b :: 0 <= a < b < |calls| ==> calls[a].now <= calls[b].now
    ensures i <= j <= |calls|
    ensures forall k :: 0 <= k < |calls| ==> (i <= k < j <==> lo <= calls[k].now <= hi)
  {
    i := 0;
    while i < |calls| && calls[i].now < lo
      invariant i <= |calls| && forall k :: 0 <= k < i ==> calls[k].now < lo
    {
      i := i + 1;
    }
    j := i;
    while j < |calls| && calls[j].now <= hi
      invariant i <= j <= |calls| && forall k :: i <= k < j ==> lo <= calls[k].now <= hi
    {
      j := j + 1;
    }
  }

  /** How many metered calls covered by the key and read in an interval are admitted. */
  function AdmissionsWithin(l: Limits, s: Buckets, calls: seq<Call>, key: Key, lo: int, hi: int): nat
    requires l.Valid()
    decreases |calls|
  {
    if calls == [] then 0 else
      var c := calls[0];
      var served := Serve(l, s, c.address, c.now);
      AdmissionsWithin(l, served.0, calls[1..], key, lo, hi) +
      if lo <= c.now <= hi && l.Metered(c.address) && key.Covers(c.address) && served.1 == Admitted then 1 else 0
  }

  lemma {:induction false} WithinSplits(l: Limits, s: Buckets, xs: seq<Call>, ys: seq<Call>, key: Key, lo: int, hi: int)
    requires l.Valid()
    ensures AdmissionsWithin(l, s, xs + ys, key, lo, hi) ==
            AdmissionsWithin(l, s, xs, key, lo, hi) + AdmissionsWithin(l, After(l, s, xs), ys, key, lo, hi)
    decreases |xs|
  {
    hide Serve;
    if xs == [] {
      assert xs + ys == ys;
    } else {
      assert (xs + ys)[1..] == xs[1..] + ys;
      WithinSplits(l, Serve(l, s, xs[0].address, xs[0].now).0, xs[1..], ys, key, lo, hi);
    }
  }

  /** Calls all read in the interval, or all outside it. */
  lemma {:induction false} WithinIsAllOrNone(l: Limits, s: Buckets, calls: seq<Call>, key: Key, lo: int, hi: int,
      inside: bool)
    requires l.Valid() && forall k :: 0 <= k < |calls| ==> (lo <= calls[k].now <= hi <==> inside)
    ensures AdmissionsWithin(l, s, calls, key, lo, hi) == if inside then Admissions(l, s, calls, key) else 0
    decreases |calls|
  {
    hide Serve;
    if calls == [] {
    } else {
      WithinIsAllOrNone(l, Serve(l, s, calls[0].address, calls[0].now).0, calls[1..], key, lo, hi, inside);
    }
  }

  /**
   With a clock that never steps back, in every run and for every two instants: the admissions read
   between them number at most the burst plus one per refill time between them.
   */
  lemma MonotoneRateBound(l: Limits, calls: seq<Call>, key: Key, lo: int, hi: int)
    requires l.Valid() && lo <= hi && forall a, b :: 0 <= a < b < |calls| ==> calls[a].now <= calls[b].now
    ensures key.RuleOf(l).Valid()
    ensures AdmissionsWithin(l, NO_BUCKETS, calls, key, lo, hi) as real <=
            key.RuleOf(l).burst as real + Gained(key.RuleOf(l), hi - lo)
  {
    hide Serve, Gained, Admissions, AdmissionsWithin;
    var i, j := IntervalIsAStretch(calls, lo, hi);
    var xs, ys, zs := calls[..i], calls[i..j], calls[j..];
    assert calls == xs + (ys + zs);
    var s := After(l, NO_BUCKETS, xs);
    WithinSplits(l, NO_BUCKETS, xs, ys + zs, key, lo, hi);
    WithinSplits(l, s, ys, zs, key, lo, hi);
    WithinIsAllOrNone(l, NO_BUCKETS, xs, key, lo, hi, false);
    WithinIsAllOrNone(l, s, ys, key, lo, hi, true);
    WithinIsAllOrNone(l, After(l, s, ys), zs, key, lo, hi, false);
    RateBound(l, calls, i, j, key, lo, hi);
  }

  /** A call that is not admitted spends from no bucket. */
  lemma DeniedSpendsNothing(l: Limits, s: Buckets, c: Call, key: Key)
    requires l.Valid() && SaneBuckets(l, s) && Serve(l, s, c.address, c.now).1 != Admitted && key.In(s).Some?
    ensures var t := Serve(l, s, c.address, c.now).0;
            key.In(t).Some? && key.In(t).value.tokens >= key.In(s).value.tokens
  {
    hide Serve, Touch;
    ServeStep(l, s, c, key);
    TouchBound(key.RuleOf(l), key.In(s).value, c.now);
  }

  /** An admitted metered call spends exactly one token from its address and one from its network. */
  lemma AdmittedSpendsOne(l: Limits, s: Buckets, c: Call, key: Key)
    requires l.Valid() && l.Metered(c.address) && key.Covers(c.address) && Serve(l, s, c.address, c.now).1 == Admitted
    ensures var t := Serve(l, s, c.address, c.now).0;
            key.In(t).Some? && key.In(t).value.tokens == Touch(key.RuleOf(l), key.In(s), c.now).tokens - 1.0
  {
    hide Serve, Touch;
    ServeStep(l, s, c, key);
  }

  /**
   If the clock steps back, the calls read in an interval need not be consecutive, and together they
   can exceed the bound: three calls read at one instant are admitted with a burst of two.
   */
  lemma SteppedBackClockExceeds() returns (l: Limits, calls: seq<Call>, a: Addr)
    ensures l.Valid() && l.Metered(a) && |calls| == 4
    ensures forall k :: 0 <= k < 4 ==>
      calls[k].address == a && Serve(l, After(l, NO_BUCKETS, calls[..k]), a, calls[k].now).1 == Admitted
    ensures calls[0].now == calls[1].now == calls[3].now && 3 > l.ip.burst
  {
    hide Serve;
    l, a := TIGHT, CLIENT;
    calls := [Call(a, 0), Call(a, 0), Call(a, 10 * SECOND), Call(a, 0)];
    FirstServed();
    SecondServed();
    ThirdServed();
    FourthServed();
    AfterOne(l, NO_BUCKETS, calls, 0);
    AfterOne(l, NO_BUCKETS, calls, 1);
    AfterOne(l, NO_BUCKETS, calls, 2);
  }

  const TIGHT := Limits(Rule(2, 1), Rule(10, 1), [], [])
  const CLIENT: Addr := V4(0)

  function Both(ip: real, net: real, at: int): Buckets {
    Buckets(map[CLIENT := Bucket(ip, at)], map[SubnetFor(CLIENT) := Bucket(net, at)])
  }

  lemma FirstServed()
    ensures Serve(TIGHT, NO_BUCKETS, CLIENT, 0) == (Both(1.0, 9.0, 0), Admitted)
  {
  }

  lemma SecondServed()
    ensures Serve(TIGHT, Both(1.0, 9.0, 0), CLIENT, 0) == (Both(0.0, 8.0, 0), Admitted)
  {
    var t := Serve(TIGHT, Both(1.0, 9.0, 0), CLIENT, 0).0;
    assert t.ips == Both(0.0, 8.0, 0).ips && t.subnets == Both(0.0, 8.0, 0).subnets;
  }

  lemma ThirdServed()
    ensures Serve(TIGHT, Both(0.0, 8.0, 0), CLIENT, 10 * SECOND) == (Both(1.0, 9.0, 10 * SECOND), Admitted)
  {
    assert Gained(TIGHT.ip, 10 * SECOND) == 10.0;
    var t, u := Serve(TIGHT, Both(0.0, 8.0, 0), CLIENT, 10 * SECOND).0, Both(1.0, 9.0, 10 * SECOND);
    assert t.ips == u.ips && t.subnets == u.subnets;
  }

  lemma FourthServed()
    ensures Serve(TIGHT, Both(1.0, 9.0, 10 * SECOND), CLIENT, 0).1 == Admitted
  {
  }

  lemma {:induction false} AfterOne(l: Limits, s: Buckets, calls: seq<Call>, k: nat)
    requires l.Valid() && k < |calls|
    ensures After(l, s, calls[..k + 1]) == Serve(l, After(l, s, calls[..k]), calls[k].address, calls[k].now).0
    ensures After(l, s, calls[..0]) == s
    decreases k
  {
    hide Serve;
    if k == 0 {
      assert calls[..1][1..] == [];
    } else {
      assert calls[..k + 1][1..] == calls[1..][..k] && calls[..k][1..] == calls[1..][..k - 1];
      AfterOne(l, Serve(l, s, calls[0].address, calls[0].now).0, calls[1..], k - 1);
    }
  }
}
