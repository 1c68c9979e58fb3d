/** Left folds over any state, and what a fold inherits from its step. */
module StateFold {

  function Run<S, V>(step: (S, V) -> S, c: S, vs: seq<V>): S
    decreases |vs|
  {
    if vs == [] then c else Run(step, step(c, vs[0]), vs[1..])
  }

  lemma {:induction false} RunSplit<S, V>(step: (S, V) -> S, c: S, xs: seq<V>, ys: seq<V>)
    ensures Run(step, c, xs + ys) == Run(step, Run(step, c, xs), ys)
    decreases |xs|
  {
    if xs == [] {
      assert xs + ys == ys;
    } else {
      assert (xs + ys)[1..] == xs[1..] + ys;
      RunSplit(step, step(c, xs[0]), xs[1..], ys);
    }
  }

  function Map<V, W>(f: V -> W, xs: seq<V>): (r: seq<W>)
    ensures |r| == |xs| && forall i :: 0 <= i < |xs| ==> r[i] == f(xs[i])
  {
    seq(|xs|, i requires 0 <= i < |xs| => f(xs[i]))
  }

  function Zip<V>(plus: (V, V) -> V, xs: seq<V>, ys: seq<V>): (r: seq<V>)
    requires |xs| == |ys|
    ensures |r| == |xs| && forall i :: 0 <= i < |xs| ==> r[i] == plus(xs[i], ys[i])
  {
    seq(|xs|, i requires 0 <= i < |xs| => plus(xs[i], ys[i]))
  }

  /** A fold of a linear step is linear. */
  lemma {:induction false} RunLinear<V(!new)>(step: (V, V) -> V, plus: (V, V) -> V, a: V, b: V, xs: seq<V>, ys: seq<V>)
    requires |xs| == |ys|
    requires forall a, b, x, y :: step(plus(a, b), plus(x, y)) == plus(step(a, x), step(b, y))
    ensures Run(step, plus(a, b), Zip(plus, xs, ys)) == plus(Run(step, a, xs), Run(step, b, ys))
    decreases |xs|
  {
    if xs == [] {
    } else {
      var z := Zip(plus, xs, ys);
      assert z[1..] == Zip(plus, xs[1..], ys[1..]);
      assert step(plus(a, b), z[0]) == plus(step(a, xs[0]), step(b, ys[0]));
      RunLinear(step, plus, step(a, xs[0]), step(b, ys[0]), xs[1..], ys[1..]);
    }
  }

  /** An indexed invariant of the step holds at the end of the fold. */
  lemma {:induction false} RunKeeps<S(!new), V(!new)>(step: (S, V) -> S, good: (nat, S) -> bool, fits: V -> bool,
      c: S, vs: seq<V>, j: nat, bound: nat)
    requires forall k: nat, s, v :: k < bound && good(k, s) && fits(v) ==> good(k + 1, step(s, v))
    requires good(j, c) && j + |vs| <= bound && forall i :: 0 <= i < |vs| ==> fits(vs[i])
    ensures good(j + |vs|, Run(step, c, vs))
    decreases |vs|
  {
    if vs == [] {
    } else {
      assert fits(vs[0]) && good(j + 1, step(c, vs[0]));
      RunKeeps(step, good, fits, step(c, vs[0]), vs[1..], j + 1, bound);
    }
  }
}

/**
 The Bech32 checksum of BIP-173, section "Bech32": its update step is linear over GF(2) and
 injective, so a created checksum always verifies and every burst of up to six words is detected.
 */
module Bech32Checksum {
  import opened StateFold

  type Bits = bv32

  const GENERATOR: seq<Bits> := [0x3b6a57b2, 0x26508e6d, 0x1ea119fa, 0x3d4233dd, 0x2a1462b3]

  /** Addition over GF(2). */
  function Plus(a: Bits, b: Bits): Bits { a ^ b }

  /** `(top >>> index) & 1`. */
  predicate Bit(top: Bits, index: nat)
    requires index < 5
  {
    match index
    case 0 => top & 1 == 1
    case 1 => (top >> 1) & 1 == 1
    case 2 => (top >> 2) & 1 == 1
    case 3 => (top >> 3) & 1 == 1
    case _ => (top >> 4) & 1 == 1
  }

  function Select(chosen: bool, g: Bits): Bits { if chosen then g else 0 }

  /** What the first `n` generators contribute for the given top bits. */
  function Fold(top: Bits, n: nat): Bits
    requires n <= 5
  {
    if n == 0 then 0 else Plus(Fold(top, n - 1), Select(Bit(top, n - 1), GENERATOR[n - 1]))
  }

  function High(checksum: Bits): Bits { checksum >> 25 }

  function Shift(checksum: Bits): Bits { (checksum & 0x1ffffff) << 5 }

  function Step(checksum: Bits, value: Bits): Bits {
    Plus(Plus(Shift(checksum), value), Fold(High(checksum), 5))
  }

  function Polymod(checksum: Bits, values: seq<Bits>): Bits { Run(Step, checksum, values) }

  /** `bech32Polymod`: the loops over the values and over the generator. */
  method ComputePolymod(values: seq<Bits>) returns (checksum: Bits)
    ensures checksum == Polymod(1, values)
  {
    hide Step;
    checksum := 1;
    var i := 0;
    while i < |values|
      invariant 0 <= i <= |values| && Run(Step, checksum, values[i..]) == Run(Step, 1, values)
    {
      assert values[i..][1..] == values[i + 1..];
      checksum := ComputeStep(checksum, values[i]);
      i := i + 1;
    }
  }

  method ComputeStep(checksum: Bits, value: Bits) returns (r: Bits)
    ensures r == Step(checksum, value)
  {
    hide Fold;
    var top := checksum >> 25;
    var start := ((checksum & 0x1ffffff) << 5) ^ value;
    r := ApplyGenerators(start, top);
  }

  method ApplyGenerators(start: Bits, top: Bits) returns (r: Bits)
    ensures r == Plus(start, Fold(top, 5))
  {
    hide Plus, Bit;
    PlusZero(start);
    r := start;
    var index := 0;
    while index < |GENERATOR|
      invariant 0 <= index <= 5 && r == Plus(start, Fold(top, index))
    {
      PlusAssoc(start, Fold(top, index), GENERATOR[index]);
      PlusZero(Fold(top, index));
      if Bit(top, index) {
        r := Plus(r, GENERATOR[index]);
      }
      index := index + 1;
    }
  }

  // ---------------------------------------------------------------- linearity

  lemma PlusAssoc(a: Bits, b: Bits, c: Bits)
    ensures Plus(Plus(a, b), c) == Plus(a, Plus(b, c))
  {
  }

  lemma PlusCommutes(a: Bits, b: Bits)
    ensures Plus(a, b) == Plus(b, a)
  {
  }

  lemma PlusZero(c: Bits)
    ensures Plus(c, 0) == c && Plus(0, c) == c && Plus(c, c) == 0
  {
  }

  lemma PlusPairs(a: Bits, b: Bits, c: Bits, d: Bits)
    ensures Plus(Plus(a, b), Plus(c, d)) == Plus(Plus(a, c), Plus(b, d))
  {
    hide Plus;
    PlusAssoc(a, b, Plus(c, d));
    PlusAssoc(b, c, d);
    PlusCommutes(b, c);
    PlusAssoc(c, b, d);
    PlusAssoc(a, c, Plus(b, d));
  }

  lemma BitLinear(a: Bits, b: Bits, k: nat)
    requires k < 5
    ensures Bit(Plus(a, b), k) <==> Bit(a, k) != Bit(b, k)
  {
  }

  lemma SelectLinear(p: bool, q: bool, g: Bits)
    ensures Select(p != q, g) == Plus(Select(p, g), Select(q, g))
  {
    hide Plus;
    PlusZero(g);
    PlusZero(0);
  }

  lemma TermLinear(a: Bits, b: Bits, k: nat, g: Bits)
    requires k < 5
    ensures Select(Bit(Plus(a, b), k), g) == Plus(Select(Bit(a, k), g), Select(Bit(b, k), g))
  {
    hide *;
    BitLinear(a, b, k);
    SelectLinear(Bit(a, k), Bit(b, k), g);
  }

  lemma {:induction false} FoldLinear(a: Bits, b: Bits, n: nat)
    requires n <= 5
    ensures Fold(Plus(a, b), n) == Plus(Fold(a, n), Fold(b, n))
    decreases n
  {
    hide Plus, Select, Bit;
    if n == 0 {
      PlusZero(0);
    } else {
      FoldLinear(a, b, n - 1);
      var g := GENERATOR[n - 1];
      TermLinear(a, b, n - 1, g);
      PlusPairs(Fold(a, n - 1), Fold(b, n - 1), Select(Bit(a, n - 1), g), Select(Bit(b, n - 1), g));
    }
  }

  function Mask(c: Bits): Bits { c & 0x1ffffff }

  function Left(c: Bits): Bits { c << 5 }

  lemma MaskLinear(a: Bits, b: Bits)
    ensures Mask(Plus(a, b)) == Plus(Mask(a), Mask(b))
  {
  }

  lemma LeftLinear(a: Bits, b: Bits)
    ensures Left(Plus(a, b)) == Plus(Left(a), Left(b))
  {
  }

  lemma HighLinear(a: Bits, b: Bits)
    ensures High(Plus(a, b)) == Plus(High(a), High(b))
  {
  }

  lemma ShiftIs(c: Bits)
    ensures Shift(c) == Left(Mask(c))
  {
  }

  lemma ShiftLinear(a: Bits, b: Bits)
    ensures Shift(Plus(a, b)) == Plus(Shift(a), Shift(b))
  {
    hide *;
    ShiftIs(a);
    ShiftIs(b);
    ShiftIs(Plus(a, b));
    MaskLinear(a, b);
    LeftLinear(Mask(a), Mask(b));
  }

  lemma StepLinear(a: Bits, b: Bits, x: Bits, y: Bits)
    ensures Step(Plus(a, b), Plus(x, y)) == Plus(Step(a, x), Step(b, y))
  {
    hide Plus, Shift, High, Fold;
    ShiftLinear(a, b);
    HighLinear(a, b);
    FoldLinear(High(a), High(b), 5);
    PlusPairs(Shift(a), Shift(b), x, y);
    PlusPairs(Plus(Shift(a), x), Plus(Shift(b), y), Fold(High(a), 5), Fold(High(b), 5));
  }

  /** The checksum of a sum is the sum of the checksums, for any length. */
  lemma PolymodLinear(a: Bits, b: Bits, xs: seq<Bits>, ys: seq<Bits>)
    requires |xs| == |ys|
    ensures Polymod(Plus(a, b), Zip(Plus, xs, ys)) == Plus(Polymod(a, xs), Polymod(b, ys))
  {
    hide Step, Plus;
    forall a, b, x, y ensures Step(Plus(a, b), Plus(x, y)) == Plus(Step(a, x), Step(b, y)) {
      StepLinear(a, b, x, y);
    }
    RunLinear(Step, Plus, a, b, xs, ys);
  }

  // ---------------------------------------------------------------- bounds and injectivity

  const LIMIT: Bits := 0x40000000

  predicate Small(values: seq<Bits>) { forall i :: 0 <= i < |values| ==> values[i] < LIMIT }

  predicate Words(values: seq<Bits>) { forall i :: 0 <= i < |values| ==> values[i] < 32 }

  /** `Fold` over all five generators, written out. */
  function Folded(top: Bits): Bits {
    (if top & 1 == 1 then 0x3b6a57b2 else 0) ^
    (if (top >> 1) & 1 == 1 then 0x26508e6d else 0) ^
    (if (top >> 2) & 1 == 1 then 0x1ea119fa else 0) ^
    (if (top >> 3) & 1 == 1 then 0x3d4233dd else 0) ^
    (if (top >> 4) & 1 == 1 then 0x2a1462b3 else 0)
  }

  lemma FoldWrittenOut(top: Bits)
    ensures Fold(top, 5) == Folded(top)
  {
    assert Fold(top, 1) == Plus(0, Select(Bit(top, 0), 0x3b6a57b2));
    PlusZero(Select(Bit(top, 0), 0x3b6a57b2));
    assert Fold(top, 2) == Plus(Fold(top, 1), Select(Bit(top, 1), 0x26508e6d));
    assert Fold(top, 3) == Plus(Fold(top, 2), Select(Bit(top, 2), 0x1ea119fa));
    assert Fold(top, 4) == Plus(Fold(top, 3), Select(Bit(top, 3), 0x3d4233dd));
  }

  lemma FoldedSmall(top: Bits)
    ensures Folded(top) < LIMIT
  {
  }

  lemma PlusSmall(a: Bits, b: Bits)
    requires a < LIMIT && b < LIMIT
    ensures Plus(a, b) < LIMIT
  {
  }

  lemma ShiftSmall(c: Bits)
    ensures Shift(c) < LIMIT
  {
  }

  lemma StepSmall(c: Bits, v: Bits)
    requires c < LIMIT && v < LIMIT
    ensures Step(c, v) < LIMIT
  {
    hide Plus, Shift, High, Fold, Folded;
    FoldWrittenOut(High(c));
    FoldedSmall(High(c));
    ShiftSmall(c);
    PlusSmall(Shift(c), v);
    PlusSmall(Plus(Shift(c), v), Fold(High(c), 5));
  }

  lemma PolymodSmall(c: Bits, values: seq<Bits>)
    requires c < LIMIT && Small(values)
    ensures Polymod(c, values) < LIMIT
  {
    hide Step;
    forall c: Bits, v: Bits | c < LIMIT && v < LIMIT ensures Step(c, v) < LIMIT {
      StepSmall(c, v);
    }
    RunKeeps(Step, (j, c) => c < LIMIT, v => v < LIMIT, c, values, 0, |values|);
  }

  /** The low five bits of the generators are independent, so no nonzero state maps to zero. */
  lemma StepKeepsNonzero(c: Bits)
    requires 0 < c < LIMIT
    ensures 0 < Step(c, 0) < LIMIT
  {
    hide Plus, Shift, High, Fold, Folded;
    StepSmall(c, 0);
    FoldWrittenOut(High(c));
    NoCancellation(c);
  }

  lemma NoCancellation(c: Bits)
    requires 0 < c < LIMIT
    ensures Plus(Plus(Shift(c), 0), Folded(High(c))) != 0
  {
  }

  /** Below 2^25 nothing is folded: the step only shifts. */
  lemma StepShifts(c: Bits, v: Bits)
    requires c < 0x2000000 && v < 32
    ensures Step(c, v) == (c << 5) | v
  {
    hide Plus, Shift, High, Fold, Folded;
    TopIsZero(c);
    FoldWrittenOut(0);
    NothingFolded();
    PlainShift(c, v);
  }

  lemma TopIsZero(c: Bits)
    requires c < 0x2000000
    ensures High(c) == 0
  {
  }

  lemma NothingFolded()
    ensures Folded(0) == 0
  {
  }

  lemma PlainShift(c: Bits, v: Bits)
    requires c < 0x2000000 && v < 32
    ensures Plus(Plus(Shift(c), v), 0) == (c << 5) | v
  {
  }

  /** A bound on the states that `j` words can build from zero. */
  function Reach(j: nat): Bits {
    match j
    case 0 => 1
    case 1 => 0x20
    case 2 => 0x400
    case 3 => 0x8000
    case 4 => 0x100000
    case 5 => 0x2000000
    case _ => 0x40000000
  }

  /** Up to six words never cancel out. */
  lemma ShiftReach(c: Bits, v: Bits, j: nat)
    requires j < 6 && 0 < c < Reach(j) && v < 32
    ensures 0 < Step(c, v) < Reach(j + 1)
  {
    assert c < 0x2000000;
    StepShifts(c, v);
    ShiftedBound(c, v, j);
  }

  lemma ShiftedBound(c: Bits, v: Bits, j: nat)
    requires j < 6 && 0 < c < Reach(j) && v < 32
    ensures 0 < (c << 5) | v < Reach(j + 1)
  {
    match j
    case 0 =>
    case 1 =>
    case 2 =>
    case 3 =>
    case 4 =>
    case _ => assert j == 5;
  }

  lemma StepFromZero(v: Bits)
    requires v < 32
    ensures Step(0, v) == v
  {
    StepShifts(0, v);
    assert ((0 as Bits) << 5) | v == v;
  }

  predicate Zeros(values: seq<Bits>) { forall i :: 0 <= i < |values| ==> values[i] == 0 }

  lemma ZerosKeepZero(values: seq<Bits>)
    requires Zeros(values)
    ensures Polymod(0, values) == 0
  {
    StepFromZero(0);
    RunKeeps(Step, (j, c) => c == 0, v => v == 0, 0, values, 0, |values|);
  }

  lemma ZerosKeepNonzero(c: Bits, values: seq<Bits>)
    requires 0 < c < LIMIT && Zeros(values)
    ensures 0 < Polymod(c, values) < LIMIT
  {
    forall c: Bits | 0 < c < LIMIT ensures 0 < Step(c, 0) < LIMIT {
      StepKeepsNonzero(c);
    }
    RunKeeps(Step, (j, c) => 0 < c < LIMIT, v => v == 0, c, values, 0, |values|);
  }

  lemma BurstKeepsNonzero(c: Bits, e: seq<Bits>, j: nat)
    requires 0 < c < Reach(j) && j + |e| <= 6 && Words(e)
    ensures 0 < Polymod(c, e) < LIMIT
  {
    hide Step, Reach, Run;
    forall k: nat, c: Bits, v: Bits | k < 6 && 0 < c < Reach(k) && v < 32 ensures 0 < Step(c, v) < Reach(k + 1) {
      ShiftReach(c, v, k);
    }
    RunKeeps(Step, (k, c) => 0 < c < Reach(k), v => v < 32, c, e, j, 6);
    ReachGrows(j + |e|);
  }

  lemma ReachGrows(j: nat)
    ensures Reach(j) <= LIMIT
  {
  }

  // ---------------------------------------------------------------- checksum

  /** A human-readable part as UTF-16 code units. */
  predicate CodeUnits(hrp: seq<Bits>) { forall i :: 0 <= i < |hrp| ==> hrp[i] < 0x10000 }

  function UpperBits(unit: Bits): Bits { unit >> 5 }

  function LowerBits(unit: Bits): Bits { unit & 31 }

  /** `expandBech32Hrp`. */
  function ExpandHrp(hrp: seq<Bits>): seq<Bits> { Map(UpperBits, hrp) + [0] + Map(LowerBits, hrp) }

  /** `verifyBech32Checksum`. */
  predicate Verify(hrp: seq<Bits>, words: seq<Bits>) { Polymod(1, ExpandHrp(hrp) + words) == 1 }

  const SIX_ZEROS: seq<Bits> := [0, 0, 0, 0, 0, 0]

  /** The six words of a 30-bit value, most significant first. */
  function Unpack(p: Bits): seq<Bits> {
    Map(LowerBits, [p >> 25, p >> 20, p >> 15, p >> 10, p >> 5, p])
  }

  /** `createBech32Checksum`. */
  function Create(hrp: seq<Bits>, words: seq<Bits>): seq<Bits> {
    Unpack(Plus(Polymod(1, ExpandHrp(hrp) + words + SIX_ZEROS), 1))
  }

  lemma ExpandSmall(hrp: seq<Bits>)
    requires CodeUnits(hrp)
    ensures Small(ExpandHrp(hrp))
  {
    hide UpperBits, LowerBits;
    forall i | 0 <= i < |ExpandHrp(hrp)| ensures ExpandHrp(hrp)[i] < LIMIT {
      if i < |hrp| {
        assert ExpandHrp(hrp)[i] == UpperBits(hrp[i]);
        ShiftBound(hrp[i]);
      } else if i > |hrp| {
        assert ExpandHrp(hrp)[i] == LowerBits(hrp[i - |hrp| - 1]);
        ShiftBound(hrp[i - |hrp| - 1]);
      }
    }
  }

  lemma ShiftBound(c: Bits)
    requires c < 0x10000
    ensures UpperBits(c) < LIMIT && LowerBits(c) < LIMIT
  {
  }

  /** Six words pushed into the zero state come out as the value they were cut from. */
  lemma UnpackRoundTrip(p: Bits)
    requires p < LIMIT
    ensures |Unpack(p)| == 6 && Words(Unpack(p)) && Polymod(0, Unpack(p)) == p
  {
    hide Step;
    var u := Unpack(p);
    UnpackWords(p);
    var s1 := Step(0, u[0]);
    StepShifts(0, u[0]);
    var s2 := Step(s1, u[1]);
    StepShifts(s1, u[1]);
    var s3 := Step(s2, u[2]);
    StepShifts(s2, u[2]);
    var s4 := Step(s3, u[3]);
    StepShifts(s3, u[3]);
    var s5 := Step(s4, u[4]);
    StepShifts(s4, u[4]);
    StepShifts(s5, u[5]);
    Reassemble(p);
    RunSix(Step, 0, u);
  }

  lemma UnpackWords(p: Bits)
    ensures |Unpack(p)| == 6 && Words(Unpack(p))
  {
    hide LowerBits;
    forall i | 0 <= i < 6 ensures Unpack(p)[i] < 32 {
      LowerIsWord([p >> 25, p >> 20, p >> 15, p >> 10, p >> 5, p][i]);
    }
  }

  lemma LowerIsWord(c: Bits)
    ensures LowerBits(c) < 32
  {
  }

  /** Six steps of the fold, one at a time. */
  lemma RunSix<S, V>(step: (S, V) -> S, c: S, u: seq<V>)
    requires |u| == 6
    ensures Run(step, c, u) == step(step(step(step(step(step(c, u[0]), u[1]), u[2]), u[3]), u[4]), u[5])
  {
    RunSplit(step, c, u[..3], u[3..]);
    assert u == u[..3] + u[3..];
    RunThree(step, c, u[..3]);
    RunThree(step, Run(step, c, u[..3]), u[3..]);
  }

  lemma RunThree<S, V>(step: (S, V) -> S, c: S, u: seq<V>)
    requires |u| == 3
    ensures Run(step, c, u) == step(step(step(c, u[0]), u[1]), u[2])
  {
    RunSplit(step, c, [u[0]], [u[1], u[2]]);
    RunSplit(step, step(c, u[0]), [u[1]], [u[2]]);
    assert u == [u[0]] + [u[1], u[2]] && [u[1], u[2]] == [u[1]] + [u[2]];
    RunOne(step, c, u[0]);
    RunOne(step, step(c, u[0]), u[1]);
    RunOne(step, step(step(c, u[0]), u[1]), u[2]);
  }

  lemma RunOne<S, V>(step: (S, V) -> S, c: S, v: V)
    ensures Run(step, c, [v]) == step(c, v)
  {
    assert [v][1..] == [];
    assert Run(step, step(c, v), [v][1..]) == step(c, v);
  }

  lemma Reassemble(p: Bits)
    requires p < LIMIT
    ensures var s1 := ((0 as Bits) << 5) | ((p >> 25) & 31);
            var s2 := (s1 << 5) | ((p >> 20) & 31);
            var s3 := (s2 << 5) | ((p >> 15) & 31);
            var s4 := (s3 << 5) | ((p >> 10) & 31);
            var s5 := (s4 << 5) | ((p >> 5) & 31);
            && s1 < 0x2000000 && s2 < 0x2000000 && s3 < 0x2000000 && s4 < 0x2000000 && s5 < 0x2000000
            && (s5 << 5) | (p & 31) == p
  {
  }

  /** For every human-readable part and every payload, the created checksum verifies. */
  lemma CreatedChecksumVerifies(hrp: seq<Bits>, words: seq<Bits>)
    requires CodeUnits(hrp) && Words(words)
    ensures Words(Create(hrp, words)) && Verify(hrp, words + Create(hrp, words))
  {
    hide Plus, Step, Unpack, Run;
    var prefix := ExpandHrp(hrp) + words;
    var state := Polymod(1, prefix);
    ExpandSmall(hrp);
    assert Small(prefix);
    PolymodSmall(1, prefix);
    RunSplit(Step, 1, prefix, SIX_ZEROS);
    var sum := Create(hrp, words);
    CompletesToOne(state, sum);
    RunSplit(Step, 1, prefix, sum);
    assert ExpandHrp(hrp) + (words + sum) == prefix + sum;
  }

  /** From any state, the six words cut from its padded checksum lead to one. */
  lemma CompletesToOne(state: Bits, sum: seq<Bits>)
    requires state < LIMIT && sum == Unpack(Plus(Polymod(state, SIX_ZEROS), 1))
    ensures Words(sum) && Polymod(state, sum) == 1
  {
    hide Plus, Step, Unpack, Run;
    var q := Polymod(state, SIX_ZEROS);
    PolymodSmall(state, SIX_ZEROS);
    PlusOne(q);
    UnpackRoundTrip(Plus(q, 1));
    PolymodLinear(state, 0, SIX_ZEROS, sum);
    PlusZero(state);
    ZipZeros(sum);
  }

  lemma ZipZeros(sum: seq<Bits>)
    requires |sum| == 6
    ensures Zip(Plus, SIX_ZEROS, sum) == sum
  {
    hide Plus;
    forall i | 0 <= i < 6 ensures Plus(SIX_ZEROS[i], sum[i]) == sum[i] {
      PlusZero(sum[i]);
    }
  }

  lemma PlusOne(q: Bits)
    requires q < LIMIT
    ensures Plus(q, 1) < LIMIT && Plus(q, Plus(q, 1)) == 1
  {
  }

  // ---------------------------------------------------------------- burst errors

  /** Equal outside six consecutive positions. */
  predicate BurstApart(u: seq<Bits>, v: seq<Bits>, at: nat) {
    |u| == |v| && forall i :: 0 <= i < |u| && !(at <= i < at + 6) ==> u[i] == v[i]
  }

  lemma XorWord(a: Bits, b: Bits)
    requires a < 32 && b < 32
    ensures Plus(a, b) < 32 && (Plus(a, b) == 0 <==> a == b)
  {
  }

  /** The difference of two checksums is the checksum of the difference. */
  lemma DifferenceState(prefix: seq<Bits>, u: seq<Bits>, v: seq<Bits>)
    requires |u| == |v| && Polymod(1, prefix + u) == Polymod(1, prefix + v)
    ensures Polymod(0, Zip(Plus, u, v)) == 0
  {
    hide Plus, Step;
    var c := Polymod(1, prefix);
    RunSplit(Step, 1, prefix, u);
    RunSplit(Step, 1, prefix, v);
    PolymodLinear(c, c, u, v);
    PlusZero(c);
    PlusZero(Polymod(c, u));
  }

  /** The first position that is not zero. */
  lemma {:induction false} FirstNonzero(d: seq<Bits>) returns (k: nat)
    requires !Zeros(d)
    ensures k < |d| && d[k] != 0 && Zeros(d[..k])
  {
    if d[0] != 0 {
      k := 0;
    } else {
      var j := FirstNonzero(d[1..]);
      k := j + 1;
    }
  }

  /** A nonzero difference inside a window of six leaves a nonzero state, for any length. */
  lemma BurstState(d: seq<Bits>, at: nat)
    requires Words(d) && (forall i :: 0 <= i < |d| && !(at <= i < at + 6) ==> d[i] == 0) && !Zeros(d)
    ensures Polymod(0, d) != 0
  {
    hide Step, Run;
    var k := FirstNonzero(d);
    var stop := if at + 6 <= |d| then at + 6 else |d|;
    var before, rest, behind := d[..k], d[k + 1..stop], d[stop..];
    assert d == before + [d[k]] + rest + behind;
    ZerosKeepZero(before);
    StepFromZero(d[k]);
    RunPieces(Step, 0, before, d[k], rest, behind);
    WordsSlice(d, k + 1, stop);
    BurstKeepsNonzero(d[k], rest, 1);
    ZerosKeepNonzero(Polymod(d[k], rest), behind);
  }

  lemma WordsSlice(d: seq<Bits>, i: nat, j: nat)
    requires Words(d) && i <= j <= |d|
    ensures Words(d[i..j])
  {
    forall k | 0 <= k < j - i ensures d[i..j][k] < 32 {
      assert d[i..j][k] == d[i + k];
    }
  }

  lemma RunPieces<S, V>(step: (S, V) -> S, c: S, before: seq<V>, v: V, rest: seq<V>, behind: seq<V>)
    ensures Run(step, c, before + [v] + rest + behind) ==
              Run(step, Run(step, step(Run(step, c, before), v), rest), behind)
  {
    RunSplit(step, c, before + [v] + rest, behind);
    RunSplit(step, c, before + [v], rest);
    RunSplit(step, c, before, [v]);
    RunOne(step, Run(step, c, before), v);
  }

  /**
   Error detection: whatever the length, changing words within six consecutive positions of a valid
   sequence makes it invalid.
   */
  lemma BurstErrorDetected(hrp: seq<Bits>, u: seq<Bits>, v: seq<Bits>, at: nat)
    requires Words(u) && Words(v) && BurstApart(u, v, at) && u != v
    requires Verify(hrp, u)
    ensures !Verify(hrp, v)
  {
    hide Step, Plus, Run;
    var d := Zip(Plus, u, v);
    forall i | 0 <= i < |d| ensures d[i] < 32 && (d[i] == 0 <==> u[i] == v[i]) {
      XorWord(u[i], v[i]);
    }
    assert exists i :: 0 <= i < |u| && u[i] != v[i];
    BurstState(d, at);
    if Verify(hrp, v) {
      DifferenceState(ExpandHrp(hrp), u, v);
    }
  }
}
