/**
 Regrouping a digit sequence from one power-of-two base to another, as `convertBits` does with a
 masked accumulator.  The specification is the number the digits denote: padding multiplies it by a
 power of two smaller than one output digit, and nothing else changes.
 */
module Bech32Bits {
  import opened Basics

  // ---------------------------------------------------------------- integer arithmetic

  lemma MulLe(a: int, b: int, c: int)
    requires a <= b && 0 <= c
    ensures a * c <= b * c
  {
  }

  lemma Distribute(h: int, c: int, l: int, b: int, v: int)
    ensures (h * c + l) * b + v == h * (c * b) + (l * b + v)
  {
  }

  lemma Below(l: int, c: int, v: int, b: int)
    requires 0 <= l < c && 0 <= v < b
    ensures 0 <= l * b + v < c * b
  {
    MulLe(0, l, b);
    MulLe(l + 1, c, b);
    assert (l + 1) * b == l * b + b;
  }

  lemma QuotientUnique(m: int, x: int, n: int, y: int, q: int)
    requires 0 <= x < q && 0 <= y < q && m * q + x == n * q + y
    ensures m == n && x == y
  {
    MulGap(m, n, q);
    MulGap(n, m, q);
  }

  lemma MulGap(m: int, n: int, q: int)
    requires 0 < q
    ensures m < n ==> m * q + q <= n * q
  {
    if m < n {
      MulLe(m + 1, n, q);
      assert (m + 1) * q == m * q + q;
    }
  }

  lemma ModUnique(n: int, q: int, r: int, d: int)
    requires 0 <= r < d && n == q * d + r
    ensures n % d == r && n / d == q
  {
    DivMod(n, d);
    QuotientUnique(n / d, n % d, q, r, d);
  }

  lemma DivMod(n: int, d: int)
    requires 0 < d
    ensures n == (n / d) * d + n % d && 0 <= n % d < d
  {
  }

  lemma MulPositive(a: int, b: int)
    requires 0 < a && 0 < b
    ensures 0 < a * b
  {
  }

  lemma ModOfMod(n: int, a: int, b: int)
    requires 0 < a && 0 < b
    ensures 0 < a * b && (n % (a * b)) % a == n % a
  {
    MulPositive(a, b);
    DivMod(n, a * b);
    var q, r := n / (a * b), n % (a * b);
    DivMod(r, a);
    assert n == (q * b + r / a) * a + r % a by {
      assert q * (a * b) == q * b * a;
      assert (q * b + r / a) * a == q * b * a + (r / a) * a;
    }
    ModUnique(n, q * b + r / a, r % a, a);
  }

  /** A number below `c * b` split by `b`, with a high part above it. */
  lemma LowPart(acc: int, c: int, b: int, v: int)
    requires 0 < c && 0 <= v < b
    ensures 0 < c * b && (acc * b + v) % (c * b) == (acc % c) * b + v
  {
    MulPositive(c, b);
    DivMod(acc, c);
    Distribute(acc / c, c, acc % c, b, v);
    Below(acc % c, c, v, b);
    ModUnique(acc * b + v, acc / c, (acc % c) * b + v, c * b);
  }

  /** The low `p * q` part is the next digit times `p` plus the low `p` part. */
  lemma DigitSplit(acc: int, p: int, q: int)
    requires 0 < p && 0 < q
    ensures 0 < p * q && acc % (p * q) == ((acc / p) % q) * p + acc % p
  {
    DivMod(acc, p);
    LowPart(acc / p, q, p, acc % p);
    assert q * p == p * q;
  }

  /** Shifting up keeps only the low part. */
  lemma LiftLow(acc: int, p: int, q: int)
    requires 0 < p && 0 < q
    ensures 0 < p * q && (acc * q) % (p * q) == (acc % p) * q
  {
    LowPart(acc, p, q, 0);
  }

  // ---------------------------------------------------------------- powers and digits

  lemma {:induction false} Pow2Add(a: nat, b: nat)
    ensures Pow2(a + b) == Pow2(a) * Pow2(b)
  {
    if a == 0 {
    } else {
      Pow2Add(a - 1, b);
    }
  }

  /** Every digit fits in `bits` bits. */
  predicate Digits(xs: seq<int>, bits: nat) {
    forall i :: 0 <= i < |xs| ==> 0 <= xs[i] < Pow2(bits)
  }

  /** The number a big-endian digit sequence denotes. */
  function Number(xs: seq<int>, bits: nat): int {
    if xs == [] then 0 else Number(xs[..|xs| - 1], bits) * Pow2(bits) + xs[|xs| - 1]
  }

  lemma NumberAppend(xs: seq<int>, x: int, bits: nat)
    ensures Number(xs + [x], bits) == Number(xs, bits) * Pow2(bits) + x
  {
    assert (xs + [x])[..|xs|] == xs;
  }

  /** Digits are determined by their number and their count. */
  lemma {:induction false} NumberInjective(xs: seq<int>, ys: seq<int>, bits: nat)
    requires Digits(xs, bits) && Digits(ys, bits) && |xs| == |ys| && Number(xs, bits) == Number(ys, bits)
    ensures xs == ys
  {
    if xs == [] {
    } else {
      var a, x, b, y := xs[..|xs| - 1], xs[|xs| - 1], ys[..|ys| - 1], ys[|ys| - 1];
      QuotientUnique(Number(a, bits), x, Number(b, bits), y, Pow2(bits));
      NumberInjective(a, b, bits);
      assert xs == a + [x] && ys == b + [y];
    }
  }

  // ---------------------------------------------------------------- the accumulator

  /**
   The digits read so far denote `n`: the digits written denote its high part and the low `count`
   bits of the accumulator the rest.  Higher accumulator bits are leftovers that the mask may drop.
   */
  predicate Holds(n: int, written: seq<int>, to: nat, accumulator: int, count: nat) {
    n == Number(written, to) * Pow2(count) + accumulator % Pow2(count)
  }

  /** `((accumulator << from) | value) & maximumAccumulator`. */
  function Shifted(accumulator: int, value: int, from: nat, to: nat): int
    requires 0 < from
  {
    (accumulator * Pow2(from) + value) % Pow2(from + to - 1)
  }

  /** The mask keeps every bit that is still to be written. */
  lemma ShiftHolds(n: int, written: seq<int>, accumulator: int, value: int, count: nat, from: nat, to: nat)
    requires 0 < from && count < to && 0 <= value < Pow2(from) && Holds(n, written, to, accumulator, count)
    ensures Holds(n * Pow2(from) + value, written, to, Shifted(accumulator, value, from, to), count + from)
  {
    var raw, c, b := accumulator * Pow2(from) + value, Pow2(count), Pow2(from);
    Pow2Add(count, from);
    Pow2Add(count + from, to - 1 - count);
    ModOfMod(raw, Pow2(count + from), Pow2(to - 1 - count));
    LowPart(accumulator, c, b, value);
    Distribute(Number(written, to), c, accumulator % c, b, value);
  }

  /** `(accumulator >>> left) & maximumOutput`. */
  function Emitted(accumulator: int, left: nat, to: nat): int { (accumulator / Pow2(left)) % Pow2(to) }

  lemma EmitHolds(n: int, written: seq<int>, accumulator: int, left: nat, to: nat)
    requires Holds(n, written, to, accumulator, left + to) && Digits(written, to)
    ensures Holds(n, written + [Emitted(accumulator, left, to)], to, accumulator, left)
    ensures Digits(written + [Emitted(accumulator, left, to)], to)
  {
    var p, q, out := Pow2(left), Pow2(to), Emitted(accumulator, left, to);
    Pow2Add(left, to);
    DigitSplit(accumulator, p, q);
    DivMod(accumulator / p, q);
    NumberAppend(written, out, to);
    Distribute(Number(written, to), q, out, p, accumulator % p);
    assert q * p == p * q;
  }

  /** `(accumulator << (to - count)) & maximumOutput`. */
  function PadDigit(accumulator: int, count: nat, to: nat): int
    requires count <= to
  {
    (accumulator * Pow2(to - count)) % Pow2(to)
  }

  lemma PadDigitIs(accumulator: int, count: nat, to: nat)
    requires count <= to
    ensures PadDigit(accumulator, count, to) == (accumulator % Pow2(count)) * Pow2(to - count)
    ensures 0 <= PadDigit(accumulator, count, to) < Pow2(to)
  {
    Pow2Add(count, to - count);
    LiftLow(accumulator, Pow2(count), Pow2(to - count));
    DivMod(accumulator * Pow2(to - count), Pow2(to));
  }

  lemma PadHolds(n: int, written: seq<int>, accumulator: int, count: nat, to: nat)
    requires count <= to && Holds(n, written, to, accumulator, count) && Digits(written, to)
    ensures Digits(written + [PadDigit(accumulator, count, to)], to)
    ensures Number(written + [PadDigit(accumulator, count, to)], to) == n * Pow2(to - count)
  {
    var c, b := Pow2(count), Pow2(to - count);
    PadDigitIs(accumulator, count, to);
    NumberAppend(written, PadDigit(accumulator, count, to), to);
    Pow2Add(count, to - count);
    Distribute(Number(written, to), c, accumulator % c, b, 0);
  }

  /** The padding test sees exactly whether the number is a multiple of the leftover power. */
  lemma PadTest(n: int, written: seq<int>, accumulator: int, count: nat, to: nat)
    requires count <= to && Holds(n, written, to, accumulator, count)
    ensures PadDigit(accumulator, count, to) == 0 <==> n % Pow2(count) == 0
    ensures n % Pow2(count) == 0 ==> n == Number(written, to) * Pow2(count)
  {
    var low := accumulator % Pow2(count);
    PadDigitIs(accumulator, count, to);
    DivMod(accumulator, Pow2(count));
    ModUnique(n, Number(written, to), low, Pow2(count));
    if low > 0 {
      MulPositive(low, Pow2(to - count));
    }
  }

  // ---------------------------------------------------------------- convertBits

  /** The bits left over when `count` digits of `from` bits fill digits of `to` bits. */
  function Leftover(count: nat, from: nat, to: nat): nat
    requires 0 < to
  {
    (count * from) % to
  }

  lemma LeftoverIs(count: nat, from: nat, to: nat, written: nat, left: nat)
    requires 0 < to && written * to + left == count * from && left < to
    ensures Leftover(count, from, to) == left
  {
    ModUnique(count * from, written, left, to);
  }

  /** `result` denotes the number of `values`, shifted up to fill its last digit. */
  predicate RegroupsPadded(values: seq<int>, from: nat, to: nat, result: seq<int>) {
    && Digits(result, to)
    && 0 <= |result| * to - |values| * from < to
    && Number(result, to) == Number(values, from) * Pow2(|result| * to - |values| * from)
  }

  /** `result` denotes the number of `values` without its zero padding, less than one input digit. */
  predicate RegroupsExactly(values: seq<int>, from: nat, to: nat, result: seq<int>) {
    && Digits(result, to)
    && 0 <= |values| * from - |result| * to < to
    && |values| * from - |result| * to < from
    && Number(values, from) == Number(result, to) * Pow2(|values| * from - |result| * to)
  }

  /** When the strict direction accepts its input. */
  predicate CleanPadding(values: seq<int>, from: nat, to: nat)
    requires 0 < to
  {
    && Digits(values, from)
    && Leftover(|values|, from, to) < from
    && Number(values, from) % Pow2(Leftover(|values|, from, to)) == 0
  }

  /** How many bits `count` digits hold. */
  function Width(count: nat, bits: nat): nat { count * bits }

  lemma WidthNext(count: nat, bits: nat)
    ensures Width(count + 1, bits) == Width(count, bits) + bits
  {
  }

  /** The inner loop: write full digits while the accumulator holds one. */
  method WriteFull(accumulator: int, count: nat, toBits: nat, result: seq<int>, ghost n: int)
    returns (left: nat, written: seq<int>)
    requires 0 < toBits && Digits(result, toBits) && Holds(n, result, toBits, accumulator, count)
    ensures left < toBits && Digits(written, toBits) && Holds(n, written, toBits, accumulator, left)
    ensures Width(|written|, toBits) + left == Width(|result|, toBits) + count
  {
    left, written := count, result;
    while left >= toBits
      invariant Digits(written, toBits) && Holds(n, written, toBits, accumulator, left)
      invariant Width(|written|, toBits) + left == Width(|result|, toBits) + count
    {
      left := left - toBits;
      EmitHolds(n, written, accumulator, left, toBits);
      WidthNext(|written|, toBits);
      written := written + [Emitted(accumulator, left, toBits)];
    }
  }

  /** The loop over the input: `None` at the first digit that is out of range. */
  method ReadAll(values: seq<int>, fromBits: nat, toBits: nat)
    returns (ok: bool, accumulator: int, bitCount: nat, result: seq<int>)
    requires 0 < fromBits && 0 < toBits
    ensures ok <==> Digits(values, fromBits)
    ensures ok ==>
      && bitCount < toBits && Digits(result, toBits)
      && Width(|result|, toBits) + bitCount == Width(|values|, fromBits)
      && Holds(Number(values, fromBits), result, toBits, accumulator, bitCount)
  {
    accumulator, bitCount, result := 0, 0, [];
    var i := 0;
    while i < |values|
      invariant 0 <= i <= |values| && bitCount < toBits
      invariant Digits(values[..i], fromBits) && Digits(result, toBits)
      invariant Width(|result|, toBits) + bitCount == Width(i, fromBits)
      invariant Holds(Number(values[..i], fromBits), result, toBits, accumulator, bitCount)
    {
      var value := values[i];
      if value < 0 || value >= Pow2(fromBits) {
        ok := false;
        return;
      }
      ShiftHolds(Number(values[..i], fromBits), result, accumulator, value, bitCount, fromBits, toBits);
      NumberAppend(values[..i], value, fromBits);
      WidthNext(i, fromBits);
      assert values[..i + 1] == values[..i] + [value];
      accumulator := Shifted(accumulator, value, fromBits, toBits);
      bitCount, result := WriteFull(accumulator, bitCount + fromBits, toBits, result,
          Number(values[..i + 1], fromBits));
      i := i + 1;
    }
    assert values[..i] == values;
    ok := true;
  }

  /** `convertBits`; `None` is the thrown `TypeError`. */
  method ConvertBits(values: seq<int>, fromBits: nat, toBits: nat, pad: bool) returns (r: Option<seq<int>>)
    requires 0 < fromBits && 0 < toBits
    ensures pad ==> (r.Some? <==> Digits(values, fromBits))
    ensures pad && r.Some? ==> RegroupsPadded(values, fromBits, toBits, r.value)
    ensures !pad ==> (r.Some? <==> CleanPadding(values, fromBits, toBits))
    ensures !pad && r.Some? ==> RegroupsExactly(values, fromBits, toBits, r.value)
  {
    var ok, accumulator, bitCount, result := ReadAll(values, fromBits, toBits);
    if !ok {
      return None;
    }
    if pad {
      if bitCount > 0 {
        PadHolds(Number(values, fromBits), result, accumulator, bitCount, toBits);
        WidthNext(|result|, toBits);
        result := result + [PadDigit(accumulator, bitCount, toBits)];
      }
      return Some(result);
    }
    LeftoverIs(|values|, fromBits, toBits, |result|, bitCount);
    PadTest(Number(values, fromBits), result, accumulator, bitCount, toBits);
    if bitCount >= fromBits || PadDigit(accumulator, bitCount, toBits) != 0 {
      return None;
    }
    return Some(result);
  }
}
