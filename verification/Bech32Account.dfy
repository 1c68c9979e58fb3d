/**
 Account texts: 20 bytes regrouped into 32 five-bit words, six checksum words, and the prefix
 `torium1`.  Encoding and decoding are proved against one relation, `Encodes`.
 */
module Bech32Account {
  import opened Basics
  import opened Bech32Bits
  import opened StateFold
  import opened Bech32Checksum

  // ---------------------------------------------------------------- regrouping is its own converse

  lemma SmallPowers()
    ensures Pow2(0) == 1 && Pow2(5) == 32 && Pow2(8) == 256
  {
    assert Pow2(1) == 2;
    assert Pow2(2) == 4;
    assert Pow2(3) == 8;
    assert Pow2(4) == 16;
    assert Pow2(6) == 64;
    assert Pow2(7) == 128;
  }

  /** Two multiples of `d` less than `d` below the same bound are the same multiple. */
  lemma SameCount(a: int, b: int, d: int, n: int)
    requires 0 < d && 0 <= a * d - n < d && 0 <= b * d - n < d
    ensures a == b
  {
    if a < b {
      MulLe(a + 1, b, d);
    } else if b < a {
      MulLe(b + 1, a, d);
    }
  }

  lemma MulCancel(a: int, b: int, c: int)
    requires 0 < c && a * c == b * c
    ensures a == b
  {
    if a < b {
      MulLe(a + 1, b, c);
    } else if b < a {
      MulLe(b + 1, a, c);
    }
  }

  /** Padding has one result. */
  lemma PaddedUnique(values: seq<int>, from: nat, to: nat, r1: seq<int>, r2: seq<int>)
    requires 0 < to && RegroupsPadded(values, from, to, r1) && RegroupsPadded(values, from, to, r2)
    ensures r1 == r2
  {
    SameCount(|r1|, |r2|, to, |values| * from);
    NumberInjective(r1, r2, to);
  }

  /** Stripping has one result. */
  lemma ExactUnique(values: seq<int>, from: nat, to: nat, r1: seq<int>, r2: seq<int>)
    requires 0 < to && RegroupsExactly(values, from, to, r1) && RegroupsExactly(values, from, to, r2)
    ensures r1 == r2
  {
    var n := |values| * from - to + 1;
    SameCount(|r1|, |r2|, to, n);
    var pad := |values| * from - |r1| * to;
    MulCancel(Number(r1, to), Number(r2, to), Pow2(pad));
    NumberInjective(r1, r2, to);
  }

  /**
   Padding and then stripping gives the input back exactly when the padding is shorter than one input
   digit.  It always is when the output digits are not wider, as in the 8-to-5 encoding.
   */
  lemma PadThenStrip(values: seq<int>, from: nat, to: nat, padded: seq<int>)
    requires 0 < from && 0 < to && Digits(values, from) && RegroupsPadded(values, from, to, padded)
    ensures RegroupsExactly(padded, to, from, values) <==> |padded| * to - |values| * from < from
    ensures to <= from ==> |padded| * to - |values| * from < from
    ensures |padded| * to - |values| * from < from ==> CleanPadding(padded, to, from)
  {
    var pad := |padded| * to - |values| * from;
    if pad < from {
      LeftoverIs(|padded|, to, from, |values|, pad);
      ModUnique(Number(padded, to), Number(values, from), 0, Pow2(pad));
    }
  }

  /** Stripping and then padding gives the input back, always. */
  lemma StripThenPad(values: seq<int>, from: nat, to: nat, stripped: seq<int>, padded: seq<int>)
    requires 0 < from && 0 < to && Digits(values, from)
    requires RegroupsExactly(values, from, to, stripped) && RegroupsPadded(stripped, to, from, padded)
    ensures padded == values
  {
    assert RegroupsPadded(stripped, to, from, values);
    PaddedUnique(stripped, to, from, padded, values);
  }

  /** How many zero bits fill the last output digit. */
  function Filling(count: nat, from: nat, to: nat): nat
    requires 0 < to
  {
    (0 - count * from) % to
  }

  lemma FillingIs(count: nat, from: nat, to: nat, padded: nat)
    requires 0 < to && 0 <= padded * to - count * from < to
    ensures Filling(count, from, to) == padded * to - count * from
  {
    ModUnique(0 - count * from, 0 - padded, padded * to - count * from, to);
  }

  /**
   The two calls of `convertBits` in a row, there with padding and back without: the input comes back
   exactly if the filling is shorter than one input digit.  From 8 to 5 bits it always is.
   */
  method ThereAndBack(values: seq<int>, from: nat, to: nat) returns (back: Option<seq<int>>)
    requires 0 < from && 0 < to
    ensures back == Some(values) <==> Digits(values, from) && Filling(|values|, from, to) < from
    ensures Digits(values, from) && to <= from ==> back == Some(values)
  {
    hide RegroupsPadded, RegroupsExactly, CleanPadding, Filling;
    var padded := ConvertBits(values, from, to, true);
    if padded.None? {
      return None;
    }
    PaddedLength(values, from, to, padded.value);
    FillingIs(|values|, from, to, |padded.value|);
    PadThenStrip(values, from, to, padded.value);
    back := ConvertBits(padded.value, to, from, false);
    if back.Some? && RegroupsExactly(padded.value, to, from, values) {
      ExactUnique(padded.value, to, from, back.value, values);
    }
  }

  lemma PaddedLength(values: seq<int>, from: nat, to: nat, padded: seq<int>)
    requires RegroupsPadded(values, from, to, padded)
    ensures 0 <= |padded| * to - |values| * from < to
  {
  }

  /** And the other way round: whatever the strict direction accepts is rebuilt exactly. */
  method BackAndThere(values: seq<int>, from: nat, to: nat) returns (there: Option<seq<int>>)
    requires 0 < from && 0 < to
    ensures there == if CleanPadding(values, from, to) then Some(values) else None
  {
    hide RegroupsPadded, RegroupsExactly;
    var stripped := ConvertBits(values, from, to, false);
    if stripped.None? {
      return None;
    }
    StrippedDigits(values, from, to, stripped.value);
    there := ConvertBits(stripped.value, to, from, true);
    StripThenPad(values, from, to, stripped.value, there.value);
  }

  lemma StrippedDigits(values: seq<int>, from: nat, to: nat, stripped: seq<int>)
    requires RegroupsExactly(values, from, to, stripped)
    ensures Digits(stripped, to)
  {
  }

  // ---------------------------------------------------------------- the alphabet

  const ALPHABET: string := "qpzry9x8gf2tvdw0s3jn54khce6mua7l"

  predicate IsWord(w: int) { 0 <= w < 32 }

  predicate AreWords(ws: seq<int>) { forall i :: 0 <= i < |ws| ==> IsWord(ws[i]) }

  lemma WordsAreDigits(ws: seq<int>)
    ensures AreWords(ws) <==> Digits(ws, 5)
  {
    SmallPowers();
  }

  function Char(w: int): char
    requires IsWord(w)
  {
    ALPHABET[w]
  }

  lemma AlphabetDistinct(i: int, j: int)
    requires 0 <= i < j < 32
    ensures ALPHABET[i] != ALPHABET[j]
  {
  }

  predicate Lowercase(c: char) { 'a' <= c <= 'z' || '0' <= c <= '9' }

  lemma CharIsLowercase(w: int)
    requires IsWord(w)
    ensures Lowercase(Char(w))
  {
  }

  /** `bech32Alphabet.indexOf`. */
  method IndexOf(c: char) returns (w: int)
    ensures w == -1 || IsWord(w)
    ensures forall v :: IsWord(v) ==> (w == v <==> Char(v) == c)
  {
    w := 0;
    while w < |ALPHABET|
      invariant 0 <= w <= 32
      invariant forall v :: 0 <= v < w ==> Char(v) != c
    {
      if ALPHABET[w] == c {
        forall v | w < v < 32 ensures Char(v) != c {
          AlphabetDistinct(w, v);
        }
        return;
      }
      w := w + 1;
    }
    w := -1;
  }

  function Render(ws: seq<int>): (r: string)
    requires AreWords(ws)
    ensures |r| == |ws| && forall i :: 0 <= i < |ws| ==> r[i] == Char(ws[i])
  {
    seq(|ws|, i requires 0 <= i < |ws| => Char(ws[i]))
  }

  lemma RenderInjective(xs: seq<int>, ys: seq<int>)
    requires AreWords(xs) && AreWords(ys) && Render(xs) == Render(ys)
    ensures xs == ys
  {
    hide Char;
    assert |xs| == |Render(xs)| == |ys|;
    forall i | 0 <= i < |xs| ensures xs[i] == ys[i] {
      assert Render(xs)[i] == Render(ys)[i];
      CharInjective(xs[i], ys[i]);
    }
  }

  lemma CharInjective(v: int, w: int)
    requires IsWord(v) && IsWord(w) && Char(v) == Char(w)
    ensures v == w
  {
    if v < w {
      AlphabetDistinct(v, w);
    } else if w < v {
      AlphabetDistinct(w, v);
    }
  }

  // ---------------------------------------------------------------- numbers as 32-bit words

  function AsBits(w: int): Bits
    requires IsWord(w)
  {
    w as Bits
  }

  function AsInt(b: Bits): int { b as int }

  lemma WordIsSmall(w: int)
    requires IsWord(w)
    ensures AsBits(w) < 32
  {
  }

  lemma AsIntAsBits(w: int)
    requires IsWord(w)
    ensures AsInt(AsBits(w)) == w
  {
  }

  lemma IntRoundTrip(w: int)
    requires IsWord(w)
    ensures AsBits(w) < 32 && AsInt(AsBits(w)) == w
  {
    hide AsBits, AsInt;
    WordIsSmall(w);
    AsIntAsBits(w);
  }

  lemma BitsRoundTrip(b: Bits)
    requires b < 32
    ensures IsWord(AsInt(b)) && AsBits(AsInt(b)) == b
  {
  }

  function AllBits(ws: seq<int>): (r: seq<Bits>)
    requires AreWords(ws)
    ensures |r| == |ws| && forall i :: 0 <= i < |ws| ==> r[i] == AsBits(ws[i])
  {
    seq(|ws|, i requires 0 <= i < |ws| => AsBits(ws[i]))
  }

  lemma AllBitsAreWords(ws: seq<int>)
    requires AreWords(ws)
    ensures Words(AllBits(ws))
  {
    hide AsBits;
    forall i | 0 <= i < |ws| ensures AllBits(ws)[i] < 32 {
      IntRoundTrip(ws[i]);
    }
  }

  lemma AllBitsInjective(xs: seq<int>, ys: seq<int>)
    requires AreWords(xs) && AreWords(ys) && AllBits(xs) == AllBits(ys)
    ensures xs == ys
  {
    hide AsBits, AsInt;
    assert |xs| == |AllBits(xs)| == |ys|;
    forall i | 0 <= i < |xs| ensures xs[i] == ys[i] {
      assert AllBits(xs)[i] == AllBits(ys)[i];
      IntRoundTrip(xs[i]);
      IntRoundTrip(ys[i]);
    }
  }

  lemma AllBitsSplit(xs: seq<int>, ys: seq<int>)
    requires AreWords(xs) && AreWords(ys)
    ensures AreWords(xs + ys) && AllBits(xs + ys) == AllBits(xs) + AllBits(ys)
  {
    hide AsBits;
  }

  /** The character codes of `torium`. */
  const TORIUM: seq<Bits> := [116, 111, 114, 105, 117, 109]

  /** The six checksum words of a payload, as numbers. */
  function ChecksumWords(words: seq<int>): (r: seq<int>)
    requires AreWords(words)
  {
    Map(AsInt, Create(TORIUM, AllBits(words)))
  }

  lemma ToriumCodes()
    ensures CodeUnits(TORIUM)
  {
  }

  /** A payload with its checksum verifies, and no other six words complete it. */
  lemma ChecksumIsTheOnlyOne(words: seq<int>, sum: seq<int>)
    requires AreWords(words) && AreWords(sum) && |sum| == 6
    ensures AreWords(ChecksumWords(words)) && |ChecksumWords(words)| == 6
    ensures Verify(TORIUM, AllBits(words + sum)) <==> sum == ChecksumWords(words)
  {
    hide Verify, AsInt, AsBits, Create, TORIUM, BurstApart;
    var w := AllBits(words);
    var created := Create(TORIUM, w);
    ToriumCodes();
    AllBitsAreWords(words);
    CreatedChecksumVerifies(TORIUM, w);
    CreatedLength(TORIUM, w);
    ChecksumBits(words);
    AllBitsSplit(words, sum);
    if Verify(TORIUM, AllBits(words + sum)) {
      SameChecksum(TORIUM, w, created, AllBits(sum), sum);
      AllBitsInjective(sum, ChecksumWords(words));
    }
  }

  lemma SameChecksum(hrp: seq<Bits>, w: seq<Bits>, created: seq<Bits>, other: seq<Bits>, sum: seq<int>)
    requires Words(w) && Words(created) && |created| == 6 == |other| && AreWords(sum) && other == AllBits(sum)
    requires Verify(hrp, w + created) && Verify(hrp, w + other)
    ensures other == created
  {
    hide Verify, AsBits;
    AllBitsAreWords(sum);
    if other != created {
      var u, v := w + created, w + other;
      assert u[|w|..] == created && v[|w|..] == other;
      assert BurstApart(u, v, |w|);
      BurstErrorDetected(hrp, u, v, |w|);
      assert false;
    }
  }

  lemma CreatedLength(hrp: seq<Bits>, w: seq<Bits>)
    ensures |Create(hrp, w)| == 6
  {
    UnpackWords(Plus(Polymod(1, ExpandHrp(hrp) + w + SIX_ZEROS), 1));
  }

  lemma ChecksumBits(words: seq<int>)
    requires AreWords(words) && Words(Create(TORIUM, AllBits(words)))
    ensures AreWords(ChecksumWords(words)) && AllBits(ChecksumWords(words)) == Create(TORIUM, AllBits(words))
  {
    hide AsInt, AsBits, Create;
    var created := Create(TORIUM, AllBits(words));
    forall i | 0 <= i < |created|
      ensures IsWord(ChecksumWords(words)[i]) && AsBits(ChecksumWords(words)[i]) == created[i]
    {
      BitsRoundTrip(created[i]);
    }
  }

  // ---------------------------------------------------------------- accounts

  predicate IsAddress(bytes: seq<int>) { |bytes| == 20 && Digits(bytes, 8) }

  const PREFIX: string := "torium1"

  /** The text of a payload: prefix, payload characters, checksum characters. */
  function TextOf(words: seq<int>): string
    requires AreWords(words) && AreWords(ChecksumWords(words))
  {
    PREFIX + Render(words + ChecksumWords(words))
  }

  /** `text` is the account text of `bytes`. */
  ghost predicate Encodes(bytes: seq<int>, text: string) {
    IsAddress(bytes) && exists words :: IsPayload(bytes, words) && text == TextOf(words)
  }

  /** The 32 words of 20 bytes. */
  predicate IsPayload(bytes: seq<int>, words: seq<int>) {
    RegroupsPadded(bytes, 8, 5, words) && AreWords(words) && AreWords(ChecksumWords(words))
  }

  /** 160 bits fill 32 words: there is no padding either way. */
  lemma PayloadLength(bytes: seq<int>, words: seq<int>)
    requires |bytes| == 20 && RegroupsPadded(bytes, 8, 5, words)
    ensures |words| == 32
  {
  }

  lemma PayloadWords(bytes: seq<int>, words: seq<int>)
    requires RegroupsPadded(bytes, 8, 5, words)
    ensures IsPayload(bytes, words) && |ChecksumWords(words)| == 6
  {
    hide ChecksumWords, Verify;
    WordsAreDigits(words);
    ChecksumIsTheOnlyOne(words, [0, 0, 0, 0, 0, 0]);
  }

  /** `createBech32Checksum` for the account prefix. */
  method CreateChecksum(words: seq<int>) returns (sum: seq<int>)
    requires AreWords(words)
    ensures sum == ChecksumWords(words)
  {
    hide Unpack, AllBits;
    var polymod := ComputePolymod(ExpandHrp(TORIUM) + AllBits(words) + SIX_ZEROS);
    sum := Map(AsInt, Unpack(polymod ^ 1));
  }

  method EncodeAccount(bytes: seq<int>) returns (r: Option<string>)
    requires Digits(bytes, 8)
    ensures r.Some? <==> |bytes| == 20
    ensures r.Some? ==> Encodes(bytes, r.value) && |r.value| == 45
  {
    hide ChecksumWords, Verify, RegroupsPadded, Render;
    if |bytes| != 20 {
      return None;
    }
    var words := ConvertBits(bytes, 8, 5, true);
    PayloadWords(bytes, words.value);
    PayloadLength(bytes, words.value);
    RenderLength(words.value + ChecksumWords(words.value));
    var sum := CreateChecksum(words.value);
    return Some(PREFIX + Render(words.value + sum));
  }

  /** Lower-casing leaves ASCII lower-case letters and digits alone. */
  ghost predicate KeepsLowercase(lower: string -> string) {
    forall s :: (forall i :: 0 <= i < |s| ==> Lowercase(s[i])) ==> lower(s) == s
  }

  /** `[...payload].map(indexOf)` with the `some(word < 0)` test. */
  method ReadWords(payload: string) returns (words: Option<seq<int>>)
    ensures words.Some? ==> AreWords(words.value) && Render(words.value) == payload
    ensures words.None? ==> forall ws :: AreWords(ws) ==> Render(ws) != payload
  {
    hide Char;
    var ws: seq<int> := [];
    var i := 0;
    while i < |payload|
      invariant 0 <= i <= |payload| && |ws| == i && AreWords(ws)
      invariant forall k :: 0 <= k < i ==> Char(ws[k]) == payload[k]
    {
      var w := IndexOf(payload[i]);
      if w < 0 {
        forall other | AreWords(other) ensures Render(other) != payload {
          if |other| == |payload| {
            assert Render(other)[i] == Char(other[i]);
          }
        }
        return None;
      }
      ws := ws + [w];
      i := i + 1;
    }
    assert Render(ws) == payload;
    return Some(ws);
  }

  /** What the checks after the alphabet decide. */
  lemma AcceptedExactly(value: string, all: seq<int>, bytes: seq<int>)
    requires |value| == 45 && PREFIX <= value && AreWords(all) && Render(all) == value[7..]
    requires IsAddress(bytes)
    ensures Encodes(bytes, value) <==> Verify(TORIUM, AllBits(all)) && RegroupsExactly(all[..32], 5, 8, bytes)
  {
    hide *;
    RenderLength(all);
    var words, sum := all[..32], all[32..];
    assert all == words + sum;
    AreWordsParts(all);
    ChecksumIsTheOnlyOne(words, sum);
    WordsAreDigits(words);
    SameRegrouping(bytes, words);
    if Encodes(bytes, value) {
      EncodedParts(value, all, bytes);
    }
    if sum == ChecksumWords(words) && RegroupsPadded(bytes, 8, 5, words) {
      PartsEncode(value, all, bytes);
    }
  }

  lemma AreWordsParts(all: seq<int>)
    requires AreWords(all) && |all| == 38
    ensures AreWords(all[..32]) && AreWords(all[32..])
  {
  }

  lemma EncodedParts(value: string, all: seq<int>, bytes: seq<int>)
    requires |all| == 38 && AreWords(all) && |value| == 45 && Render(all) == value[7..] && Encodes(bytes, value)
    ensures RegroupsPadded(bytes, 8, 5, all[..32]) && all[32..] == ChecksumWords(all[..32])
  {
    hide ChecksumWords, Render, RegroupsPadded;
    var ws :| IsPayload(bytes, ws) && value == TextOf(ws);
    PayloadLength(bytes, ws);
    assert value[7..] == Render(ws + ChecksumWords(ws));
    RenderInjective(all, ws + ChecksumWords(ws));
    assert ws == all[..32];
  }

  lemma PartsEncode(value: string, all: seq<int>, bytes: seq<int>)
    requires |all| == 38 && AreWords(all) && |value| == 45 && PREFIX <= value && Render(all) == value[7..]
    requires IsAddress(bytes) && RegroupsPadded(bytes, 8, 5, all[..32]) && all[32..] == ChecksumWords(all[..32])
    ensures Encodes(bytes, value)
  {
    hide ChecksumWords, Render, RegroupsPadded;
    assert all == all[..32] + all[32..];
    assert IsPayload(bytes, all[..32]);
    assert value == PREFIX + value[7..];
    assert value == TextOf(all[..32]);
  }

  /** For 20 bytes and 32 words the two directions of regrouping are the same relation. */
  lemma SameRegrouping(bytes: seq<int>, words: seq<int>)
    requires IsAddress(bytes) && |words| == 32 && Digits(words, 5)
    ensures RegroupsPadded(bytes, 8, 5, words) <==> RegroupsExactly(words, 5, 8, bytes)
  {
    SmallPowers();
  }

  /** Exactly the texts that encode an address are decoded, each to the address it encodes. */
  method DecodeAccount(value: string, lower: string -> string) returns (r: Option<seq<int>>)
    requires KeepsLowercase(lower)
    ensures forall bytes :: r == Some(bytes) <==> Encodes(bytes, value)
  {
    hide Verify, ChecksumWords, Render, RegroupsPadded, RegroupsExactly, CleanPadding, Encodes, AllBits, KeepsLowercase;
    if |value| != 45 || value != lower(value) || !(PREFIX <= value) {
      forall bytes ensures !Encodes(bytes, value) {
        if Encodes(bytes, value) {
          EncodedShape(bytes, value, lower);
        }
      }
      return None;
    }
    var payload := value[7..];
    var words := ReadWords(payload);
    if words.None? {
      forall bytes ensures !Encodes(bytes, value) {
        NotRendered(bytes, value);
      }
      return None;
    }
    var all := words.value;
    RenderLength(all);
    var check := ComputePolymod(ExpandHrp(TORIUM) + AllBits(all));
    if check != 1 {
      forall bytes ensures !Encodes(bytes, value) {
        NotVerified(value, all, bytes);
      }
      return None;
    }
    assert Verify(TORIUM, AllBits(all)) by { VerifiedBy(all, check); }
    var bytes := ConvertBits(all[..32], 5, 8, false);
    AreWordsParts(all);
    WordsAreDigits(all[..32]);
    ChecksummedTextAlwaysDecodes(all[..32], bytes);
    if bytes.None? || |bytes.value| != 20 {
      assert false;
    }
    DecodedIs(value, all, bytes.value);
    return bytes;
  }

  lemma VerifiedBy(all: seq<int>, check: Bits)
    requires AreWords(all) && check == 1 == Polymod(1, ExpandHrp(TORIUM) + AllBits(all))
    ensures Verify(TORIUM, AllBits(all))
  {
  }

  lemma RenderLength(ws: seq<int>)
    requires AreWords(ws)
    ensures |Render(ws)| == |ws|
  {
  }

  lemma EncodedShape(bytes: seq<int>, value: string, lower: string -> string)
    requires Encodes(bytes, value) && KeepsLowercase(lower)
    ensures |value| == 45 && PREFIX <= value && lower(value) == value
    ensures exists ws :: AreWords(ws) && Render(ws) == value[7..]
  {
    hide ChecksumWords, RegroupsPadded, Verify, Char, Lowercase;
    var words :| IsPayload(bytes, words) && value == TextOf(words);
    PayloadLength(bytes, words);
    PayloadWords(bytes, words);
    var all := words + ChecksumWords(words);
    assert value[7..] == Render(all);
    forall i | 0 <= i < |value| ensures Lowercase(value[i]) {
      if i < 7 {
        PrefixIsLowercase(i);
      } else {
        CharIsLowercase(all[i - 7]);
      }
    }
  }

  lemma PrefixIsLowercase(i: nat)
    requires i < 7
    ensures Lowercase(PREFIX[i])
  {
  }

  lemma NotRendered(bytes: seq<int>, value: string)
    requires |value| >= 7 && forall ws :: AreWords(ws) ==> Render(ws) != value[7..]
    ensures !Encodes(bytes, value)
  {
    if Encodes(bytes, value) {
      EncodedShape(bytes, value, s => s);
    }
  }

  lemma NotVerified(value: string, all: seq<int>, bytes: seq<int>)
    requires |value| == 45 && PREFIX <= value && AreWords(all) && Render(all) == value[7..]
    requires Polymod(1, ExpandHrp(TORIUM) + AllBits(all)) != 1
    ensures !Encodes(bytes, value)
  {
    hide Encodes, Polymod, ExpandHrp, AllBits, Render, RegroupsExactly;
    if Encodes(bytes, value) {
      EncodedAddress(bytes, value);
      AcceptedExactly(value, all, bytes);
    }
  }

  lemma EncodedAddress(bytes: seq<int>, value: string)
    requires Encodes(bytes, value)
    ensures IsAddress(bytes)
  {
  }

  /** 32 words are 160 bits: the padding and length checks after the checksum never fail. */
  lemma ChecksummedTextAlwaysDecodes(words: seq<int>, r: Option<seq<int>>)
    requires |words| == 32 && Digits(words, 5)
    requires r.Some? <==> CleanPadding(words, 5, 8)
    requires r.Some? ==> RegroupsExactly(words, 5, 8, r.value)
    ensures r.Some? && |r.value| == 20
  {
    LeftoverIs(32, 5, 8, 20, 0);
    SmallPowers();
  }

  lemma DecodedIs(value: string, all: seq<int>, bytes: seq<int>)
    requires |value| == 45 && PREFIX <= value && AreWords(all) && |all| == 38 && Render(all) == value[7..]
    requires Verify(TORIUM, AllBits(all)) && RegroupsExactly(all[..32], 5, 8, bytes) && |bytes| == 20
    ensures forall b :: Some(bytes) == Some(b) <==> Encodes(b, value)
  {
    hide Encodes, Verify, AllBits, Render, RegroupsPadded;
    AcceptedExactly(value, all, bytes);
    forall b | Encodes(b, value) ensures b == bytes {
      EncodedAddress(b, value);
      AcceptedExactly(value, all, b);
      ExactUnique(all[..32], 5, 8, b, bytes);
    }
  }

  /** Every address has one text and every text at most one address. */
  lemma EncodingIsOneToOne(b1: seq<int>, t1: string, b2: seq<int>, t2: string)
    requires Encodes(b1, t1) && Encodes(b2, t2)
    ensures b1 == b2 <==> t1 == t2
  {
    hide ChecksumWords, Render, RegroupsPadded, RegroupsExactly;
    var w1 :| IsPayload(b1, w1) && t1 == TextOf(w1);
    var w2 :| IsPayload(b2, w2) && t2 == TextOf(w2);
    if b1 == b2 {
      PaddedUnique(b1, 8, 5, w1, w2);
    }
    if t1 == t2 {
      PayloadLength(b1, w1);
      PayloadLength(b2, w2);
      var a1, a2 := w1 + ChecksumWords(w1), w2 + ChecksumWords(w2);
      assert t1[7..] == Render(a1) && t2[7..] == Render(a2);
      RenderInjective(a1, a2);
      assert a1[..32] == w1 && a2[..32] == w2;
      WordsAreDigits(w1);
      SameRegrouping(b1, w1);
      SameRegrouping(b2, w1);
      ExactUnique(w1, 5, 8, b1, b2);
    }
  }

  /** Mistyping a text anywhere within six consecutive characters never gives another account text. */
  lemma MistypedTextIsRejected(bytes: seq<int>, text: string, other: seq<int>, typed: string, at: nat)
    requires Encodes(bytes, text) && typed != text && |typed| == |text|
    requires forall i :: 0 <= i < |text| && !(at <= i < at + 6) ==> typed[i] == text[i]
    ensures !Encodes(other, typed)
  {
    if Encodes(other, typed) {
      hide Encodes, Render, Verify, AllBits, RegroupsExactly;
      EncodedShape(bytes, text, s => s);
      EncodedShape(other, typed, s => s);
      EncodedAddress(bytes, text);
      EncodedAddress(other, typed);
      var u :| AreWords(u) && Render(u) == text[7..];
      var v :| AreWords(v) && Render(v) == typed[7..];
      AcceptedExactly(text, u, bytes);
      AcceptedExactly(typed, v, other);
      assert text == PREFIX + text[7..] && typed == PREFIX + typed[7..];
      RenderedBurst(u, v, text, typed, at);
      BurstErrorDetected(TORIUM, AllBits(u), AllBits(v), if at < 7 then 0 else at - 7);
      assert false;
    }
  }

  lemma RenderedBurst(u: seq<int>, v: seq<int>, text: string, typed: string, at: nat)
    requires AreWords(u) && AreWords(v) && |text| == |typed| == 45 && text != typed
    requires Render(u) == text[7..] && Render(v) == typed[7..] && text[..7] == typed[..7]
    requires forall i :: 0 <= i < |text| && !(at <= i < at + 6) ==> typed[i] == text[i]
    ensures AllBits(u) != AllBits(v) && Words(AllBits(u)) && Words(AllBits(v))
    ensures BurstApart(AllBits(u), AllBits(v), if at < 7 then 0 else at - 7)
  {
    hide Char, AsBits;
    AllBitsAreWords(u);
    AllBitsAreWords(v);
    assert text == text[..7] + text[7..] && typed == typed[..7] + typed[7..];
    if AllBits(u) == AllBits(v) {
      AllBitsInjective(u, v);
      assert false;
    }
    forall i | 0 <= i < |u| && text[7 + i] == typed[7 + i] ensures u[i] == v[i] {
      assert Render(u)[i] == Render(v)[i];
      CharInjective(u[i], v[i]);
    }
  }
}
