/** The text of a scoped idempotency key: address, UTC day and client key, joined by bars. */
module ScopedKeys {
  import opened FaucetEvents

  const HEX: string := "0123456789abcdef"

  /** The `n` lowest hexadecimal digits of a number. */
  function HexDigits(x: nat, n: nat): (r: string)
    ensures |r| == n
  {
    if n == 0 then "" else HexDigits(x / 16, n - 1) + [HEX[x % 16]]
  }

  function Pow16(n: nat): (r: nat)
    ensures r > 0
  {
    if n == 0 then 1 else 16 * Pow16(n - 1)
  }

  lemma HexDistinct(i: nat, j: nat)
    requires i < 16 && j < 16 && HEX[i] == HEX[j]
    ensures i == j
  {
  }

  lemma QuotientBound(x: nat, m: nat)
    requires x < 16 * m
    ensures x / 16 < m
  {
  }

  /** Below `16^n` the digits determine the number. */
  lemma {:induction false} HexInjective(x: nat, y: nat, n: nat)
    requires x < Pow16(n) && y < Pow16(n) && HexDigits(x, n) == HexDigits(y, n)
    ensures x == y
  {
    if n == 0 {
    } else {
      var a, b := HexDigits(x, n), HexDigits(y, n);
      assert a[n - 1] == HEX[x % 16] && b[n - 1] == HEX[y % 16];
      HexDistinct(x % 16, y % 16);
      assert a[..n - 1] == HexDigits(x / 16, n - 1) && b[..n - 1] == HexDigits(y / 16, n - 1);
      QuotientBound(x, Pow16(n - 1));
      QuotientBound(y, Pow16(n - 1));
      HexInjective(x / 16, y / 16, n - 1);
    }
  }

  /** Day names have no bar and differ for different days. */
  ghost predicate NamesDays(dayName: int -> string) {
    && (forall d :: '|' !in dayName(d))
    && (forall d, e :: dayName(d) == dayName(e) ==> d == e)
  }

  /** `IdempotencyKeyFor`. */
  function Render(dayName: int -> string, key: ScopedKey): string {
    "0x" + HexDigits(key.address, 40) + "|" + dayName(key.day) + "|" + key.clientKey
  }

  /** A bar-free part in front of a bar is determined, and so is what follows. */
  lemma SplitAtBar(a: string, x: string, b: string, y: string)
    requires '|' !in a && '|' !in b && a + "|" + x == b + "|" + y
    ensures a == b && x == y
  {
    var s, t := a + "|" + x, b + "|" + y;
    assert s[|a|] == '|' && t[|b|] == '|';
    assert a == s[..|a|] && b == t[..|b|];
    assert x == s[|a| + 1..] && y == t[|b| + 1..];
  }

  lemma RenderedParts(dayName: int -> string, k: ScopedKey)
    ensures var s := Render(dayName, k);
            && |s| >= 43 && s[2..42] == HexDigits(k.address, 40)
            && s[43..] == dayName(k.day) + "|" + k.clientKey
  {
    hide Pow16;
    var s, digits, rest := Render(dayName, k), HexDigits(k.address, 40), dayName(k.day) + "|" + k.clientKey;
    assert |digits| == 40;
    assert s == "0x" + digits + "|" + rest;
  }

  /** Keys of different addresses, days or client keys never collide, whatever the client sends. */
  lemma RenderedKeysNeverCollide(dayName: int -> string, k: ScopedKey, l: ScopedKey)
    requires NamesDays(dayName) && k.address < Pow16(40) && l.address < Pow16(40)
    ensures Render(dayName, k) == Render(dayName, l) <==> k == l
  {
    if Render(dayName, k) == Render(dayName, l) {
      hide HexDigits, Pow16;
      RenderedParts(dayName, k);
      RenderedParts(dayName, l);
      HexInjective(k.address, l.address, 40);
      SplitAtBar(dayName(k.day), k.clientKey, dayName(l.day), l.clientKey);
    }
  }
}
