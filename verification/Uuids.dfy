/** Textual UUIDs and the decimal numbers printed beside them in idempotency keys. */
module Uuids {
  import opened Base

  /** A 128-bit identifier as its 32 hexadecimal digits. */
  type Uuid = d: seq<int> | |d| == 32 && forall i :: 0 <= i < 32 ==> 0 <= d[i] < 16
    witness seq(32, _ => 0)

  const NIL: Uuid := [0, 0, 0, 0, 0, 0, 0, 0, 0, 0, 0, 0, 0, 0, 0, 0, 0, 0, 0, 0, 0, 0, 0, 0, 0, 0, 0, 0, 0, 0, 0, 0]

  /** The first n digits read as a number, the first digit the most significant. */
  function Reading(d: seq<int>, n: nat): (v: int)
    requires n <= |d|
  {
    if n == 0 then 0 else 16 * Reading(d, n - 1) + d[n - 1]
  }

  /** The identifier as a 128-bit number. */
  function Number(u: Uuid): (v: nat)
  {
    ReadingIsNat(u, 32);
    Reading(u, 32)
  }

  lemma {:induction false} ReadingIsNat(d: seq<int>, n: nat)
    requires n <= |d| && forall i :: 0 <= i < n ==> 0 <= d[i] < 16
    ensures Reading(d, n) >= 0
  {
    if n > 0 {
      ReadingIsNat(d, n - 1);
    }
  }

  lemma {:induction false} ReadingInjective(a: seq<int>, b: seq<int>, n: nat)
    requires n <= |a| && n <= |b| && Reading(a, n) == Reading(b, n)
    requires forall i :: 0 <= i < n ==> 0 <= a[i] < 16 && 0 <= b[i] < 16
    ensures a[..n] == b[..n]
  {
    if n > 0 {
      ReadingIsNat(a, n - 1);
      ReadingIsNat(b, n - 1);
      ReadingInjective(a, b, n - 1);
      assert a[..n] == a[..n - 1] + [a[n - 1]] && b[..n] == b[..n - 1] + [b[n - 1]];
    }
  }

  lemma NumberInjective(u: Uuid, v: Uuid)
    ensures Number(u) == Number(v) <==> u == v
  {
    if Number(u) == Number(v) {
      ReadingInjective(u, v, 32);
      assert u[..32] == u && v[..32] == v;
    }
  }

  function HexDigit(n: int): (c: char)
    requires 0 <= n < 16
    ensures HexValue(c) == Some(n) && c != '-' && c != 'o'
  {
    if n < 10 then '0' + n as char else 'a' + (n - 10) as char
  }

  function HexValue(c: char): (v: Option<int>)
    ensures v.Some? ==> 0 <= v.value < 16
  {
    if '0' <= c <= '9' then Some((c - '0') as int)
    else if 'a' <= c <= 'f' then Some((c - 'a') as int + 10)
    else if 'A' <= c <= 'F' then Some((c - 'A') as int + 10)
    else None
  }

  predicate Dash(k: int) { k == 8 || k == 13 || k == 18 || k == 23 }

  /** Where digit i stands in the 8-4-4-4-12 text. */
  function Place(i: int): int {
    i + (if i < 8 then 0 else if i < 12 then 1 else if i < 16 then 2 else if i < 20 then 3 else 4)
  }

  /** The digit standing at text position k, when it is not a dash. */
  function DigitAt(k: int): int {
    k - (if k < 8 then 0 else if k < 13 then 1 else if k < 18 then 2 else if k < 23 then 3 else 4)
  }

  function Format(u: Uuid): (s: string)
    ensures |s| == 36
  {
    seq(36, k requires 0 <= k < 36 => if Dash(k) then '-' else HexDigit(u[DigitAt(k)]))
  }

  predicate Canonical(s: string) {
    && |s| == 36
    && (forall k :: 0 <= k < 36 && Dash(k) ==> s[k] == '-')
    && (forall i :: 0 <= i < 32 ==> HexValue(s[Place(i)]).Some?)
  }

  /** Reads the canonical text, digits in either case. */
  function Parse(s: string): Option<Uuid> {
    if Canonical(s) then Some(seq(32, i requires 0 <= i < 32 => HexValue(s[Place(i)]).value)) else None
  }

  lemma ParseFormat(u: Uuid)
    ensures Parse(Format(u)) == Some(u)
  {
    var s := Format(u);
    forall i | 0 <= i < 32 ensures s[Place(i)] == HexDigit(u[i]) {
      assert !Dash(Place(i)) && DigitAt(Place(i)) == i;
    }
    assert Canonical(s);
    assert Parse(s).value == u;
  }

  function Lower(c: char): char {
    if 'A' <= c <= 'F' then 'a' + (c - 'A') else c
  }

  function Lowered(s: string): (t: string)
    ensures |t| == |s|
  {
    seq(|s|, k requires 0 <= k < |s| => Lower(s[k]))
  }

  lemma HexDigitValue(c: char)
    requires HexValue(c).Some?
    ensures HexDigit(HexValue(c).value) == Lower(c)
  {
  }

  /** Any text that reads as an identifier is its canonical text, but for the case of the digits. */
  lemma FormatParse(s: string)
    requires Parse(s).Some?
    ensures Format(Parse(s).value) == Lowered(s)
  {
    forall k | 0 <= k < 36 ensures Format(Parse(s).value)[k] == Lower(s[k]) {
      if !Dash(k) {
        assert Place(DigitAt(k)) == k && 0 <= DigitAt(k) < 32;
        HexDigitValue(s[k]);
      }
    }
  }

  /** How many of the first k places of the text hold digits. */
  function DigitsBefore(k: int): int {
    k - (if k <= 8 then 0 else if k <= 13 then 1 else if k <= 18 then 2 else if k <= 23 then 3 else 4)
  }

  lemma HexDigitOrder(m: int, n: int)
    requires 0 <= m < 16 && 0 <= n < 16
    ensures m < n <==> HexDigit(m) < HexDigit(n)
  {
  }

  /** Two texts that compare as a and b compare as 16a + m and 16b + n with these digits appended. */
  lemma DigitStep(s: string, t: string, a: int, b: int, m: int, n: int)
    requires |s| == |t| && (s == t <==> a == b) && (LexBefore(s, t) <==> a < b) && 0 <= m < 16 && 0 <= n < 16
    ensures s + [HexDigit(m)] == t + [HexDigit(n)] <==> 16 * a + m == 16 * b + n
    ensures LexBefore(s + [HexDigit(m)], t + [HexDigit(n)]) <==> 16 * a + m < 16 * b + n
  {
    LexLast(s, HexDigit(m), t, HexDigit(n));
    HexDigitOrder(m, n);
    SameLast(s, HexDigit(m), t, HexDigit(n));
  }

  lemma SameLast(s: string, x: char, t: string, y: char)
    requires |s| == |t|
    ensures s + [x] == t + [y] <==> s == t && x == y
  {
    assert s == (s + [x])[..|s|] && t == (t + [y])[..|t|];
    assert x == (s + [x])[|s|] && y == (t + [y])[|t|];
  }

  lemma DashStep(s: string, t: string)
    requires |s| == |t|
    ensures s + "-" == t + "-" <==> s == t
    ensures LexBefore(s + "-", t + "-") <==> LexBefore(s, t)
  {
    LexLast(s, '-', t, '-');
    SameLast(s, '-', t, '-');
  }

  /** The text up to k places, one place more than up to k - 1. */
  lemma FormatPlace(u: Uuid, k: nat)
    requires k < 36
    ensures Format(u)[..k + 1] == Format(u)[..k] + (if Dash(k) then "-" else [HexDigit(u[DigitAt(k)])])
    ensures if Dash(k) then DigitsBefore(k + 1) == DigitsBefore(k)
            else DigitsBefore(k + 1) == DigitsBefore(k) + 1 && DigitsBefore(k) == DigitAt(k)
  {
  }

  lemma {:induction false} TextOrder(u: Uuid, v: Uuid, k: nat)
    requires k <= 36
    ensures 0 <= DigitsBefore(k) <= 32
    ensures Format(u)[..k] == Format(v)[..k] <==> Reading(u, DigitsBefore(k)) == Reading(v, DigitsBefore(k))
    ensures LexBefore(Format(u)[..k], Format(v)[..k]) <==> Reading(u, DigitsBefore(k)) < Reading(v, DigitsBefore(k))
  {
    if k > 0 {
      TextOrder(u, v, k - 1);
      FormatPlace(u, k - 1);
      FormatPlace(v, k - 1);
      var s, t, d := Format(u)[..k - 1], Format(v)[..k - 1], DigitsBefore(k - 1);
      if Dash(k - 1) {
        DashStep(s, t);
      } else {
        DigitStep(s, t, Reading(u, d), Reading(v, d), u[d], v[d]);
      }
    }
  }

  /** Users sort by their number as their identifiers sort as text, which is the order rows are locked in. */
  lemma NumberOrderIsTextOrder(u: Uuid, v: Uuid)
    ensures Number(u) < Number(v) <==> LexBefore(Format(u), Format(v))
  {
    TextOrder(u, v, 36);
    assert Format(u)[..36] == Format(u) && Format(v)[..36] == Format(v);
  }

  // ---------------------------------------------------------------- decimal numbers

  function DigitChar(n: nat): (c: char)
    requires n < 10
    ensures c as int == '0' as int + n
  {
    '0' + n as char
  }

  function Digits(n: nat): (s: string)
    ensures |s| > 0 && s[0] != '-'
  {
    if n < 10 then [DigitChar(n)] else Digits(n / 10) + [DigitChar(n % 10)]
  }

  /** %d. */
  function Decimal(v: int): string {
    if v < 0 then "-" + Digits(-v) else Digits(v)
  }

  lemma {:induction false} DigitsInjective(a: nat, b: nat)
    requires Digits(a) == Digits(b)
    ensures a == b
  {
    var s, t := Digits(a), Digits(b);
    assert a % 10 == b % 10 by {
      assert s[|s| - 1] == DigitChar(a % 10) && t[|t| - 1] == DigitChar(b % 10);
    }
    if a >= 10 && b >= 10 {
      assert s[..|s| - 1] == Digits(a / 10) && t[..|t| - 1] == Digits(b / 10);
      DigitsInjective(a / 10, b / 10);
    }
  }

  lemma DecimalInjective(a: int, b: int)
    requires Decimal(a) == Decimal(b)
    ensures a == b
  {
    if a < 0 && b < 0 {
      assert Decimal(a)[1..] == Digits(-a) && Decimal(b)[1..] == Digits(-b);
      DigitsInjective(-a, -b);
    } else if a >= 0 && b >= 0 {
      DigitsInjective(a, b);
    }
  }

  // ---------------------------------------------------------------- idempotency keys

  function IdempotencyKey(user: Uuid, version: int): string {
    Format(user) + ":" + Decimal(version)
  }

  lemma IdempotencyKeyInjective(u1: Uuid, v1: int, u2: Uuid, v2: int)
    ensures IdempotencyKey(u1, v1) == IdempotencyKey(u2, v2) <==> u1 == u2 && v1 == v2
  {
    var k1, k2 := IdempotencyKey(u1, v1), IdempotencyKey(u2, v2);
    if k1 == k2 {
      assert k1[..36] == Format(u1) && k2[..36] == Format(u2);
      ParseFormat(u1);
      ParseFormat(u2);
      assert k1[37..] == Decimal(v1) && k2[37..] == Decimal(v2);
      DecimalInjective(v1, v2);
    }
  }

  const CONTENT_KEY_PREFIX := "content:"

  /** Keys of content events can never be mistaken for keys of user events. */
  lemma ContentKeysAreDisjoint(key: string, u: Uuid, v: int)
    requires HasPrefix(key, CONTENT_KEY_PREFIX)
    ensures key != IdempotencyKey(u, v)
  {
    assert key[1] == key[..8][1] == 'o';
    assert IdempotencyKey(u, v)[1] == Format(u)[1] == HexDigit(u[1]);
  }
}
