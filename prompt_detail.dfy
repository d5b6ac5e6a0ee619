/**
 * The relative time shown in the prompt detail view. The clock is a
 * parameter (`nowMs`), and so is the locale rendering of the date used
 * beyond thirty days.
 */
module PromptDetail {

  function DigitChar(d: nat): (c: char)
    requires d < 10
    ensures '0' <= c <= '9' && (c == '0' <==> d == 0)
  {
    ('0' as int + d) as char
  }

  function DigitValue(c: char): nat
  {
    if '0' <= c <= '9' then (c - '0') as nat else 0
  }

  /** `${n}` for a non-negative integer: its decimal digits, no leading zero. */
  function NatToString(n: nat): (s: string)
    ensures s != [] && forall i :: 0 <= i < |s| ==> '0' <= s[i] <= '9'
    ensures |s| > 1 ==> s[0] != '0'
  {
    if n < 10 then [DigitChar(n)] else NatToString(n / 10) + [DigitChar(n % 10)]
  }

  /** The number a string of decimal digits denotes. */
  function DecimalValue(s: string): nat
  {
    if s == [] then 0 else 10 * DecimalValue(s[..|s| - 1]) + DigitValue(s[|s| - 1])
  }

  /** The decimal rendering denotes the number it renders. */
  lemma {:induction false} NatToStringValue(n: nat)
    ensures DecimalValue(NatToString(n)) == n
  {
    var s := NatToString(n);
    if n >= 10 {
      NatToStringValue(n / 10);
      assert s[..|s| - 1] == NatToString(n / 10);
      assert DigitValue(s[|s| - 1]) == n % 10;
      assert n == 10 * (n / 10) + n % 10;
    } else {
      assert DigitValue(s[0]) == n;
      assert s[..0] == [];
    }
  }

  /** `${n} ${unit}${n > 1 ? "s" : ""} ago`. */
  function Ago(n: nat, unit: string): string
  {
    NatToString(n) + " " + unit + (if n > 1 then "s" else "") + " ago"
  }

  /**
   * `formatRelativeTime`: the difference in whole seconds, minutes, hours
   * and days (each a floor division of the previous one), shown in the first
   * unit that stays under its limit; a negative difference counts as just now.
   * In milliseconds: under a minute is "just now", then whole minutes up to an
   * hour, whole hours up to a day, whole days up to thirty, and the locale
   * date from thirty days on.
   */
  function FormatRelativeTime(nowMs: int, dateMs: int, localeDate: string): (r: string)
    ensures nowMs - dateMs < 60000 ==> r == "just now"
    ensures 60000 <= nowMs - dateMs < 3600000 ==>
      r == Ago((nowMs - dateMs) / 60000, "min") && 1 <= (nowMs - dateMs) / 60000 <= 59
    ensures 3600000 <= nowMs - dateMs < 86400000 ==>
      r == Ago((nowMs - dateMs) / 3600000, "hour") && 1 <= (nowMs - dateMs) / 3600000 <= 23
    ensures 86400000 <= nowMs - dateMs < 2592000000 ==>
      r == Ago((nowMs - dateMs) / 86400000, "day") && 1 <= (nowMs - dateMs) / 86400000 <= 29
    ensures nowMs - dateMs >= 2592000000 ==> r == localeDate
  {
    var diffMs := nowMs - dateMs;
    Units(diffMs);
    DivThreshold(diffMs, 1000, 60);
    DivThreshold(diffMs, 60000, 1);
    DivThreshold(diffMs, 60000, 60);
    DivThreshold(diffMs, 3600000, 1);
    DivThreshold(diffMs, 3600000, 24);
    DivThreshold(diffMs, 86400000, 1);
    DivThreshold(diffMs, 86400000, 30);
    var diffSecs := diffMs / 1000;
    var diffMins := diffSecs / 60;
    var diffHours := diffMins / 60;
    var diffDays := diffHours / 24;
    if diffSecs < 60 then "just now"
    else if diffMins < 60 then Ago(diffMins, "min")
    else if diffHours < 24 then Ago(diffHours, "hour")
    else if diffDays < 30 then Ago(diffDays, "day")
    else localeDate
  }

  /** Floor division twice is floor division by the product. */
  lemma FloorDivTwice(x: int, a: int, b: int)
    requires a > 0 && b > 0
    ensures (x / a) / b == x / (a * b)
  {
    var q, r := x / a, x % a;
    var q2, r2 := q / b, q % b;
    assert x == a * q + r && 0 <= r < a;
    assert q == b * q2 + r2 && 0 <= r2 < b;
    Regroup(a, b, q2, r2);
    RemainderBound(a, b, r2, r);
    DivUnique(x, a * b, q2, a * r2 + r);
  }

  lemma Regroup(a: int, b: int, q2: int, r2: int)
    ensures a * (b * q2 + r2) == (a * b) * q2 + a * r2
  {
    assert a * (b * q2) == (a * b) * q2;
  }

  lemma RemainderBound(a: int, b: int, r2: int, r: int)
    requires a > 0 && 0 <= r2 < b && 0 <= r < a
    ensures 0 <= a * r2 + r < a * b
  {
    assert a * r2 <= a * (b - 1);
    assert a * (b - 1) == a * b - a;
  }

  /** A quotient and remainder in range are the floor division's. */
  lemma DivUnique(x: int, d: int, q: int, r: int)
    requires d > 0 && 0 <= r < d && x == d * q + r
    ensures x / d == q
  {
    var q0, r0 := x / d, x % d;
    assert d * q0 + r0 == d * q + r;
    assert d * (q - q0) == r0 - r;
    assert d * (q0 - q) == r - r0;
    if q0 < q {
      MulAtLeast(d, q - q0);
    } else if q0 > q {
      MulAtLeast(d, q0 - q);
    }
  }

  lemma MulAtLeast(d: int, k: int)
    requires d > 0 && k >= 1
    ensures d * k >= d
  {
    assert d * k == d * (k - 1) + d;
  }

  /** The whole minutes, hours and days are floor divisions of the milliseconds. */
  lemma Units(diffMs: int)
    ensures diffMs / 1000 / 60 == diffMs / 60000
    ensures diffMs / 1000 / 60 / 60 == diffMs / 3600000
    ensures diffMs / 1000 / 60 / 60 / 24 == diffMs / 86400000
  {
    FloorDivTwice(diffMs, 1000, 60);
    FloorDivTwice(diffMs, 60000, 60);
    FloorDivTwice(diffMs, 3600000, 24);
  }

  /** A lower bound on the dividend bounds the quotient from below. */
  lemma DivAtLeast(x: int, d: int, lo: int)
    requires d > 0 && d * lo <= x
    ensures lo <= x / d
  {
    var q, r := x / d, x % d;
    assert x == d * q + r && 0 <= r < d;
    assert d * (lo - q) == d * lo - d * q;
    if q < lo {
      MulAtLeast(d, lo - q);
    }
  }

  /** An upper bound on the dividend bounds the quotient from above. */
  lemma DivBelow(x: int, d: int, hi: int)
    requires d > 0 && x < d * hi
    ensures x / d < hi
  {
    var q, r := x / d, x % d;
    assert x == d * q + r && 0 <= r < d;
    assert d * (q - hi + 1) == d * q - d * hi + d;
    if q >= hi {
      MulAtLeast(d, q - hi + 1);
    }
  }

  /** A floor quotient is under `n` exactly when the dividend is under `d * n`. */
  lemma DivThreshold(x: int, d: int, n: int)
    requires d > 0
    ensures x / d < n <==> x < d * n
  {
    if x < d * n {
      DivBelow(x, d, n);
    } else {
      DivAtLeast(x, d, n);
    }
  }

  /** A count of one is singular, more is plural. */
  lemma Plural(n: nat, unit: string)
    requires n >= 1
    ensures n == 1 ==> Ago(n, unit) == "1 " + unit + " ago"
    ensures n > 1 ==> Ago(n, unit) == NatToString(n) + " " + unit + "s ago"
  {
  }
}
