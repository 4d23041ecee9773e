/** Decimal text: digits, the numbers they spell, and byte-wise string order. */
module Decimal {

  predicate IsDigit(c: char) {
    '0' <= c <= '9'
  }

  predicate AllDigits(s: string) {
    forall i | 0 <= i < |s| :: IsDigit(s[i])
  }

  function Digit(d: nat): (c: char)
    requires d < 10
    ensures IsDigit(c) && DigitValue(c) == d
  {
    "0123456789"[d]
  }

  function DigitValue(c: char): (d: nat)
    requires IsDigit(c)
    ensures d < 10
  {
    c as int - '0' as int
  }

  function Value(s: string): nat
    requires AllDigits(s)
  {
    if s == "" then 0 else 10 * Value(s[..|s| - 1]) + DigitValue(s[|s| - 1])
  }

  /** The shortest decimal text of `n`, as `to_string` prints it. */
  function Text(n: nat): (s: string)
    ensures s != "" && AllDigits(s) && Value(s) == n
    ensures |s| > 1 ==> s[0] != '0'
  {
    if n < 10 then [Digit(n)]
    else
      var s := Text(n / 10) + [Digit(n % 10)];
      assert s[..|s| - 1] == Text(n / 10);
      s
  }

  /** `n` in exactly `width` digits; the leading ones are dropped if it has more. */
  function Padded(n: nat, width: nat): (s: string)
    ensures |s| == width && AllDigits(s)
  {
    if width == 0 then "" else Padded(n / 10, width - 1) + [Digit(n % 10)]
  }

  function Power10(n: nat): (p: nat)
    ensures p >= 1
  {
    if n == 0 then 1 else 10 * Power10(n - 1)
  }

  lemma LastDigit(n: nat, p: nat)
    requires n < 10 * p
    ensures n / 10 < p && 10 * (n / 10) + n % 10 == n
  {
  }

  lemma ValuePush(s: string, d: nat)
    requires AllDigits(s) && d < 10
    ensures AllDigits(s + [Digit(d)]) && Value(s + [Digit(d)]) == 10 * Value(s) + d
  {
    assert (s + [Digit(d)])[..|s|] == s;
  }

  lemma {:induction false} PaddedValue(n: nat, width: nat)
    requires n < Power10(width)
    ensures Value(Padded(n, width)) == n
  {
    hide Value;
    if width == 0 {
      ValueOfNothing();
    } else {
      LastDigit(n, Power10(width - 1));
      PaddedValue(n / 10, width - 1);
      ValuePush(Padded(n / 10, width - 1), n % 10);
    }
  }

  lemma ValueOfNothing()
    ensures Value("") == 0
  {
  }

  lemma Regroup(a: nat, p: nat, b: nat, d: nat)
    ensures 10 * (a * p + b) + d == a * (10 * p) + (10 * b + d)
  {
  }

  lemma HigherDigitWins(low: nat, high: nat, p: nat, restLow: nat, restHigh: nat)
    requires low < high && restLow < p
    ensures low * p + restLow < high * p + restHigh
  {
    assert (low + 1) * p <= high * p;
  }

  lemma {:induction false} ValueConcat(a: string, b: string)
    requires AllDigits(a) && AllDigits(b)
    ensures AllDigits(a + b)
    ensures Value(a + b) == Value(a) * Power10(|b|) + Value(b)
  {
    if b == "" {
      assert a + b == a;
    } else {
      var front := b[..|b| - 1];
      ValueConcat(a, front);
      assert (a + b)[..|a + b| - 1] == a + front && (a + b)[|a + b| - 1] == b[|b| - 1];
      Regroup(Value(a), Power10(|front|), Value(front), DigitValue(b[|b| - 1]));
    }
  }

  lemma {:induction false} ValueBound(s: string)
    requires AllDigits(s)
    ensures Value(s) < Power10(|s|)
  {
    if s != "" {
      ValueBound(s[..|s| - 1]);
    }
  }

  // ----- string order -----

  /** SQLite's BINARY collation and Rust's `str` order, on ASCII text. */
  predicate StrLe(a: string, b: string) {
    if a == "" then true
    else if b == "" then false
    else if a[0] != b[0] then a[0] < b[0]
    else StrLe(a[1..], b[1..])
  }

  lemma {:induction false} StrLeReflexive(a: string)
    ensures StrLe(a, a)
  {
    if a != "" {
      StrLeReflexive(a[1..]);
    }
  }

  /** With heads of equal length, the heads decide unless they are the same. */
  lemma {:induction false} StrLeByHead(a: string, x: string, b: string, y: string)
    requires |a| == |b|
    ensures StrLe(a + x, b + y) <==> if a == b then StrLe(x, y) else StrLe(a, b)
  {
    if a == "" {
      assert a + x == x && b + y == y;
    } else {
      assert (a + x)[1..] == a[1..] + x && (b + y)[1..] == b[1..] + y;
      StrLeByHead(a[1..], x, b[1..], y);
      assert a == [a[0]] + a[1..] && b == [b[0]] + b[1..];
    }
  }

  /** The first difference decides, and of two texts without one the longer is later. */
  lemma {:induction false} StrLeFirstDifference(p: string, a: char, x: string, b: char, y: string)
    ensures a != b ==> (StrLe(p + [a] + x, p + [b] + y) <==> a < b)
    ensures StrLe(p, p + [a] + x) && !StrLe(p + [a] + x, p)
  {
    if p == "" {
      assert p + [a] + x == [a] + x && p + [b] + y == [b] + y;
    } else {
      StrLeFirstDifference(p[1..], a, x, b, y);
      assert (p + [a] + x)[1..] == p[1..] + [a] + x && (p + [b] + y)[1..] == p[1..] + [b] + y;
    }
  }

  lemma ValueOfOne(c: char)
    requires IsDigit(c)
    ensures Value([c]) == DigitValue(c)
  {
    assert [c][..0] == "";
  }

  lemma HeadValue(s: string)
    requires s != "" && AllDigits(s)
    ensures Value(s) == DigitValue(s[0]) * Power10(|s| - 1) + Value(s[1..])
    ensures Value(s[1..]) < Power10(|s| - 1)
  {
    hide Value, Power10;
    assert s == [s[0]] + s[1..];
    ValueConcat([s[0]], s[1..]);
    ValueOfOne(s[0]);
    ValueBound(s[1..]);
  }

  /** On digit strings of one length, text order is numeric order. */
  lemma {:induction false} DigitOrder(a: string, b: string)
    requires |a| == |b| && AllDigits(a) && AllDigits(b)
    ensures StrLe(a, b) <==> Value(a) <= Value(b)
    ensures a == b <==> Value(a) == Value(b)
  {
    if a != "" {
      HeadValue(a);
      HeadValue(b);
      DigitOrder(a[1..], b[1..]);
      assert a == [a[0]] + a[1..] && b == [b[0]] + b[1..];
      var p, da, db := Power10(|a| - 1), DigitValue(a[0]), DigitValue(b[0]);
      if da < db {
        HigherDigitWins(da, db, p, Value(a[1..]), Value(b[1..]));
      } else if db < da {
        HigherDigitWins(db, da, p, Value(b[1..]), Value(a[1..]));
      }
    }
  }
}
