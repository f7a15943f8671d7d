/** Small helpers shared by every component: optional values, results, decimal printing, division and finite sums. */
module Common {

  datatype Option<+T> = None | Some(value: T)

  datatype Result<+T, +E> = Ok(value: T) | Err(error: E)

  function Max(a: int, b: int): int {
    if a >= b then a else b
  }

  function Min(a: int, b: int): int {
    if a <= b then a else b
  }

  // ---------------------------------------------------------------- decimal printing

  predicate IsDigit(c: char) {
    '0' <= c <= '9'
  }

  function DigitChar(d: nat): char
    requires d < 10
  {
    '0' + d as char
  }

  function Decimal(n: nat): (s: string)
    ensures |s| >= 1 && forall i :: 0 <= i < |s| ==> IsDigit(s[i])
  {
    if n < 10 then [DigitChar(n)] else Decimal(n / 10) + [DigitChar(n % 10)]
  }

  function NumberOf(s: string): nat
    requires forall i :: 0 <= i < |s| ==> IsDigit(s[i])
  {
    if s == "" then 0
    else
      var last := s[|s| - 1];
      assert IsDigit(last);
      10 * NumberOf(s[..|s| - 1]) + (last as int - '0' as int)
  }

  lemma {:induction false} DecimalRoundTrip(n: nat)
    ensures NumberOf(Decimal(n)) == n
  {
    if n >= 10 {
      DecimalRoundTrip(n / 10);
      assert Decimal(n)[..|Decimal(n)| - 1] == Decimal(n / 10);
    } else {
      assert Decimal(n)[..0] == "";
    }
  }

  /** Zeros in front, up to a width. */
  function ZeroFilled(s: string, width: nat): string
    decreases width - |s|
  {
    if |s| >= width then s else ZeroFilled(['0'] + s, width)
  }

  /** `f"{n:03d}"` for width 3, and so on. */
  function Padded(n: nat, width: nat): string {
    ZeroFilled(Decimal(n), width)
  }

  predicate AllDigits(s: string) {
    forall i :: 0 <= i < |s| ==> IsDigit(s[i])
  }

  /** `s` reads as `n`, has at least `width` digits, and no leading zero beyond those. */
  predicate IsPadded(s: string, n: nat, width: nat) {
    && AllDigits(s) && NumberOf(s) == n
    && |s| >= width && (|s| > width ==> s[0] != '0')
  }

  lemma {:induction false} LeadingZero(s: string)
    requires AllDigits(s)
    ensures AllDigits(['0'] + s) && NumberOf(['0'] + s) == NumberOf(s)
  {
    var t := ['0'] + s;
    if s == "" {
      assert t[..0] == "";
    } else {
      var n := |s| - 1;
      LeadingZero(s[..n]);
      assert t[..n + 1] == ['0'] + s[..n] && t[n + 1] == s[n];
    }
  }

  lemma {:induction false} FillingKeepsNumber(s: string, n: nat, width: nat)
    requires AllDigits(s) && NumberOf(s) == n && (|s| > width ==> s[0] != '0')
    ensures IsPadded(ZeroFilled(s, width), n, width)
    decreases width - |s|
  {
    if |s| < width {
      LeadingZero(s);
      FillingKeepsNumber(['0'] + s, n, width);
    }
  }

  lemma {:induction false} NoLeadingZero(n: nat)
    ensures n > 0 ==> Decimal(n)[0] != '0'
  {
    if n >= 10 { NoLeadingZero(n / 10); }
  }

  lemma PaddedExact(n: nat, width: nat)
    requires n > 0
    ensures IsPadded(Padded(n, width), n, width)
  {
    DecimalRoundTrip(n);
    NoLeadingZero(n);
    FillingKeepsNumber(Decimal(n), n, width);
  }

  // ---------------------------------------------------------------- division

  lemma SmallMultipleIsZero(d: int, m: int, x: int)
    requires x == m * d && -m < x < m
    ensures x == 0 && d == 0
  {
  }

  lemma QuotientUnique(value: int, m: nat, q: int, r: nat)
    requires m > 0 && value == m * q + r && r < m
    ensures value % m == r && value / m == q
  {
    SmallMultipleIsZero(value / m - q, m, r - value % m);
  }

  lemma NegativeMultiple(d: int, m: nat)
    requires d <= -1
    ensures m * d <= -(m as int)
  {
  }

  lemma DivisionOrdered(a: nat, b: nat, m: nat)
    requires a <= b && m >= 1
    ensures 0 <= a / m <= b / m
  {
    var d := b / m - a / m;
    assert m * d == (b - b % m) - (a - a % m);
    if d <= -1 { NegativeMultiple(d, m); }
  }

  // ---------------------------------------------------------------- sums over finite sets

  ghost function Sum<K>(keys: set<K>, f: K -> nat): nat
    decreases |keys|
  {
    if keys == {} then 0
    else
      var x :| x in keys;
      f(x) + Sum(keys - {x}, f)
  }

  /** Any key may be taken out first. */
  lemma {:induction false} SumSplits<K>(keys: set<K>, f: K -> nat, x: K)
    requires x in keys
    ensures Sum(keys, f) == f(x) + Sum(keys - {x}, f)
    decreases |keys|
  {
    var y :| y in keys && Sum(keys, f) == f(y) + Sum(keys - {y}, f);
    if y != x {
      SumSplits(keys - {y}, f, x);
      SumSplits(keys - {x}, f, y);
      assert keys - {y} - {x} == keys - {x} - {y};
    }
  }

  lemma {:induction false} SumScales<K>(keys: set<K>, f: K -> nat, g: K -> nat, factor: nat)
    requires forall x :: x in keys ==> g(x) <= factor * f(x)
    ensures Sum(keys, g) <= factor * Sum(keys, f)
    decreases |keys|
  {
    if keys != {} {
      var x :| x in keys;
      SumSplits(keys, f, x);
      SumSplits(keys, g, x);
      SumScales(keys - {x}, f, g, factor);
      assert factor * (f(x) + Sum(keys - {x}, f)) == factor * f(x) + factor * Sum(keys - {x}, f);
    }
  }

  lemma SumDrops<K>(keys: set<K>, f: K -> nat, g: K -> nat, x: K)
    requires x in keys && g(x) < f(x) && forall y :: y in keys && y != x ==> g(y) <= f(y)
    ensures Sum(keys, g) < Sum(keys, f)
  {
    SumSplits(keys, f, x);
    SumSplits(keys, g, x);
    SumScales(keys - {x}, f, g, 1);
  }
}
