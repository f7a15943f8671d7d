/** Identifiers that sort by creation time (ids.py; 'Sorting' in the ULID specification). */
module Ids {
  import opened Common

  /** Crockford's base 32. */
  const ALPHABET := "0123456789ABCDEFGHJKMNPQRSTVWXYZ"

  const ENCODED_TIME_LENGTH: nat := 10

  const ENCODED_RANDOM_LENGTH: nat := 16

  function Digit(d: nat): char
    requires d < 32
  {
    ALPHABET[d]
  }

  function Encoded(value: int, length: nat): (s: string)
    ensures |s| == length
    decreases length
  {
    if length == 0 then [] else Encoded(value / 32, length - 1) + [Digit(value % 32)]
  }

  function Reversed(s: string): (r: string)
    ensures |r| == |s|
  {
    if s == [] then [] else Reversed(s[1..]) + [s[0]]
  }

  lemma {:induction false} ReversedAppend(s: string, c: char)
    ensures Reversed(s + [c]) == [c] + Reversed(s)
  {
    if s == [] {
      assert s + [c] == [c] && [c][1..] == [];
    } else {
      ReversedAppend(s[1..], c);
      assert (s + [c])[1..] == s[1..] + [c];
    }
  }

  method Encode(value: int, length: nat) returns (s: string)
    ensures s == Encoded(value, length)
  {
    var v, out := value, [];
    for i := 0 to length
      invariant Encoded(value, length) == Encoded(v, length - i) + Reversed(out)
    {
      ReversedAppend(out, Digit(v % 32));
      out, v := out + [Digit(v % 32)], v / 32;
    }
    s := Reversed(out);
  }

  function Ulid(timestamp: int, randomness: int): string {
    Encoded(timestamp, ENCODED_TIME_LENGTH) + Encoded(randomness, ENCODED_RANDOM_LENGTH)
  }

  function NewId(prefix: string, timestamp: int, randomness: int): string {
    prefix + "_" + Ulid(timestamp, randomness)
  }

  // ---------------------------------------------------------------- order

  /** The order of strings, as Python and `ORDER BY id` under the C collation have it. */
  predicate Before(a: string, b: string) {
    b != [] && (a == [] || a[0] < b[0] || (a[0] == b[0] && Before(a[1..], b[1..])))
  }

  function Power32(n: nat): (p: nat)
    ensures p >= 1
  {
    if n == 0 then 1 else 32 * Power32(n - 1)
  }

  lemma DigitsAscend(i: nat, j: nat)
    requires i < j < 32
    ensures Digit(i) < Digit(j)
  {
  }

  lemma {:induction false} BeforeByPrefix(a: string, b: string, x: string, y: string)
    requires |a| == |b|
    ensures Before(a + x, b + y) <==> Before(a, b) || (a == b && Before(x, y))
  {
    if a == [] {
      assert a + x == x && b + y == y;
    } else {
      assert (a + x)[1..] == a[1..] + x && (b + y)[1..] == b[1..] + y;
      BeforeByPrefix(a[1..], b[1..], x, y);
      assert a == b <==> a[0] == b[0] && a[1..] == b[1..] by {
        if a[0] == b[0] && a[1..] == b[1..] { assert a == [a[0]] + a[1..] && b == [b[0]] + b[1..]; }
      }
    }
  }

  lemma {:induction false} RemainderSplits(value: int, n: nat)
    ensures value % (32 * Power32(n)) == 32 * ((value / 32) % Power32(n)) + value % 32
  {
    var m := Power32(n);
    var q, r := (value / 32) / m, (value / 32) % m;
    assert value == 32 * (q * m + r) + value % 32;
    assert value == (32 * m) * q + (32 * r + value % 32);
    assert 0 <= 32 * r + value % 32 < 32 * m;
    QuotientUnique(value, 32 * m, q, 32 * r + value % 32);
  }

  /** The encoding orders and identifies values by what fits in `length` digits. */
  lemma {:induction false} EncodingOrders(a: int, b: int, length: nat)
    ensures Before(Encoded(a, length), Encoded(b, length)) <==> a % Power32(length) < b % Power32(length)
    ensures Encoded(a, length) == Encoded(b, length) <==> a % Power32(length) == b % Power32(length)
    decreases length
  {
    if length > 0 {
      var x, y := Encoded(a / 32, length - 1), Encoded(b / 32, length - 1);
      var c, d := Digit(a % 32), Digit(b % 32);
      EncodingOrders(a / 32, b / 32, length - 1);
      RemainderSplits(a, length - 1);
      RemainderSplits(b, length - 1);
      BeforeByPrefix(x, y, [c], [d]);
      LastDigits(x, y, c, d);
      if a % 32 < b % 32 { DigitsAscend(a % 32, b % 32); }
      if b % 32 < a % 32 { DigitsAscend(b % 32, a % 32); }
      assert Before([c], [d]) <==> c < d by { assert [c][1..] == [] && [d][1..] == []; }
    }
  }

  lemma LastDigits(x: string, y: string, c: char, d: char)
    requires |x| == |y|
    ensures x + [c] == y + [d] <==> x == y && c == d
  {
    if x + [c] == y + [d] {
      assert x == (x + [c])[..|x|] == (y + [d])[..|x|] == y;
      assert (x + [c])[|x|] == c && (y + [d])[|x|] == d;
    }
  }

  /** Below the capacity, the encoding keeps the order of numbers and loses nothing. */
  lemma EncodingKeepsOrder(a: int, b: int, length: nat)
    requires 0 <= a < Power32(length) && 0 <= b < Power32(length)
    ensures Before(Encoded(a, length), Encoded(b, length)) <==> a < b
    ensures Encoded(a, length) == Encoded(b, length) <==> a == b
  {
    EncodingOrders(a, b, length);
    QuotientUnique(a, Power32(length), 0, a);
    QuotientUnique(b, Power32(length), 0, b);
  }

  lemma JoinedEqual(head: string, a: string, b: string, x: string, y: string)
    requires |a| == |b| && head + (a + x) == head + (b + y)
    ensures a == b && x == y
  {
    assert a + x == (head + (a + x))[|head|..] == (head + (b + y))[|head|..] == b + y;
    assert a == (a + x)[..|a|] && b == (b + y)[..|b|] && x == (a + x)[|a|..] && y == (b + y)[|b|..];
  }

  lemma {:induction false} PairsSort(head: string, t: int, r: int, u: int, s: int, n: nat, m: nat)
    requires 0 <= t < Power32(n) && 0 <= u < Power32(n) && 0 <= r < Power32(m) && 0 <= s < Power32(m)
    ensures var a, b := head + (Encoded(t, n) + Encoded(r, m)), head + (Encoded(u, n) + Encoded(s, m));
            && (Before(a, b) <==> t < u || (t == u && r < s))
            && (a == b ==> t == u && r == s)
  {
    var a, b, x, y := Encoded(t, n), Encoded(u, n), Encoded(r, m), Encoded(s, m);
    EncodingKeepsOrder(t, u, n);
    EncodingKeepsOrder(r, s, m);
    BeforeByPrefix(a, b, x, y);
    NeverBeforeItself(head);
    BeforeByPrefix(head, head, a + x, b + y);
    if head + (a + x) == head + (b + y) { JoinedEqual(head, a, b, x, y); }
  }

  /** Ids with one prefix sort by timestamp, and within a millisecond by randomness; two ids are the same only
      when both agree. */
  lemma IdsSortByTime(prefix: string, t: int, r: int, u: int, s: int)
    requires 0 <= t < Power32(10) && 0 <= u < Power32(10) && 0 <= r < Power32(16) && 0 <= s < Power32(16)
    ensures Before(NewId(prefix, t, r), NewId(prefix, u, s)) <==> t < u || (t == u && r < s)
    ensures NewId(prefix, t, r) == NewId(prefix, u, s) ==> t == u && r == s
  {
    PairsSort(prefix + "_", t, r, u, s, ENCODED_TIME_LENGTH, ENCODED_RANDOM_LENGTH);
  }

  /** An id is its prefix, an underscore, ten characters of time and sixteen of randomness. */
  lemma IdsAreUlids(prefix: string, t: int, r: int)
    ensures |NewId(prefix, t, r)| == |prefix| + 27 && NewId(prefix, t, r)[..|prefix| + 1] == prefix + "_"
    ensures NewId(prefix, t, r)[|prefix| + 1..|prefix| + 11] == Encoded(t, 10)
    ensures NewId(prefix, t, r)[|prefix| + 11..] == Encoded(r, 16)
  {
    assert NewId(prefix, t, r) == (prefix + "_") + Encoded(t, 10) + Encoded(r, 16);
  }

  predicate InCrockford(c: char) {
    ('0' <= c <= '9' || 'A' <= c <= 'Z') && c !in "ILOU"
  }

  lemma DigitInCrockford(d: nat)
    requires d < 32
    ensures InCrockford(Digit(d))
  {
  }

  /** The alphabet is Crockford's - digits and capital letters, but not I, L, O or U - in ascending order, and nothing
      else is used. */
  lemma EncodingIsCrockford(value: int, length: nat)
    ensures |ALPHABET| == 32 && forall d, e :: 0 <= d < e < 32 ==> ALPHABET[d] < ALPHABET[e]
    ensures forall i :: 0 <= i < length ==> InCrockford(Encoded(value, length)[i])
  {
    forall d: nat, e: nat | d < e < 32 ensures ALPHABET[d] < ALPHABET[e] { DigitsAscend(d, e); }
    DigitsOnly(value, length);
  }

  lemma {:induction false} DigitsOnly(value: int, length: nat)
    ensures forall i :: 0 <= i < length ==> InCrockford(Encoded(value, length)[i])
    decreases length
  {
    if length > 0 {
      DigitsOnly(value / 32, length - 1);
      DigitInCrockford(value % 32);
    }
  }

  lemma {:induction false} NeverBeforeItself(a: string)
    ensures !Before(a, a)
  {
    if a != [] { NeverBeforeItself(a[1..]); }
  }
}
