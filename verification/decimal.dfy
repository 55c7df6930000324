/**
 * The place arithmetic of `light_1digit`: place `d` of a count shows
 * `count / 10^d % 10`, and four places spell the count modulo 10000.
 * All operands are non-negative, so Rust's truncating `/` and `%` on
 * `usize` agree with Dafny's.
 */
module Decimal {

  function Pow10(n: nat): (r: nat)
    ensures r >= 1
  {
    if n == 0 then 1 else 10 * Pow10(n - 1)
  }

  /** The index `light_1digit` looks up for place `digit`:
      `count / 10^digit % 10`. It is always a valid index into a ten-entry
      table. */
  function DigitIndex(count: nat, digit: nat): (r: nat)
    ensures r < 10
  {
    count / Pow10(digit) % 10
  }

  /** The first `n` decimal digits of `m`, least significant first. */
  function Digits(m: nat, n: nat): (r: seq<nat>)
    ensures |r| == n
    ensures forall d :: 0 <= d < n ==> r[d] < 10
  {
    if n == 0 then [] else [m % 10] + Digits(m / 10, n - 1)
  }

  /** The number a little-endian digit sequence spells. */
  function ValueOf(ds: seq<nat>): nat {
    if |ds| == 0 then 0 else ds[0] + 10 * ValueOf(ds[1..])
  }

  lemma DivDiv(a: nat, b: nat, c: nat)
    requires b > 0 && c > 0
    ensures a / b / c == a / (b * c)
  {
    var q, r, m := a / b / c, (a / b) % c * b + a % b, b * c;
    assert m > 0 && r < m && a == q * m + r by {
      DivDivSplit(a, b, c);
      DivDivBound(a, b, c);
    }
    DivModUnique(a, m, q, r);
  }

  /** `a` split by `b` and then by `c`. */
  lemma DivDivSplit(a: nat, b: nat, c: nat)
    requires b > 0 && c > 0
    ensures a == a / b / c * (b * c) + ((a / b) % c * b + a % b)
  {
    var q := a / b / c;
    var r2 := (a / b) % c;
    assert a == (a / b) * b + a % b;
    assert a / b == q * c + r2;
    assert (q * c + r2) * b == q * (b * c) + r2 * b;
  }

  /** The combined remainder stays below `b * c`. */
  lemma DivDivBound(a: nat, b: nat, c: nat)
    requires b > 0 && c > 0
    ensures (a / b) % c * b + a % b < b * c
  {
    var r2 := (a / b) % c;
    assert r2 * b <= (c - 1) * b;
    assert (c - 1) * b == b * c - b;
  }

  lemma DivModUnique(a: nat, m: nat, q: nat, r: nat)
    requires m > 0 && r < m && a == q * m + r
    ensures a / m == q && a % m == r
  {
    var q' := a / m;
    var r' := a % m;
    assert a == q' * m + r';
    if q' > q {
      MulStep(q, q', m);
    } else if q' < q {
      MulStep(q', q, m);
    }
  }

  lemma {:induction false} MulStep(q: nat, q': nat, m: nat)
    requires q < q'
    ensures q * m + m <= q' * m
    decreases q' - q
  {
    if q + 1 < q' {
      MulStep(q + 1, q', m);
    }
  }

  /** Place `d + 1` of `m` is place `d` of `m / 10`. */
  lemma DigitIndexShift(m: nat, d: nat)
    ensures DigitIndex(m, d + 1) == DigitIndex(m / 10, d)
  {
    DivDiv(m, 10, Pow10(d));
  }

  /** Entry `d` of `Digits(m, n)` is the index `light_1digit` computes for
      place `d`. */
  lemma {:induction false} DigitsAreIndices(m: nat, n: nat)
    ensures forall d :: 0 <= d < n ==> Digits(m, n)[d] == DigitIndex(m, d)
  {
    if n > 0 {
      DigitsAreIndices(m / 10, n - 1);
      forall d | 0 <= d < n
        ensures Digits(m, n)[d] == DigitIndex(m, d)
      {
        if d > 0 {
          DigitIndexShift(m, d - 1);
        }
      }
    }
  }

  lemma ModSplit(m: nat, p: nat)
    requires p > 0
    ensures m % (10 * p) == m % 10 + 10 * ((m / 10) % p)
  {
    var q := (m / 10) / p;
    var r := m % 10 + 10 * ((m / 10) % p);
    assert m / 10 == q * p + (m / 10) % p;
    assert m == 10 * (m / 10) + m % 10;
    assert m == q * (10 * p) + r;
    assert r <= 9 + 10 * (p - 1);
    DivModUnique(m, 10 * p, q, r);
  }

  /** Round trip: the first `n` digits of `m` spell `m` modulo 10^n. */
  lemma {:induction false} DigitsValue(m: nat, n: nat)
    ensures ValueOf(Digits(m, n)) == m % Pow10(n)
  {
    if n > 0 {
      DigitsValue(m / 10, n - 1);
      ModSplit(m, Pow10(n - 1));
      assert Digits(m, n)[1..] == Digits(m / 10, n - 1);
    }
  }

  /** For a count below 10000 -- the loop guard of `four_digit_segment7` --
      the four place indices spell the count exactly. */
  lemma FourPlacesExact(count: nat)
    requires count < 10000
    ensures ValueOf(Digits(count, 4)) == count
  {
    DigitsValue(count, 4);
  }
}
