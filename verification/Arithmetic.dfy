/** Minimum, maximum, powers of two, and division by a variable divisor. */
module Arithmetic {

  function Min(a: nat, b: nat): nat {
    if a < b then a else b
  }

  function Max(a: nat, b: nat): nat {
    if a < b then b else a
  }

  function Pow2(k: nat): (p: nat)
    ensures p > 0
  {
    if k == 0 then 1 else 2 * Pow2(k - 1)
  }

  lemma {:induction false} TimesGrows(q: nat, q': nat, m: nat)
    requires q < q'
    ensures q * m + m <= q' * m
  {
    assert q' * m == (q' - 1) * m + m;
    if q < q' - 1 {
      TimesGrows(q, q' - 1, m);
    }
  }

  lemma SameQuotient(q: nat, r: nat, q': nat, r': nat, m: nat)
    requires q * m + r == q' * m + r' && r < m && r' < m
    ensures q == q' && r == r'
  {
    if q < q' {
      TimesGrows(q, q', m);
    } else if q' < q {
      TimesGrows(q', q, m);
    }
  }

  lemma DivisionSteps(x: nat, m: nat)
    requires m > 0 && x >= m
    ensures x / m >= 1 && (x - m) / m == x / m - 1 && (x - m) % m == x % m
  {
    var q, r := x / m, x % m;
    var q', r' := (x - m) / m, (x - m) % m;
    assert q * m + r == x && q' * m + r' == x - m;
    assert (q' + 1) * m == q' * m + m;
    SameQuotient(q, r, q' + 1, r', m);
  }

  lemma RemainderIsUnique(x: nat, q: nat, r: nat, m: nat)
    requires m > 0 && x == q * m + r && r < m
    ensures x / m == q && x % m == r
  {
    assert x / m * m + x % m == x;
    SameQuotient(x / m, x % m, q, r, m);
  }

  lemma ScaledQuotient(c: nat, q: nat, m: nat)
    ensures (128 * c + q) * m == 128 * (c * m) + q * m
  {
  }

  /** Reducing before a shift by seven bits and an addition makes no difference to the remainder. */
  lemma ReduceEarly(a: nat, b: nat, m: nat)
    requires m > 0
    ensures (a + 128 * (b % m)) % m == (a + 128 * b) % m
  {
    var x := a + 128 * (b % m);
    assert x == x / m * m + x % m;
    assert b == b / m * m + b % m;
    ScaledQuotient(b / m, x / m, m);
    RemainderIsUnique(a + 128 * b, 128 * (b / m) + x / m, x % m, m);
  }
}
