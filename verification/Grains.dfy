/**
 * Whole grains of memory.  A grain is a power of two, so `Bytes` is the program's shift to the
 * left, `Whole` its shift to the right, and `Low` its mask.
 */
module Grains {

  type Grain = g: nat | g > 0 witness 1

  function Bytes(n: nat, g: Grain): nat {
    if n == 0 then 0 else Bytes(n - 1, g) + g
  }

  function Whole(x: nat, g: Grain): nat {
    if x < g then 0 else 1 + Whole(x - g, g)
  }

  lemma {:induction false} WholeBounds(x: nat, g: Grain)
    ensures Bytes(Whole(x, g), g) <= x < Bytes(Whole(x, g), g) + g
  {
    if x >= g {
      WholeBounds(x - g, g);
    }
  }

  function Low(x: nat, g: Grain): (l: nat)
    ensures l < g && x == Bytes(Whole(x, g), g) + l
  {
    WholeBounds(x, g);
    x - Bytes(Whole(x, g), g)
  }

  lemma {:induction false} ShiftsAreArithmetic(x: nat, g: Grain)
    ensures Bytes(x, g) == x * g && Whole(x, g) == x / g && Low(x, g) == x % g
  {
    BytesIsProduct(x, g);
    WholeBounds(x, g);
    var q := Whole(x, g);
    BytesIsProduct(q, g);
    assert x == g * q + Low(x, g);
    assert g * (x / g) + x % g == g * q + Low(x, g);
    QuotientUnique(x / g, x % g, q, Low(x, g), g);
  }

  lemma {:induction false} BytesIsProduct(n: nat, g: Grain)
    ensures Bytes(n, g) == n * g
  {
    if n > 0 {
      BytesIsProduct(n - 1, g);
      assert n * g == (n - 1) * g + g;
    }
  }

  lemma QuotientUnique(q: int, r: int, q': int, r': int, g: Grain)
    requires g * q + r == g * q' + r' && 0 <= r < g && 0 <= r' < g
    ensures q == q' && r == r'
  {
    var d := q - q';
    assert g * d == g * q - g * q';
  }

  lemma {:induction false} BytesGrow(a: nat, b: nat, g: Grain)
    requires a <= b
    ensures Bytes(a, g) <= Bytes(b, g)
    ensures a < b ==> Bytes(a, g) + g <= Bytes(b, g)
  {
    if a < b {
      BytesGrow(a, b - 1, g);
    }
  }

  lemma {:induction false} BytesAdd(a: nat, b: nat, g: Grain)
    ensures Bytes(a + b, g) == Bytes(a, g) + Bytes(b, g)
  {
    if b > 0 {
      BytesAdd(a, b - 1, g);
    }
  }

  /** Comparing bytes is comparing grains. */
  lemma WholeRange(x: nat, lo: nat, hi: nat, g: Grain)
    ensures Bytes(lo, g) <= x < Bytes(hi, g) <==> lo <= Whole(x, g) < hi
  {
    WholeBounds(x, g);
    var q := Whole(x, g);
    if lo <= q {
      BytesGrow(lo, q, g);
    } else {
      BytesGrow(q, lo, g);
    }
    if hi <= q {
      BytesGrow(hi, q, g);
    } else {
      BytesGrow(q, hi, g);
    }
  }

  lemma WholeIs(x: nat, q: nat, g: Grain)
    requires Bytes(q, g) <= x < Bytes(q, g) + g
    ensures Whole(x, g) == q
  {
    WholeRange(x, q, q + 1, g);
  }

  lemma WholeGrows(a: nat, b: nat, g: Grain)
    requires a <= b
    ensures Whole(a, g) <= Whole(b, g)
  {
    WholeBounds(a, g);
    WholeBounds(b, g);
    WholeRange(b, Whole(a, g), Whole(b, g) + 1, g);
  }

  lemma {:induction false} WholeBelow(x: nat, g: Grain)
    ensures Whole(x, g) <= x
  {
    if x >= g {
      WholeBelow(x - g, g);
    }
  }

  /** Whole grains of a range inside a region are grains of the region. */
  lemma GrainsFit(first: nat, rest: nat, size: nat, g: Grain)
    requires Bytes(first, g) + rest <= size
    ensures first + Whole(rest, g) <= Whole(size, g)
  {
    WholeBounds(rest, g);
    BytesAdd(first, Whole(rest, g), g);
    WholeIs(Bytes(first, g) + rest, first + Whole(rest, g), g);
    WholeGrows(Bytes(first, g) + rest, size, g);
  }

  /** The distance from `start` to the next multiple of the grain. */
  function Padding(start: nat, g: Grain): (p: nat)
    ensures p < g
  {
    g - 1 - Low(start + g - 1, g)
  }

  lemma PaddingAligns(start: nat, g: Grain)
    ensures Bytes(Whole(start + Padding(start, g), g), g) == start + Padding(start, g)
  {
    var q := Whole(start + g - 1, g);
    assert start + Padding(start, g) == Bytes(q, g);
    WholeIs(start + Padding(start, g), q, g);
  }
}
