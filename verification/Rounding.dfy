/**
 Integer division rounded down or up and the integer square root, each with the order law
 that defines it. Every proof about a curve uses these laws and never the definitions.
 */
module Rounding {

  function FloorDiv(x: nat, d: nat): nat
    requires d > 0
  {
    x / d
  }

  /** The quotient, plus one when the remainder is not zero. */
  function CeilDiv(x: nat, d: nat): nat
    requires d > 0
  {
    if x % d == 0 then x / d else x / d + 1
  }

  /** The floor square root, the meaning of `BigUint::sqrt`. */
  function FloorSqrt(n: nat): nat {
    SearchRoot(n, 0)
  }

  function SearchRoot(n: nat, r: nat): nat
    requires r <= n
    decreases n - r
  {
    if r + 1 <= n && (r + 1) * (r + 1) <= n then SearchRoot(n, r + 1) else r
  }

  lemma {:induction false} SearchBounds(n: nat, r: nat)
    requires r <= n && r * r <= n
    ensures SearchRoot(n, r) * SearchRoot(n, r) <= n < (SearchRoot(n, r) + 1) * (SearchRoot(n, r) + 1)
    decreases n - r
  {
    if (r + 1) * (r + 1) <= n {
      assert (r + 1) * (r + 1) == r * r + r + r + 1;
      SearchBounds(n, r + 1);
    }
  }

  lemma SqrtBounds(n: nat)
    ensures FloorSqrt(n) * FloorSqrt(n) <= n < (FloorSqrt(n) + 1) * (FloorSqrt(n) + 1)
  {
    SearchBounds(n, 0);
  }

  lemma MulLe(x: nat, y: nat, z: nat)
    requires x <= y
    ensures x * z <= y * z
  {
  }

  lemma MulAdd(x: nat, y: nat, z: nat)
    ensures (x + y) * z == x * z + y * z
  {
  }

  lemma MulSwap(x: nat, y: nat, z: nat)
    ensures x * y * z == x * z * y
  {
  }

  lemma MulLeIff(x: nat, y: nat, z: nat)
    requires z > 0
    ensures x <= y <==> x * z <= y * z
  {
    if x <= y {
      MulLe(x, y, z);
    } else {
      MulLe(y + 1, x, z);
      assert (y + 1) * z == y * z + z;
    }
  }

  lemma SquareLeIff(x: nat, y: nat)
    ensures x <= y <==> x * x <= y * y
  {
    if x <= y {
      MulLe(x, y, x);
      MulLe(x, y, y);
    } else {
      MulLe(y + 1, x, x);
      MulLe(y + 1, x, y + 1);
      assert (y + 1) * (y + 1) == y * y + 2 * y + 1;
    }
  }

  lemma FloorBounds(x: nat, d: nat)
    requires d > 0
    ensures FloorDiv(x, d) * d <= x < FloorDiv(x, d) * d + d
  {
    assert x == d * (x / d) + x % d;
  }

  /** Rounding down is the right adjoint of multiplication. */
  lemma FloorIff(q: nat, x: nat, d: nat)
    requires d > 0
    ensures q <= FloorDiv(x, d) <==> q * d <= x
  {
    var f := FloorDiv(x, d);
    FloorBounds(x, d);
    if q <= f {
      MulLe(q, f, d);
    } else {
      MulLe(f + 1, q, d);
      assert (f + 1) * d == f * d + d;
    }
  }

  lemma CeilBounds(x: nat, d: nat)
    requires d > 0
    ensures x <= CeilDiv(x, d) * d < x + d
  {
    var f := x / d;
    assert x == d * f + x % d;
    assert (f + 1) * d == d * f + d;
  }

  lemma CeilIsFloor(x: nat, d: nat)
    requires d > 0
    ensures CeilDiv(x, d) == if x % d == 0 then FloorDiv(x, d) else FloorDiv(x, d) + 1
  {
  }

  /** Rounding up is the left adjoint of multiplication. */
  lemma CeilIff(x: nat, d: nat, q: nat)
    requires d > 0
    ensures CeilDiv(x, d) <= q <==> x <= q * d
  {
    var c := CeilDiv(x, d);
    CeilBounds(x, d);
    if c <= q {
      MulLe(c, q, d);
    } else {
      MulLe(q + 1, c, d);
      assert (q + 1) * d == q * d + d;
    }
  }

  /** The square root is the right adjoint of squaring. */
  lemma SqrtIff(t: nat, n: nat)
    ensures t <= FloorSqrt(n) <==> t * t <= n
  {
    var r := FloorSqrt(n);
    SqrtBounds(n);
    SquareLeIff(t, r);
    SquareLeIff(r + 1, t);
  }

  lemma FloorMono(x: nat, y: nat, d: nat)
    requires d > 0 && x <= y
    ensures FloorDiv(x, d) <= FloorDiv(y, d)
  {
    FloorBounds(x, d);
    FloorIff(FloorDiv(x, d), y, d);
  }

  lemma CeilMono(x: nat, y: nat, d: nat)
    requires d > 0 && x <= y
    ensures CeilDiv(x, d) <= CeilDiv(y, d)
  {
    CeilBounds(y, d);
    CeilIff(x, d, CeilDiv(y, d));
  }

  lemma SqrtMono(x: nat, y: nat)
    requires x <= y
    ensures FloorSqrt(x) <= FloorSqrt(y)
  {
    SqrtBounds(x);
    SqrtIff(FloorSqrt(x), y);
  }

  /** Two roundings down never exceed one rounding of the sum, and miss at most one. */
  lemma FloorSplit(x: nat, y: nat, d: nat)
    requires d > 0
    ensures FloorDiv(x, d) + FloorDiv(y, d) <= FloorDiv(x + y, d) <= FloorDiv(x, d) + FloorDiv(y, d) + 1
  {
    var f, g := FloorDiv(x, d), FloorDiv(y, d);
    FloorBounds(x, d);
    FloorBounds(y, d);
    assert (f + g) * d == f * d + g * d;
    assert (f + g + 2) * d == f * d + g * d + 2 * d;
    FloorIff(f + g, x + y, d);
    FloorIff(f + g + 2, x + y, d);
  }

  lemma CeilSplit(x: nat, y: nat, d: nat)
    requires d > 0
    ensures CeilDiv(x + y, d) <= CeilDiv(x, d) + CeilDiv(y, d)
  {
    var f, g := CeilDiv(x, d), CeilDiv(y, d);
    CeilBounds(x, d);
    CeilBounds(y, d);
    assert (f + g) * d == f * d + g * d;
    CeilIff(x + y, d, f + g);
  }

  /** Rounding a sum down costs at most the round-up of one of its parts. */
  lemma FloorOfSum(x: nat, y: nat, d: nat)
    requires d > 0
    ensures FloorDiv(x + y, d) <= FloorDiv(x, d) + CeilDiv(y, d)
  {
    var f, c := FloorDiv(x, d), CeilDiv(y, d);
    FloorBounds(x, d);
    CeilBounds(y, d);
    assert (f + c + 1) * d == f * d + c * d + d;
    FloorIff(f + c + 1, x + y, d);
  }

  lemma ExactDivision(x: nat, d: nat)
    requires d > 0
    ensures FloorDiv(x * d, d) == CeilDiv(x * d, d) == x
  {
    FloorIff(x, x * d, d);
    FloorIff(x + 1, x * d, d);
    MulAdd(x, 1, d);
    CeilIff(x * d, d, x);
    FloorBounds(x * d, d);
  }

  lemma ExactRoot(x: nat)
    ensures FloorSqrt(x * x) == x
  {
    var r := FloorSqrt(x * x);
    SqrtBounds(x * x);
    SquareLeIff(r, x);
    SquareLeIff(r + 1, x);
  }
}
