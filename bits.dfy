/**
 * Arithmetic on unbounded non-negative integers as the assemblers use it:
 * Python's `<<` and `|` on `int`.  Nothing here masks to 16 bits, exactly as
 * in the source, so a field that is too wide spills into its neighbours.
 */
module Bits {

  /** 2 to the power k. */
  function Pow2(k: nat): (r: nat)
    ensures r >= 1
  {
    if k == 0 then 1 else 2 * Pow2(k - 1)
  }

  /** Python's `x << k` for a non-negative `x`. */
  function Shl(x: nat, k: nat): nat
  {
    x * Pow2(k)
  }

  /** Python's `a | b` for non-negative `a` and `b`, bit by bit from the least significant bit. */
  function Or(a: nat, b: nat): nat
    decreases a
  {
    if a == 0 then b
    else if b == 0 then a
    else 2 * Or(a / 2, b / 2) + (if a % 2 == 1 || b % 2 == 1 then 1 else 0)
  }

  /** Bit k of x (0 or 1). */
  function Bit(x: nat, k: nat): nat
  {
    (x / Pow2(k)) % 2
  }

  /** The recursion step of Or holds for all arguments, zero ones included. */
  lemma OrStep(a: nat, b: nat)
    ensures Or(a, b) == 2 * Or(a / 2, b / 2) + (if a % 2 == 1 || b % 2 == 1 then 1 else 0)
  {
    if a == 0 {
      assert Or(0, b / 2) == b / 2;
    } else if b == 0 {
      OrZero(a / 2);
    }
  }

  lemma OrZero(a: nat)
    ensures Or(a, 0) == a
  {
  }

  /** OR is the bitwise disjunction: bit k of `a | b` is set iff bit k of a or of b is. */
  lemma {:induction false} OrBit(a: nat, b: nat, k: nat)
    ensures Bit(Or(a, b), k) == (if Bit(a, k) == 1 || Bit(b, k) == 1 then 1 else 0)
  {
    OrStep(a, b);
    var o := Or(a, b);
    var bit := if a % 2 == 1 || b % 2 == 1 then 1 else 0;
    if k == 0 {
      assert Pow2(0) == 1;
    } else {
      OrBit(a / 2, b / 2, k - 1);
      HalfBit(o, k);
      HalfBit(a, k);
      HalfBit(b, k);
      assert o / 2 == Or(a / 2, b / 2);
    }
  }

  /** Bit k of x is bit k - 1 of x / 2. */
  lemma HalfBit(x: nat, k: nat)
    requires k > 0
    ensures Bit(x, k) == Bit(x / 2, k - 1)
  {
    DivDiv(x, 2, Pow2(k - 1));
  }

  lemma DivDiv(x: nat, p: nat, q: nat)
    requires p > 0 && q > 0
    ensures x / p / q == x / (p * q)
  {
    var a, ra := x / p, x % p;
    var b, rb := a / q, a % q;
    DivDivParts(x, p, q, a, ra, b, rb);
    DivUnique(x, p * q, b, rb * p + ra);
  }

  /** Two successive quotient-remainder splits of x combine into one split by p * q. */
  lemma DivDivParts(x: nat, p: nat, q: nat, a: nat, ra: nat, b: nat, rb: nat)
    requires p > 0 && q > 0
    requires x == a * p + ra && ra < p && a == b * q + rb && rb < q
    ensures x == b * (p * q) + (rb * p + ra) && rb * p + ra < p * q
  {
    MulAddDistrib(b * q, rb, p);
    MulAssocComm(b, q, p);
    MulMono(rb, q - 1, p);
    MulAddDistrib(q - 1, 1, p);
  }

  lemma MulAddDistrib(a: int, b: int, c: int)
    ensures (a + b) * c == a * c + b * c
  {
  }

  lemma MulAssocComm(a: int, b: int, c: int)
    ensures (a * b) * c == a * (c * b)
  {
  }

  lemma MulMono(a: nat, b: nat, c: nat)
    requires a <= b
    ensures a * c <= b * c
  {
  }

  /** Euclidean division is determined by quotient and remainder. */
  lemma DivUnique(x: nat, d: nat, q: nat, r: nat)
    requires d > 0 && r < d && x == q * d + r
    ensures x / d == q && x % d == r
  {
    var q', r' := x / d, x % d;
    assert x == q' * d + r';
    if q' > q {
      MulMono(q + 1, q', d);
    } else if q' < q {
      MulMono(q' + 1, q, d);
    }
  }

  /**
   * Field packing: OR-ing a value that fits below bit k into a value whose low k bits
   * are zero is plain addition, so the two fields do not interfere.
   */
  lemma {:induction false} OrDisjoint(a: nat, b: nat, k: nat)
    requires b < Pow2(k)
    ensures Or(a * Pow2(k), b) == a * Pow2(k) + b
  {
    if k == 0 {
      OrZero(a);
    } else {
      var p := Pow2(k - 1);
      var x := a * Pow2(k);
      assert x == 2 * (a * p);
      OrStep(x, b);
      assert x / 2 == a * p;
      assert x % 2 == 0;
      OrDisjoint(a, b / 2, k - 1);
    }
  }

  /** Doubling both arguments doubles their OR. */
  lemma OrDouble(x: nat, y: nat)
    ensures Or(2 * x, 2 * y) == 2 * Or(x, y)
  {
    OrStep(2 * x, 2 * y);
  }

  /** Shifting both arguments by the same amount commutes with OR. */
  lemma {:induction false} OrShifted(a: nat, b: nat, k: nat)
    ensures Or(a * Pow2(k), b * Pow2(k)) == Or(a, b) * Pow2(k)
  {
    if k > 0 {
      OrShifted(a, b, k - 1);
      OrShiftStep(a, b, Pow2(k - 1), Pow2(k));
    }
  }

  /** One step of OrShifted: a shift that commutes with OR still does after one more doubling. */
  lemma OrShiftStep(a: nat, b: nat, p: nat, q: nat)
    requires q == 2 * p && Or(a * p, b * p) == Or(a, b) * p
    ensures Or(a * q, b * q) == Or(a, b) * q
  {
    var x, y, z := a * p, b * p, Or(a, b) * p;
    Twice(a, p, q);
    Twice(b, p, q);
    Twice(Or(a, b), p, q);
    OrDouble(x, y);
  }

  lemma Twice(a: nat, p: nat, q: nat)
    requires q == 2 * p
    ensures a * q == 2 * (a * p)
  {
  }
}
