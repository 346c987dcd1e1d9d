/** The ready group: an unsigned word with one bit per priority, edited with masks and searched for
    its lowest set bit.  Words are naturals; the bitwise operators work digit by digit. */
module Bits {

  /** 1 << p */
  function Mask(p: nat): (r: nat)
    ensures r > 0
  {
    if p == 0 then 1 else 2 * Mask(p - 1)
  }

  predicate HasBit(g: nat, p: nat) { if p == 0 then g % 2 == 1 else HasBit(g / 2, p - 1) }

  /** a | b */
  function Or(a: nat, b: nat): nat {
    if a == 0 then b else (if a % 2 == 1 || b % 2 == 1 then 1 else 0) + 2 * Or(a / 2, b / 2)
  }

  /** a & ~b */
  function AndNot(a: nat, b: nat): nat {
    if a == 0 then 0 else (if a % 2 == 1 && b % 2 == 0 then 1 else 0) + 2 * AndNot(a / 2, b / 2)
  }

  lemma {:induction false} MaskBit(p: nat, q: nat)
    ensures HasBit(Mask(p), q) <==> p == q
  {
    if p == 0 {
      if q > 0 { ZeroHasNone(q - 1); }
    } else if q > 0 {
      MaskBit(p - 1, q - 1);
    }
  }

  lemma {:induction false} ZeroHasNone(p: nat)
    ensures !HasBit(0, p)
  {
    if p > 0 { ZeroHasNone(p - 1); }
  }

  lemma {:induction false} OrBit(a: nat, b: nat, p: nat)
    ensures HasBit(Or(a, b), p) <==> HasBit(a, p) || HasBit(b, p)
    decreases p
  {
    if a == 0 {
      ZeroHasNone(p);
    } else if p > 0 {
      OrBit(a / 2, b / 2, p - 1);
    }
  }

  lemma {:induction false} AndNotBit(a: nat, b: nat, p: nat)
    ensures HasBit(AndNot(a, b), p) <==> HasBit(a, p) && !HasBit(b, p)
    decreases p
  {
    if a == 0 {
      ZeroHasNone(p);
    } else if p > 0 {
      AndNotBit(a / 2, b / 2, p - 1);
    }
  }

  /** a & b */
  function And(a: nat, b: nat): (r: nat)
    ensures r <= a && r <= b
  {
    if a == 0 then 0 else (if a % 2 == 1 && b % 2 == 1 then 1 else 0) + 2 * And(a / 2, b / 2)
  }

  lemma {:induction false} AndBit(a: nat, b: nat, p: nat)
    ensures HasBit(And(a, b), p) <==> HasBit(a, p) && HasBit(b, p)
    decreases p
  {
    if a == 0 {
      ZeroHasNone(p);
    } else if p > 0 {
      AndBit(a / 2, b / 2, p - 1);
    }
  }

  /** x & ~(2^k - 1) rounds down to a multiple of 2^k. */
  lemma {:induction false} AndNotLow(x: nat, k: nat)
    ensures AndNot(x, Mask(k) - 1) == x / Mask(k) * Mask(k)
    decreases k
  {
    if k == 0 {
      AndNotZero(x);
    } else if x != 0 {
      var m := Mask(k - 1);
      AndNotLow(x / 2, k - 1);
      OddHalf(m);
      HalfDiv(x, m);
      Regroup(x / (2 * m), m);
    }
  }

  lemma OddHalf(m: nat)
    requires m > 0
    ensures (2 * m - 1) / 2 == m - 1 && (2 * m - 1) % 2 == 1
  {
  }

  lemma Regroup(q: nat, m: nat)
    ensures q * (2 * m) == 2 * (q * m)
  {
  }

  lemma {:induction false} AndNotZero(x: nat)
    ensures AndNot(x, 0) == x
  {
    if x != 0 { AndNotZero(x / 2); }
  }

  lemma HalfDiv(x: nat, m: nat)
    requires m > 0
    ensures x / (2 * m) == x / 2 / m
  {
    var q, r := x / (2 * m), x % (2 * m);
    assert x == 2 * m * q + r;
    assert x / 2 == m * q + r / 2;
    assert r / 2 < m;
    assert (m * q + r / 2) / m == q by { DivUnique(m * q + r / 2, m, q, r / 2); }
  }

  lemma MulSmall(m: int, k: int)
    requires 0 - m < m * k < m
    ensures k == 0
  {
    if k >= 1 { assert false; } else if k <= -1 { assert false; }
  }

  lemma DivUnique(x: nat, m: nat, q: nat, r: nat)
    requires m > 0 && x == m * q + r && r < m
    ensures x / m == q
  {
    var k := x / m - q;
    assert m * k == m * (x / m) - m * q;
    assert x == m * (x / m) + x % m;
    MulSmall(m, k);
  }

  predicate IsPowerOf2(x: nat) { x == 1 || (x > 1 && x % 2 == 0 && IsPowerOf2(x / 2)) }

  lemma {:induction false} OrSelf(x: nat)
    ensures Or(x, x) == x
  {
    if x != 0 { OrSelf(x / 2); }
  }

  /** (x | (x - 1)) + 1 == 2 * x tells the powers of two. */
  lemma {:induction false} PowerTest(x: nat)
    requires x > 0
    ensures Or(x, x - 1) + 1 == 2 * x <==> IsPowerOf2(x)
  {
    if x % 2 == 1 {
      OrSelf(x / 2);
      assert (x - 1) / 2 == x / 2;
    } else {
      PowerTest(x / 2);
      assert (x - 1) / 2 == x / 2 - 1 && (x - 1) % 2 == 1;
    }
  }

  lemma {:induction false} PowerMask(x: nat) returns (k: nat)
    requires IsPowerOf2(x)
    ensures x == Mask(k)
  {
    if x == 1 {
      k := 0;
    } else {
      k := PowerMask(x / 2);
      k := k + 1;
    }
  }

  ghost predicate Covers(a: nat, b: nat) { forall p: nat :: HasBit(b, p) ==> HasBit(a, p) }

  /** And-ing leaves b as it is exactly when every bit of b is set in a. */
  lemma AndKeeps(a: nat, b: nat)
    ensures And(a, b) == b <==> Covers(a, b)
  {
    if And(a, b) == b {
      forall p: nat | HasBit(b, p) ensures HasBit(a, p) { AndBit(a, b, p); }
    }
    if Covers(a, b) { AndCovered(a, b); }
  }

  lemma {:induction false} AndCovered(a: nat, b: nat)
    requires Covers(a, b)
    ensures And(a, b) == b
    decreases b
  {
    if b != 0 {
      assert HasBit(b, 0) ==> HasBit(a, 0);
      forall p: nat | HasBit(b / 2, p) ensures HasBit(a / 2, p) {
        assert HasBit(b, p + 1);
        assert HasBit(a, p + 1);
      }
      AndCovered(a / 2, b / 2);
    }
  }

  /** And-ing with ones. */
  lemma {:induction false} AndOnes(k: nat, b: nat)
    requires b < Mask(k)
    ensures And(Mask(k) - 1, b) == b
  {
    if k > 0 {
      AndOnes(k - 1, b / 2);
      assert (Mask(k) - 1) / 2 == Mask(k - 1) - 1;
    }
  }

  /** __rt_ffs(g) - 1: the position of the lowest set bit. */
  function Lowest(g: nat): (p: nat)
    requires g != 0
    ensures HasBit(g, p)
    ensures forall q :: 0 <= q < p ==> !HasBit(g, q)
  {
    if g % 2 == 1 then 0 else
      assert forall q :: 0 < q ==> HasBit(g, q) == HasBit(g / 2, q - 1);
      1 + Lowest(g / 2)
  }
}
