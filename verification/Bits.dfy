/** Bitwise operators over the non-negative integers. */
module Bits {
  import opened Model

  function Pow2(n: nat): (p: nat)
    ensures p > 0
  {
    if n == 0 then 1 else 2 * Pow2(n - 1)
  }

  /** Bitwise and. */
  function And(a: nat, b: nat): nat
  {
    if a == 0 || b == 0 then 0 else (a % 2) * (b % 2) + 2 * And(a / 2, b / 2)
  }

  /** Masking with 2^n - 1 keeps the low n bits. */
  lemma {:induction false} AndLowMask(a: nat, n: nat)
    ensures And(a, Pow2(n) - 1) == a % Pow2(n)
  {
    if n == 0 {
      assert a % 1 == 0;
    } else {
      var p := Pow2(n - 1);
      AndLowMask(a / 2, n - 1);
      calc {
        And(a, Pow2(n) - 1);
        And(a, 2 * (p - 1) + 1);
        { AndOddMask(a, p - 1); }
        a % 2 + 2 * And(a / 2, p - 1);
        a % 2 + 2 * (a / 2 % p);
        { HalveMod(a, p); }
        a % (2 * p);
      }
    }
  }

  lemma AndOddMask(a: nat, m: nat)
    ensures And(a, 2 * m + 1) == a % 2 + 2 * And(a / 2, m)
  {
    var b := 2 * m + 1;
    assert b % 2 == 1 && b / 2 == m;
    if a != 0 { assert And(a, b) == (a % 2) * 1 + 2 * And(a / 2, b / 2); }
  }

  lemma HalveMod(a: nat, p: nat)
    requires p > 0
    ensures a % (2 * p) == a % 2 + 2 * (a / 2 % p)
  {
    var h := a / 2;
    var q := h / p;
    assert h == q * p + h % p;
    assert a == q * (2 * p) + (a % 2 + 2 * (h % p));
    ModUnique(a, 2 * p, q, a % 2 + 2 * (h % p));
  }

  /** Bit i of a, counted from the least significant. */
  predicate Bit(a: nat, i: nat) {
    if i == 0 then a % 2 == 1 else Bit(a / 2, i - 1)
  }

  /** Bitwise or. */
  function Or(a: nat, b: nat): nat
    decreases a + b
  {
    if a == 0 && b == 0 then 0
    else (if a % 2 == 1 || b % 2 == 1 then 1 else 0) + 2 * Or(a / 2, b / 2)
  }

  lemma {:induction false} BitOfZero(i: nat)
    ensures !Bit(0, i)
  {
    if i > 0 { BitOfZero(i - 1); }
  }

  lemma {:induction false} BitAnd(a: nat, b: nat, i: nat)
    ensures Bit(And(a, b), i) <==> Bit(a, i) && Bit(b, i)
    decreases i
  {
    if a == 0 || b == 0 {
      BitOfZero(i);
    } else if i > 0 {
      assert And(a, b) / 2 == And(a / 2, b / 2);
      BitAnd(a / 2, b / 2, i - 1);
    }
  }

  lemma {:induction false} BitOr(a: nat, b: nat, i: nat)
    ensures Bit(Or(a, b), i) <==> Bit(a, i) || Bit(b, i)
    decreases i
  {
    if a == 0 && b == 0 {
      BitOfZero(i);
    } else {
      var r := Or(a / 2, b / 2);
      assert Or(a, b) == (if a % 2 == 1 || b % 2 == 1 then 1 else 0) + 2 * r;
      hide Or;
      assert Or(a, b) / 2 == r;
      if i > 0 { BitOr(a / 2, b / 2, i - 1); }
    }
  }

  lemma {:induction false} BitPow2(n: nat, i: nat)
    ensures Bit(Pow2(n), i) <==> i == n
    decreases n
  {
    if n == 0 {
      if i > 0 { BitOfZero(i - 1); }
    } else if i > 0 {
      assert Pow2(n) / 2 == Pow2(n - 1);
      BitPow2(n - 1, i - 1);
    }
  }

  /** A number is its bits. */
  lemma {:induction false} SameBits(a: nat, b: nat)
    requires forall i: nat :: Bit(a, i) <==> Bit(b, i)
    ensures a == b
    decreases a + b
  {
    if a != 0 || b != 0 {
      assert Bit(a, 0) <==> Bit(b, 0);
      forall i: nat ensures Bit(a / 2, i) <==> Bit(b / 2, i) {
        assert Bit(a, i + 1) <==> Bit(b, i + 1);
      }
      SameBits(a / 2, b / 2);
    }
  }

  /** Every bit of a is a bit of b. */
  ghost predicate Covered(a: nat, b: nat) { forall i: nat :: Bit(a, i) ==> Bit(b, i) }

  /** Masking changes nothing exactly when the mask covers every bit. */
  lemma AndCovers(a: nat, b: nat)
    ensures And(a, b) == a <==> Covered(a, b)
  {
    if And(a, b) == a {
      forall i: nat | Bit(a, i) ensures Bit(b, i) { BitAnd(a, b, i); }
    } else if Covered(a, b) {
      forall i: nat ensures Bit(And(a, b), i) <==> Bit(a, i) { BitAnd(a, b, i); }
      SameBits(And(a, b), a);
    }
  }

  lemma AndMeets(a: nat, b: nat)
    ensures And(a, b) != 0 <==> exists i: nat :: Bit(a, i) && Bit(b, i)
  {
    if And(a, b) == 0 {
      forall i: nat ensures !(Bit(a, i) && Bit(b, i)) {
        BitAnd(a, b, i);
        BitOfZero(i);
      }
    } else {
      LowestBit(And(a, b), 0);
      BitAnd(a, b, TrailingZeros(And(a, b)));
    }
  }

  /** Bits at or above n of a number below 2^n are clear. */
  lemma {:induction false} HighBits(a: nat, n: nat, i: nat)
    requires a < Pow2(n) && i >= n
    ensures !Bit(a, i)
    decreases n
  {
    if n == 0 { BitOfZero(i); } else { HighBits(a / 2, n - 1, i - 1); }
  }

  lemma {:induction false} OrBound(a: nat, b: nat, n: nat)
    requires a < Pow2(n) && b < Pow2(n)
    ensures Or(a, b) < Pow2(n)
    decreases n
  {
    if n > 0 && (a != 0 || b != 0) { OrBound(a / 2, b / 2, n - 1); }
  }

  lemma {:induction false} Pow2Grows(m: nat, n: nat)
    requires m < n
    ensures Pow2(m) < Pow2(n)
    decreases n
  {
    if m < n - 1 { Pow2Grows(m, n - 1); }
  }

  /** Position of the lowest set bit. */
  function TrailingZeros(a: nat): (z: nat)
    requires a != 0
  {
    if a % 2 == 1 then 0 else 1 + TrailingZeros(a / 2)
  }

  lemma {:induction false} LowestBit(a: nat, i: nat)
    requires a != 0
    ensures Bit(a, TrailingZeros(a)) && (i < TrailingZeros(a) ==> !Bit(a, i))
    decreases a
  {
    if a % 2 == 0 { LowestBit(a / 2, if i == 0 then 0 else i - 1); }
  }

  /** a & (a - 1) clears the lowest set bit and no other. */
  lemma {:induction false} ClearLowest(a: nat, i: nat)
    requires a != 0
    ensures Bit(And(a, a - 1), i) <==> Bit(a, i) && i != TrailingZeros(a)
    ensures And(a, a - 1) < a
    decreases a
  {
    if a % 2 == 1 {
      AndSelf(a / 2);
      assert a > 1 ==> And(a, a - 1) == 2 * (a / 2);
      if i == 0 { } else { assert And(a, a - 1) / 2 == a / 2; }
    } else {
      assert a - 1 == 2 * (a / 2 - 1) + 1;
      assert And(a, a - 1) == 2 * And(a / 2, a / 2 - 1);
      ClearLowest(a / 2, if i == 0 then 0 else i - 1);
    }
  }

  lemma {:induction false} AndSelf(a: nat)
    ensures And(a, a) == a
  {
    if a != 0 { AndSelf(a / 2); }
  }
}
