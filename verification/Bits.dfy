/** Python's bit operators on unbounded non-negative integers, and how they act on single bits. */
module Bits {
  function Pow2(k: nat): (p: nat)
    ensures p >= 1
  {
    if k == 0 then 1 else 2 * Pow2(k - 1)
  }

  predicate Bit(n: nat, k: nat) {
    if k == 0 then n % 2 == 1 else Bit(n / 2, k - 1)
  }

  function ShiftLeft(n: nat, k: nat): nat {
    if k == 0 then n else 2 * ShiftLeft(n, k - 1)
  }

  function Or(a: nat, b: nat): nat
    decreases a + b
  {
    if a == 0 && b == 0 then 0
    else 2 * Or(a / 2, b / 2) + (if a % 2 == 1 || b % 2 == 1 then 1 else 0)
  }

  function And(a: nat, b: nat): nat
    decreases a + b
  {
    if a == 0 || b == 0 then 0
    else 2 * And(a / 2, b / 2) + (if a % 2 == 1 && b % 2 == 1 then 1 else 0)
  }

  function Xor(a: nat, b: nat): nat
    decreases a + b
  {
    if a == 0 && b == 0 then 0
    else 2 * Xor(a / 2, b / 2) + (if a % 2 != b % 2 then 1 else 0)
  }

  lemma {:induction false} BitOfZero(k: nat)
    ensures !Bit(0, k)
  {
    if k > 0 { BitOfZero(k - 1); }
  }

  lemma {:induction false} BitOfOr(a: nat, b: nat, k: nat)
    ensures Bit(Or(a, b), k) <==> Bit(a, k) || Bit(b, k)
  {
    if a == 0 && b == 0 {
      BitOfZero(k);
    } else if k > 0 {
      assert Or(a, b) / 2 == Or(a / 2, b / 2);
      BitOfOr(a / 2, b / 2, k - 1);
    }
  }

  lemma {:induction false} BitOfAnd(a: nat, b: nat, k: nat)
    ensures Bit(And(a, b), k) <==> Bit(a, k) && Bit(b, k)
  {
    if a == 0 || b == 0 {
      BitOfZero(k);
    } else if k > 0 {
      assert And(a, b) / 2 == And(a / 2, b / 2);
      BitOfAnd(a / 2, b / 2, k - 1);
    }
  }

  lemma {:induction false} BitOfShift(n: nat, s: nat, k: nat)
    ensures Bit(ShiftLeft(n, s), k) <==> k >= s && Bit(n, k - s)
  {
    if s > 0 && k > 0 {
      assert ShiftLeft(n, s) / 2 == ShiftLeft(n, s - 1);
      BitOfShift(n, s - 1, k - 1);
    }
  }

  lemma {:induction false} BitOfOne(k: nat)
    ensures Bit(1, k) <==> k == 0
  {
    if k > 0 { BitOfZero(k - 1); }
  }

  lemma {:induction false} ShiftedOne(k: nat)
    ensures ShiftLeft(1, k) == Pow2(k)
  {
    if k > 0 { ShiftedOne(k - 1); }
  }

  /** `(1 << size) - 1` is a mask of exactly `size` ones. */
  lemma {:induction false} BitOfMask(size: nat, k: nat)
    ensures ShiftLeft(1, size) >= 1
    ensures Bit(ShiftLeft(1, size) - 1, k) <==> k < size
  {
    ShiftedOne(size);
    if size == 0 {
      BitOfZero(k);
    } else {
      BitOfMask(size - 1, if k > 0 then k - 1 else 0);
      ShiftedOne(size - 1);
      assert (Pow2(size) - 1) / 2 == Pow2(size - 1) - 1;
    }
  }

  lemma {:induction false} SomeBit(n: nat) returns (k: nat)
    requires n != 0
    ensures Bit(n, k)
  {
    if n % 2 == 1 {
      k := 0;
    } else {
      var j := SomeBit(n / 2);
      k := j + 1;
    }
  }

  /** `n & (1 << k)` is truthy exactly when bit k of n is set. */
  lemma {:induction false} TestBit(n: nat, k: nat)
    ensures And(n, ShiftLeft(1, k)) != 0 <==> Bit(n, k)
  {
    var both := And(n, ShiftLeft(1, k));
    BitOfShift(1, k, k);
    BitOfAnd(n, ShiftLeft(1, k), k);
    if both == 0 {
      BitOfZero(k);
    } else {
      var j := SomeBit(both);
      BitOfAnd(n, ShiftLeft(1, k), j);
      BitOfShift(1, k, j);
      BitOfOne(if j >= k then j - k else 0);
    }
  }

  lemma {:induction false} XorTwice(a: nat, b: nat)
    ensures Xor(Xor(a, b), b) == a
    decreases a + b
  {
    if a != 0 || b != 0 {
      XorTwice(a / 2, b / 2);
      var x := Xor(a, b);
      assert x / 2 == Xor(a / 2, b / 2);
      assert x % 2 == if a % 2 != b % 2 then 1 else 0;
    }
  }

  lemma {:induction false} XorFits(a: nat, b: nat, k: nat)
    requires a < Pow2(k) && b < Pow2(k)
    ensures Xor(a, b) < Pow2(k)
  {
    if k > 0 && (a != 0 || b != 0) { XorFits(a / 2, b / 2, k - 1); }
  }

  /** A number below 2^size is fully determined by its first `size` bits; equivalently no higher bit is set. */
  lemma {:induction false} NoHighBits(n: nat, size: nat)
    requires forall k: nat :: k >= size ==> !Bit(n, k)
    ensures n < Pow2(size)
  {
    if size == 0 {
      if n != 0 {
        var k := SomeBit(n);
      }
    } else {
      forall k: nat | k >= size - 1 ensures !Bit(n / 2, k) {
        assert !Bit(n, k + 1);
      }
      NoHighBits(n / 2, size - 1);
    }
  }
}
