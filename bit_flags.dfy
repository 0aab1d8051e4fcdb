/**
 * Bitwise OR on non-negative integers, defined digit by digit in base 2, and
 * the bit test used to state what it does.
 */
module BitFlags {

  function Pow2(k: nat): (r: nat)
    ensures r >= 1
  {
    if k == 0 then 1 else 2 * Pow2(k - 1)
  }

  /** Whether bit k of x is set. */
  predicate HasBit(x: nat, k: nat) {
    if k == 0 then x % 2 == 1 else HasBit(x / 2, k - 1)
  }

  /** `a | b` for non-negative operands. */
  function BitOr(a: nat, b: nat): nat
    decreases a + b
  {
    if a == 0 then b
    else if b == 0 then a
    else 2 * BitOr(a / 2, b / 2) + (if a % 2 == 1 || b % 2 == 1 then 1 else 0)
  }

  /** A bit is set in `a | b` exactly when it is set in a or in b. */
  lemma {:induction false} BitOrHasBit(a: nat, b: nat, k: nat)
    ensures HasBit(BitOr(a, b), k) <==> HasBit(a, k) || HasBit(b, k)
    decreases a + b
  {
    if a != 0 && b != 0 {
      var low := if a % 2 == 1 || b % 2 == 1 then 1 else 0;
      var x := 2 * BitOr(a / 2, b / 2) + low;
      assert x / 2 == BitOr(a / 2, b / 2) && x % 2 == low;
      if k > 0 {
        BitOrHasBit(a / 2, b / 2, k - 1);
      }
    } else if a == 0 {
      ZeroHasNoBit(k);
    } else {
      ZeroHasNoBit(k);
    }
  }

  lemma {:induction false} ZeroHasNoBit(k: nat)
    ensures !HasBit(0, k)
  {
    if k > 0 {
      ZeroHasNoBit(k - 1);
    }
  }

  /** The only bit of 2^j is bit j. */
  lemma {:induction false} Pow2HasBit(j: nat, k: nat)
    ensures HasBit(Pow2(j), k) <==> j == k
  {
    if j == 0 {
      if k > 0 {
        ZeroHasNoBit(k - 1);
      }
    } else if k > 0 {
      Pow2HasBit(j - 1, k - 1);
    } else {
      assert Pow2(j) % 2 == 0;
    }
  }

  /** With no bit in common, OR is addition. */
  lemma {:induction false} BitOrDisjoint(a: nat, b: nat)
    requires forall k: nat :: !(HasBit(a, k) && HasBit(b, k))
    ensures BitOr(a, b) == a + b
    decreases a + b
  {
    if a != 0 && b != 0 {
      forall k: nat ensures !(HasBit(a / 2, k) && HasBit(b / 2, k)) {
        assert HasBit(a, k + 1) == HasBit(a / 2, k);
        assert HasBit(b, k + 1) == HasBit(b / 2, k);
      }
      BitOrDisjoint(a / 2, b / 2);
      assert !(HasBit(a, 0) && HasBit(b, 0));
    }
  }

  /** OR of two values below 2^n stays below 2^n. */
  lemma {:induction false} BitOrBelow(a: nat, b: nat, n: nat)
    requires a < Pow2(n) && b < Pow2(n)
    ensures BitOr(a, b) < Pow2(n)
    decreases a + b
  {
    if a != 0 && b != 0 {
      assert n > 0;
      BitOrBelow(a / 2, b / 2, n - 1);
    }
  }

  /** OR of two even values is even. */
  lemma BitOrEven(a: nat, b: nat)
    requires a % 2 == 0 && b % 2 == 0
    ensures BitOr(a, b) % 2 == 0
  {
  }

  /** `a | b` is zero only when both operands are. */
  lemma BitOrZero(a: nat, b: nat)
    ensures BitOr(a, b) == 0 <==> a == 0 && b == 0
  {
  }

  /** Two values with the same bits are equal. */
  lemma {:induction false} SameBitsEqual(a: nat, b: nat)
    requires forall k: nat :: HasBit(a, k) <==> HasBit(b, k)
    ensures a == b
    decreases a + b
  {
    if a + b > 0 {
      forall k: nat ensures HasBit(a / 2, k) <==> HasBit(b / 2, k) {
        assert HasBit(a, k + 1) == HasBit(a / 2, k);
        assert HasBit(b, k + 1) == HasBit(b / 2, k);
      }
      SameBitsEqual(a / 2, b / 2);
      assert HasBit(a, 0) <==> HasBit(b, 0);
    }
  }
}
