/**
 Bit operations on Python's unbounded non-negative integers: `<<`, `>>`, `|`, `&` and `& ~`,
 each defined on the binary digits, with the laws that turn them into arithmetic.
 */
module Bits {

  function Shl(a: nat, k: nat): (r: nat)
    ensures r >= a
  {
    if k == 0 then a else 2 * Shl(a, k - 1)
  }

  function Shr(a: nat, k: nat): nat {
    if k == 0 then a else Shr(a / 2, k - 1)
  }

  function Or(a: nat, b: nat): nat {
    if a == 0 then b else if b == 0 then a
    else 2 * Or(a / 2, b / 2) + (if a % 2 == 1 || b % 2 == 1 then 1 else 0)
  }

  function And(a: nat, b: nat): nat {
    if a == 0 then 0 else 2 * And(a / 2, b / 2) + (if a % 2 == 1 && b % 2 == 1 then 1 else 0)
  }

  /** `a & ~b`. */
  function AndNot(a: nat, b: nat): nat {
    if a == 0 then 0 else 2 * AndNot(a / 2, b / 2) + (if a % 2 == 1 && b % 2 == 0 then 1 else 0)
  }

  /** Binary digit `j` of `a`. */
  predicate Bit(a: nat, j: nat) {
    Shr(a, j) % 2 == 1
  }

  /** The `k` low-order digits of `a` fit below `Shl(1, k)`. */
  predicate Fits(a: nat, k: nat) {
    a < Shl(1, k)
  }

  // ---- shifts ----

  lemma {:induction false} ShlAdds(a: nat, b: nat, k: nat)
    ensures Shl(a + b, k) == Shl(a, k) + Shl(b, k)
  {
    if k > 0 {
      ShlAdds(a, b, k - 1);
    }
  }

  lemma {:induction false} ShlCompose(a: nat, j: nat, k: nat)
    ensures Shl(a, j + k) == Shl(Shl(a, j), k)
  {
    if k > 0 {
      ShlCompose(a, j, k - 1);
    }
  }

  lemma {:induction false} ShrCompose(a: nat, j: nat, k: nat)
    ensures Shr(a, j + k) == Shr(Shr(a, j), k)
  {
    if j > 0 {
      ShrCompose(a / 2, j - 1, k);
    }
  }

  lemma {:induction false} ShrMonotone(a: nat, b: nat, k: nat)
    requires a <= b
    ensures Shr(a, k) <= Shr(b, k)
  {
    if k > 0 {
      ShrMonotone(a / 2, b / 2, k - 1);
    }
  }

  /** A word is its high part, shifted, plus a low part that fits. */
  lemma {:induction false} ShrOfPacked(a: nat, low: nat, k: nat)
    requires Fits(low, k)
    ensures Shr(Shl(a, k) + low, k) == a
  {
    if k > 0 {
      assert (Shl(a, k) + low) / 2 == Shl(a, k - 1) + low / 2;
      ShrOfPacked(a, low / 2, k - 1);
    }
  }

  lemma ShlFour(a: nat)
    ensures Shl(a, 4) == 16 * a
  {
    assert Shl(a, 2) == 2 * Shl(a, 1);
    assert Shl(a, 4) == 2 * Shl(a, 3);
  }

  lemma ShrTwo(a: nat)
    ensures Shr(a, 2) == a / 4
  {
    assert Shr(a, 2) == Shr(a / 2, 1) == a / 2 / 2;
  }

  lemma ShrFour(a: nat)
    ensures Shr(a, 4) == a / 16
  {
    assert Shr(a, 4) == Shr(a / 2, 3) == Shr(a / 2 / 2, 2) == Shr(a / 2 / 2 / 2, 1);
  }

  lemma ShlTwelve(a: nat)
    ensures Shl(a, 12) == 4096 * a
  {
    ShlCompose(a, 4, 4);
    ShlCompose(a, 8, 4);
    ShlFour(a);
    ShlFour(16 * a);
    ShlFour(256 * a);
  }

  lemma ShlSixteen(a: nat)
    ensures Shl(a, 16) == 65536 * a
  {
    ShlCompose(a, 4, 12);
    ShlFour(a);
    ShlTwelve(16 * a);
  }

  // ---- or, and ----

  /** A number with its last binary digit appended. */
  lemma Halve(x: nat, odd: bool)
    ensures (2 * x + if odd then 1 else 0) / 2 == x
    ensures (2 * x + if odd then 1 else 0) % 2 == 1 <==> odd
  {
  }

  lemma OrHalves(a: nat, b: nat)
    ensures Or(a, b) == 2 * Or(a / 2, b / 2) + (if a % 2 == 1 || b % 2 == 1 then 1 else 0)
  {
  }

  /** On disjoint fields, or is plus. */
  lemma {:induction false} OrPacks(a: nat, low: nat, k: nat)
    requires Fits(low, k)
    ensures Or(Shl(a, k), low) == Shl(a, k) + low
  {
    if k > 0 {
      OrHalves(Shl(a, k), low);
      OrPacks(a, low / 2, k - 1);
    }
  }

  /** A mask of `k` ones keeps the low part: what remains is the part below the shifted high part. */
  lemma {:induction false} MaskKeepsLow(a: nat, k: nat)
    ensures Fits(And(a, Shl(1, k) - 1), k)
    ensures And(a, Shl(1, k) - 1) == a - Shl(Shr(a, k), k)
  {
    if k > 0 && a > 0 {
      Halve(Shl(1, k - 1) - 1, true);
      MaskKeepsLow(a / 2, k - 1);
    } else if k > 0 {
      MaskKeepsLow(0, k - 1);
    } else {
      AndZero(a);
    }
  }

  lemma {:induction false} AndZero(a: nat)
    ensures And(a, 0) == 0
  {
    if a > 0 {
      AndZero(a / 2);
    }
  }

  // ---- digit by digit ----

  lemma {:induction false} BitOfZero(j: nat)
    ensures !Bit(0, j)
  {
    if j > 0 {
      BitOfZero(j - 1);
    }
  }

  lemma {:induction false} BitOfOr(a: nat, b: nat, j: nat)
    ensures Bit(Or(a, b), j) <==> Bit(a, j) || Bit(b, j)
  {
    OrHalves(a, b);
    Halve(Or(a / 2, b / 2), a % 2 == 1 || b % 2 == 1);
    if j > 0 {
      BitOfOr(a / 2, b / 2, j - 1);
    }
  }

  lemma {:induction false} BitOfAndNot(a: nat, b: nat, j: nat)
    ensures Bit(AndNot(a, b), j) <==> Bit(a, j) && !Bit(b, j)
  {
    if a == 0 {
      BitOfZero(j);
    } else {
      Halve(AndNot(a / 2, b / 2), a % 2 == 1 && b % 2 == 0);
      if j > 0 {
        BitOfAndNot(a / 2, b / 2, j - 1);
      }
    }
  }

  lemma {:induction false} BitOfShl(m: nat, k: nat, j: nat)
    ensures Bit(Shl(m, k), j) <==> j >= k && Bit(m, j - k)
  {
    if k > 0 && j > 0 {
      assert Shl(m, k) / 2 == Shl(m, k - 1);
      BitOfShl(m, k - 1, j - 1);
    }
  }

  /** Or and and-not of words that fit still fit. */
  lemma {:induction false} OrFits(a: nat, b: nat, k: nat)
    requires Fits(a, k) && Fits(b, k)
    ensures Fits(Or(a, b), k)
  {
    if k > 0 {
      OrHalves(a, b);
      OrFits(a / 2, b / 2, k - 1);
    }
  }

  lemma {:induction false} AndNotShrinks(a: nat, b: nat)
    ensures AndNot(a, b) <= a
  {
    if a > 0 {
      AndNotShrinks(a / 2, b / 2);
    }
  }

  /** Two words agree when all their digits do. */
  lemma {:induction false} SameBitsSameWord(a: nat, b: nat)
    requires forall j: nat :: Bit(a, j) <==> Bit(b, j)
    ensures a == b
    decreases a + b
  {
    if a > 0 || b > 0 {
      assert Bit(a, 0) <==> Bit(b, 0);
      forall j: nat ensures Bit(a / 2, j) <==> Bit(b / 2, j) {
        assert Bit(a, j + 1) <==> Bit(b, j + 1);
      }
      SameBitsSameWord(a / 2, b / 2);
    }
  }
}
