/** Python's bit operators on non-negative integers of any size, and bit strings. */
module Bits {

  // ---- operators -------------------------------------------------------------------------------

  /** `a ^ b` */
  function Xor(a: nat, b: nat): nat
    decreases a + b
  {
    if a == 0 && b == 0 then 0 else (if a % 2 == b % 2 then 0 else 1) + 2 * Xor(a / 2, b / 2)
  }

  /** `a | b` */
  function Or(a: nat, b: nat): nat
    decreases a + b
  {
    if a == 0 && b == 0 then 0 else (if a % 2 == 0 == b % 2 then 0 else 1) + 2 * Or(a / 2, b / 2)
  }

  /** `a << k` */
  function Shl(a: nat, k: nat): nat {
    if k == 0 then a else 2 * Shl(a, k - 1)
  }

  /** `a >> k` */
  function Shr(a: nat, k: nat): nat
    decreases k
  {
    if k == 0 then a else Shr(a / 2, k - 1)
  }

  /** `a & ((1 << k) - 1)` */
  function Low(a: nat, k: nat): nat
    decreases k
  {
    if k == 0 then 0 else a % 2 + 2 * Low(a / 2, k - 1)
  }

  /** `a` is representable in `k` bits. */
  predicate Fits(a: nat, k: nat) {
    Shr(a, k) == 0
  }

  // ---- algebra of exclusive or -----------------------------------------------------------------

  lemma XorHalf(a: nat, b: nat)
    ensures Xor(a, b) / 2 == Xor(a / 2, b / 2)
    ensures Xor(a, b) % 2 == if a % 2 == b % 2 then 0 else 1
  {
  }

  lemma Halves(a: nat, b: nat)
    requires a % 2 == b % 2 && a / 2 == b / 2
    ensures a == b
  {
  }

  lemma {:induction false} XorComm(a: nat, b: nat)
    ensures Xor(a, b) == Xor(b, a)
    decreases a + b
  {
    if a + b > 0 {
      XorComm(a / 2, b / 2);
    }
  }

  lemma {:induction false} XorZeroRight(a: nat)
    ensures Xor(a, 0) == a
  {
    if a > 0 {
      XorZeroRight(a / 2);
    }
  }

  lemma {:induction false} XorAssoc(a: nat, b: nat, c: nat)
    ensures Xor(Xor(a, b), c) == Xor(a, Xor(b, c))
    decreases a + b + c
  {
    if a + b + c > 0 {
      XorAssoc(a / 2, b / 2, c / 2);
      XorHalf(a, b);
      XorHalf(b, c);
      XorHalf(Xor(a, b), c);
      XorHalf(a, Xor(b, c));
      Halves(Xor(Xor(a, b), c), Xor(a, Xor(b, c)));
    }
  }

  lemma {:induction false} XorEqual(a: nat, b: nat)
    ensures Xor(a, b) == 0 <==> a == b
    decreases a + b
  {
    if a + b > 0 {
      XorHalf(a, b);
      XorEqual(a / 2, b / 2);
    }
  }

  /** Exchanging the inner operands of a sum of two sums. */
  lemma XorSwap(a: nat, b: nat, c: nat, d: nat)
    ensures Xor(Xor(a, b), Xor(c, d)) == Xor(Xor(a, c), Xor(b, d))
  {
    XorAssoc(a, b, Xor(c, d));
    XorAssoc(b, c, d);
    XorComm(b, c);
    XorAssoc(c, b, d);
    XorAssoc(a, c, Xor(b, d));
  }

  lemma XorCancel(a: nat, b: nat)
    ensures Xor(Xor(a, b), b) == a
    ensures Xor(a, Xor(a, b)) == b
  {
    XorAssoc(a, b, b);
    XorEqual(b, b);
    XorZeroRight(a);
    XorAssoc(a, a, b);
    XorEqual(a, a);
    XorComm(0, b);
    XorZeroRight(b);
  }

  lemma {:induction false} XorShr(a: nat, b: nat, k: nat)
    ensures Shr(Xor(a, b), k) == Xor(Shr(a, k), Shr(b, k))
    decreases k
  {
    if k > 0 {
      XorHalf(a, b);
      XorShr(a / 2, b / 2, k - 1);
    }
  }

  lemma LowHalf(a: nat, k: nat)
    requires k > 0
    ensures Low(a, k) / 2 == Low(a / 2, k - 1) && Low(a, k) % 2 == a % 2
  {
  }

  lemma {:induction false} XorLow(a: nat, b: nat, k: nat)
    ensures Low(Xor(a, b), k) == Xor(Low(a, k), Low(b, k))
    decreases k
  {
    if k > 0 {
      XorHalf(a, b);
      XorLow(a / 2, b / 2, k - 1);
      LowHalf(a, k);
      LowHalf(b, k);
      LowHalf(Xor(a, b), k);
      XorHalf(Low(a, k), Low(b, k));
      Halves(Low(Xor(a, b), k), Xor(Low(a, k), Low(b, k)));
    }
  }

  lemma ShlHalf(a: nat, k: nat)
    requires k > 0
    ensures Shl(a, k) / 2 == Shl(a, k - 1) && Shl(a, k) % 2 == 0
  {
  }

  lemma {:induction false} XorShl(a: nat, b: nat, k: nat)
    ensures Shl(Xor(a, b), k) == Xor(Shl(a, k), Shl(b, k))
  {
    if k > 0 {
      XorShl(a, b, k - 1);
      ShlHalf(a, k);
      ShlHalf(b, k);
      ShlHalf(Xor(a, b), k);
      XorHalf(Shl(a, k), Shl(b, k));
      Halves(Shl(Xor(a, b), k), Xor(Shl(a, k), Shl(b, k)));
    }
  }

  // ---- shifts and masks ------------------------------------------------------------------------

  lemma {:induction false} ShlAdd(a: nat, k: nat)
    ensures Shl(a, k + 1) == Shl(2 * a, k)
  {
    if k > 0 {
      ShlAdd(a, k - 1);
    }
  }

  lemma ShlStep(a: nat, k: nat)
    requires k > 0
    ensures Shl(a, k) / 2 == Shl(a, k - 1) && Shl(a, k) % 2 == 0
  {
  }

  lemma ShrStep(a: nat, k: nat)
    requires k > 0
    ensures Shr(a, k) == Shr(a / 2, k - 1) && Low(a, k) == a % 2 + 2 * Low(a / 2, k - 1)
  {
  }

  /** Putting `k` low bits under a shifted word: `^`, `|` and `+` agree. */
  lemma {:induction false} ShlJoin(a: nat, v: nat, k: nat)
    requires Fits(v, k)
    ensures Xor(Shl(a, k), v) == Or(Shl(a, k), v) == Shl(a, k) + v
    ensures Shr(Shl(a, k) + v, k) == a && Low(Shl(a, k) + v, k) == v
    decreases k
  {
    if k == 0 {
      XorZeroRight(a);
      OrZeroRight(a);
    } else {
      hide Xor, Or, Shl, Shr, Low;
      ShlStep(a, k);
      ShrStep(v, k);
      ShrStep(Shl(a, k) + v, k);
      ShlJoin(a, v / 2, k - 1);
      var x := Shl(a, k) + v;
      assert x / 2 == Shl(a, k - 1) + v / 2 && x % 2 == v % 2;
      XorHalf(Shl(a, k), v);
      OrHalf(Shl(a, k), v);
      Halves(Xor(Shl(a, k), v), x);
      Halves(Or(Shl(a, k), v), x);
    }
  }

  lemma {:induction false} OrZeroRight(a: nat)
    ensures Or(a, 0) == a
  {
    if a > 0 {
      OrZeroRight(a / 2);
    }
  }

  lemma OrHalf(a: nat, b: nat)
    ensures Or(a, b) / 2 == Or(a / 2, b / 2)
    ensures Or(a, b) % 2 == if a % 2 == 0 == b % 2 then 0 else 1
  {
  }

  lemma {:induction false} HighLow(a: nat, k: nat)
    ensures a == Shl(Shr(a, k), k) + Low(a, k)
    ensures Fits(Low(a, k), k)
    decreases k
  {
    if k > 0 {
      HighLow(a / 2, k - 1);
    }
  }

  lemma {:induction false} ShrShr(a: nat, j: nat, k: nat)
    ensures Shr(Shr(a, j), k) == Shr(a, j + k)
    decreases j
  {
    if j > 0 {
      ShrShr(a / 2, j - 1, k);
    }
  }

  lemma {:induction false} ShrZero(k: nat)
    ensures Shr(0, k) == 0
  {
    if k > 0 {
      ShrZero(k - 1);
    }
  }

  lemma {:induction false} FitsBelow(a: nat, k: nat)
    requires a < Pow2(k)
    ensures Fits(a, k)
    decreases k
  {
    if k > 0 {
      FitsBelow(a / 2, k - 1);
    }
  }

  function Pow2(k: nat): nat {
    if k == 0 then 1 else 2 * Pow2(k - 1)
  }

  lemma FitsJoin(a: nat, v: nat, j: nat, k: nat)
    requires Fits(a, j) && Fits(v, k)
    ensures Fits(Shl(a, k) + v, j + k)
  {
    ShlJoin(a, v, k);
    ShrShr(Shl(a, k) + v, k, j);
  }

  lemma XorFits(a: nat, b: nat, k: nat)
    requires Fits(a, k) && Fits(b, k)
    ensures Fits(Xor(a, b), k)
  {
    XorShr(a, b, k);
  }

  // ---- bit strings -----------------------------------------------------------------------------

  /** The low `n` bits of `v`, most significant first. */
  function BitsOf(v: nat, n: nat): (bs: seq<bool>)
    ensures |bs| == n
    decreases n
  {
    if n == 0 then [] else BitsOf(v / 2, n - 1) + [v % 2 == 1]
  }

  /** The number a bit string denotes. */
  function Num(bs: seq<bool>): nat {
    if bs == [] then 0 else 2 * Num(bs[..|bs| - 1]) + (if bs[|bs| - 1] then 1 else 0)
  }

  lemma {:induction false} NumOfBits(v: nat, n: nat)
    ensures Num(BitsOf(v, n)) == Low(v, n)
    decreases n
  {
    if n > 0 {
      NumOfBits(v / 2, n - 1);
      assert BitsOf(v, n)[..n - 1] == BitsOf(v / 2, n - 1);
    }
  }

  lemma LowOfFitting(v: nat, n: nat)
    requires Fits(v, n)
    ensures Low(v, n) == v
  {
    HighLow(v, n);
    ShlZero(n);
  }

  lemma {:induction false} ShlZero(n: nat)
    ensures Shl(0, n) == 0
  {
    if n > 0 {
      ShlZero(n - 1);
    }
  }

  lemma {:induction false} BitsOfNum(bs: seq<bool>)
    ensures BitsOf(Num(bs), |bs|) == bs && Fits(Num(bs), |bs|)
  {
    if bs != [] {
      BitsOfNum(bs[..|bs| - 1]);
    }
  }

  lemma {:induction false} BitsSplit(v: nat, m: nat, n: nat)
    ensures BitsOf(v, m + n) == BitsOf(Shr(v, n), m) + BitsOf(v, n)
    decreases n
  {
    if n > 0 {
      BitsSplit(v / 2, m, n - 1);
    }
  }

  lemma {:induction false} BitsOfLow(v: nat, w: nat, n: nat)
    requires n <= w
    ensures BitsOf(Low(v, w), n) == BitsOf(v, n)
    decreases n
  {
    if n > 0 {
      BitsOfLow(v / 2, w - 1, n - 1);
    }
  }

  /** Two words of `n` bits with the same bits are the same. */
  lemma BitsInjective(a: nat, b: nat, n: nat)
    requires Fits(a, n) && Fits(b, n) && BitsOf(a, n) == BitsOf(b, n)
    ensures a == b
  {
    NumOfBits(a, n);
    NumOfBits(b, n);
    LowOfFitting(a, n);
    LowOfFitting(b, n);
  }
}
