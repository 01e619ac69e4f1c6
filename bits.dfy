/** Unsigned 32-bit words and the bit-level operations the predictor performs on them:
    `1 << k` table sizes, `x & ((1 << k) - 1)` masks, `(x >> i) & 1` bit tests and `^`. */
module Bits {

  /** A C `uint32_t`. */
  type Word = x: int | 0 <= x < 0x1_0000_0000

  /** `1 << k`, as an unbounded integer. */
  function Pow2(k: nat): (r: nat)
    ensures r >= 1
  {
    if k == 0 then 1 else 2 * Pow2(k - 1)
  }

  lemma {:induction false} Pow2Monotone(j: nat, k: nat)
    requires j <= k
    ensures Pow2(j) <= Pow2(k)
  {
    if j < k {
      Pow2Monotone(j, k - 1);
    }
  }

  /** 2^k exceeds k. */
  lemma {:induction false} Pow2Exceeds(k: nat)
    ensures Pow2(k) >= k + 1
  {
    if k > 0 {
      Pow2Exceeds(k - 1);
    }
  }

  /** Every table size the predictor allocates (at most `1 << 30`) fits in a word. */
  lemma Pow2FitsWord(k: nat)
    requires k <= 30
    ensures Pow2(k) <= 0x4000_0000
  {
    Pow2Monotone(k, 30);
    Pow2Values();
  }

  /** The two register widths the model needs as literals. */
  lemma Pow2Values()
    ensures Pow2(30) == 0x4000_0000 && Pow2(31) == 0x8000_0000
  {
    assert Pow2(10) == 1024;
    Pow2Add(10, 10);
    Pow2Add(20, 10);
  }

  lemma {:induction false} Pow2Add(j: nat, k: nat)
    ensures Pow2(j + k) == Pow2(j) * Pow2(k)
  {
    if k > 0 {
      Pow2Add(j, k - 1);
    }
  }

  /** `(x >> i) & 1`: shifting right by i halves x i times. */
  function Bit(x: nat, i: nat): (b: nat)
    ensures b <= 1
  {
    if i == 0 then x % 2 else Bit(x / 2, i - 1)
  }

  /** Halving x i times and taking the low bit is bit i of x: `(x >> i) & 1` on unsigned x. */
  lemma {:induction false} BitIsShift(x: nat, i: nat)
    ensures Bit(x, i) == (x / Pow2(i)) % 2
  {
    if i > 0 {
      BitIsShift(x / 2, i - 1);
      DivModUnique(x, 2 * Pow2(i - 1), (x / 2) / Pow2(i - 1), 2 * ((x / 2) % Pow2(i - 1)) + x % 2);
    }
  }

  /** `a ^ b`, one bit at a time from bit 0 up. */
  function Xor(a: nat, b: nat): (r: nat)
    ensures r <= a + b
    ensures r == 0 <==> a == b
    decreases a + b
  {
    if a == 0 && b == 0 then 0
    else 2 * Xor(a / 2, b / 2) + (if a % 2 == b % 2 then 0 else 1)
  }

  /** Each bit of `a ^ b` is set exactly when the two operands' bits differ. */
  lemma {:induction false} XorBits(a: nat, b: nat, i: nat)
    ensures Bit(Xor(a, b), i) == if Bit(a, i) == Bit(b, i) then 0 else 1
    decreases i
  {
    var x := Xor(a, b);
    if a == 0 && b == 0 {
      BitOfZero(i);
    } else {
      var low := if a % 2 == b % 2 then 0 else 1;
      DivModUnique(x, 2, Xor(a / 2, b / 2), low);
      if i > 0 {
        XorBits(a / 2, b / 2, i - 1);
      }
    }
  }

  /** Euclidean division is unique: the quotient and remainder are pinned down by x == q * d + r. */
  lemma DivModUnique(x: int, d: int, q: int, r: int)
    requires d > 0 && 0 <= r < d && x == q * d + r
    ensures x / d == q && x % d == r
  {
    var q', r' := x / d, x % d;
    assert q' * d + r' == q * d + r;
    if q' > q {
      MulAtLeast(q' - q, d);
    } else if q' < q {
      MulAtLeast(q - q', d);
    }
  }

  lemma MulAtLeast(a: int, d: int)
    requires a >= 1 && d > 0
    ensures a * d >= d
  {
  }

  /** Masking with `(1 << k) - 1` keeps exactly the bits below k. */
  lemma {:induction false} BitOfMod(x: nat, k: nat, i: nat)
    ensures Bit(x % Pow2(k), i) == if i < k then Bit(x, i) else 0
  {
    if k == 0 {
      BitOfZero(i);
    } else {
      var m := Pow2(k - 1);
      var q, r := x / (2 * m), x % (2 * m);
      // x % 2^k == r, and r's low bit and upper part agree with x's
      DivModUnique(x / 2, m, q, r / 2);
      DivModUnique(x, 2, x / 2, r % 2);
      if i > 0 {
        BitOfMod(x / 2, k - 1, i - 1);
      }
    }
  }

  lemma {:induction false} BitOfZero(i: nat)
    ensures Bit(0, i) == 0
  {
    if i > 0 {
      BitOfZero(i - 1);
    }
  }

  /** A value below 2^k whose k low bits all equal b is 0 (b == 0) or 2^k - 1 (b == 1). */
  lemma {:induction false} AllBitsEqual(x: nat, k: nat, b: nat)
    requires b <= 1 && x < Pow2(k)
    requires forall i | 0 <= i < k :: Bit(x, i) == b
    ensures x == b * (Pow2(k) - 1)
  {
    if k > 0 {
      assert Bit(x, 0) == b;
      forall i | 0 <= i < k - 1
        ensures Bit(x / 2, i) == b
      {
        assert Bit(x, i + 1) == b;
      }
      AllBitsEqual(x / 2, k - 1, b);
    }
  }
}
