/** Bitwise AND on non-negative integers, C's `&` on unsigned operands, and the
    fact that masking with 2^k - 1 keeps the remainder modulo 2^k. */
module Bits {

  function Pow2(k: nat): (r: nat)
    ensures r >= 1
  {
    if k == 0 then 1 else 2 * Pow2(k - 1)
  }

  /** `a & b`, one binary digit at a time from the least significant end. */
  function BitAnd(a: nat, b: nat): nat
  {
    if a == 0 || b == 0 then 0
    else 2 * BitAnd(a / 2, b / 2) + (if a % 2 == 1 && b % 2 == 1 then 1 else 0)
  }

  lemma MulAtLeast(d: int, t: int)
    requires d > 0 && t >= 1
    ensures d * t >= d
  {
    if t > 1 {
      MulAtLeast(d, t - 1);
      assert d * t == d * (t - 1) + d;
    }
  }

  /** A multiple of d strictly between -d and d is zero times d. */
  lemma SmallMultiple(d: int, t: int)
    requires d > 0 && -d < d * t < d
    ensures t == 0
  {
    if t >= 1 {
      MulAtLeast(d, t);
    } else if t <= -1 {
      MulAtLeast(d, -t);
    }
  }

  /** Quotient and remainder are the only pair that rebuilds the dividend. */
  lemma DivModUnique(x: int, d: int, q: int, r: int)
    requires d > 0 && x == d * q + r && 0 <= r < d
    ensures x / d == q && x % d == r
  {
    var q0, r0 := x / d, x % d;
    assert x == d * q0 + r0;
    assert d * (q - q0) == r0 - r;
    SmallMultiple(d, q - q0);
  }

  lemma ModOfTwice(x: nat, p: nat)
    requires p >= 1
    ensures x % (2 * p) == 2 * ((x / 2) % p) + x % 2
  {
    var q := x / 2;
    var a := q / p;
    var b := q % p;
    assert q == p * a + b;
    assert x == 2 * q + x % 2;
    assert x == (2 * p) * a + (2 * b + x % 2);
    DivModUnique(x, 2 * p, a, 2 * b + x % 2);
  }

  /** Masking with a block of k low one bits is the remainder modulo 2^k. */
  lemma {:induction false} BitAndLowMask(x: nat, k: nat)
    ensures BitAnd(x, Pow2(k) - 1) == x % Pow2(k)
  {
    if k == 0 {
      assert Pow2(k) - 1 == 0;
    } else if x == 0 {
    } else {
      var p := Pow2(k - 1);
      assert Pow2(k) == 2 * p;
      BitAndOdd(x, p);
      BitAndLowMask(x / 2, k - 1);
      ModOfTwice(x, p);
      assert BitAnd(x, 2 * p - 1) == x % (2 * p);
    }
  }

  /** Testing a single flag bit 2^k reads the k-th binary digit. */
  lemma {:induction false} BitAndFlag(x: nat, k: nat)
    ensures BitAnd(x, Pow2(k)) == if (x / Pow2(k)) % 2 == 1 then Pow2(k) else 0
  {
    if k == 0 {
      assert Pow2(k) == 1;
      assert BitAnd(x, 1) == x % 2 by {
        if x != 0 {
          assert BitAnd(x / 2, 0) == 0;
        }
      }
    } else if x == 0 {
    } else {
      var p := Pow2(k - 1);
      assert Pow2(k) == 2 * p;
      BitAndEven(x, p);
      BitAndFlag(x / 2, k - 1);
      DivDiv(x, 2, p);
      assert x / (2 * p) == (x / 2) / p;
      assert BitAnd(x, 2 * p) == if (x / (2 * p)) % 2 == 1 then 2 * p else 0;
    }
  }

  /** Masking with an odd number keeps the lowest bit and shifts the rest. */
  lemma BitAndOdd(x: nat, p: nat)
    requires p >= 1
    ensures BitAnd(x, 2 * p - 1) == 2 * BitAnd(x / 2, p - 1) + x % 2
  {
    if x != 0 {
      assert (2 * p - 1) / 2 == p - 1 && (2 * p - 1) % 2 == 1;
    }
  }

  /** Masking with an even number shifts the mask and the value right. */
  lemma BitAndEven(x: nat, p: nat)
    requires p >= 1
    ensures BitAnd(x, 2 * p) == 2 * BitAnd(x / 2, p)
  {
    if x != 0 {
      assert (2 * p) / 2 == p && (2 * p) % 2 == 0;
    }
  }

  lemma DivDiv(x: nat, a: nat, b: nat)
    requires a >= 1 && b >= 1
    ensures x / (a * b) == (x / a) / b
  {
    var q := (x / a) / b;
    var r := (x / a) % b;
    assert x / a == b * q + r;
    assert x == a * (x / a) + x % a;
    assert x == (a * b) * q + (a * r + x % a);
    assert a * r <= a * (b - 1) by {
      if r < b - 1 {
        MulAtLeast(a, b - 1 - r);
        assert a * (b - 1 - r) == a * (b - 1) - a * r;
      }
    }
    assert a * (b - 1) == a * b - a;
    DivModUnique(x, a * b, q, a * r + x % a);
  }
}
