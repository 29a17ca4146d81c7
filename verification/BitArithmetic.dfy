/** Shifts and bitwise operators of unbounded integers, and what they come to in arithmetic. */
module BitArithmetic {

  function Pow2(n: nat): (p: nat)
    ensures p >= 1
  {
    if n == 0 then 1 else 2 * Pow2(n - 1)
  }

  function Shl(x: nat, n: nat): nat { x * Pow2(n) }

  function Shr(x: nat, n: nat): nat { if n == 0 then x else Shr(x / 2, n - 1) }

  /** The lowest `n` bits. */
  function Low(x: nat, n: nat): nat { if n == 0 then 0 else x % 2 + 2 * Low(x / 2, n - 1) }

  function And(a: nat, b: nat): nat {
    if a == 0 then 0 else (if a % 2 == 1 && b % 2 == 1 then 1 else 0) + 2 * And(a / 2, b / 2)
  }

  function Or(a: nat, b: nat): nat
    decreases a + b
  {
    if a == 0 then b else if b == 0 then a else (if a % 2 == 1 || b % 2 == 1 then 1 else 0) + 2 * Or(a / 2, b / 2)
  }

  function Xor(a: nat, b: nat): nat
    decreases a + b
  {
    if a == 0 then b else if b == 0 then a else (if a % 2 != b % 2 then 1 else 0) + 2 * Xor(a / 2, b / 2)
  }

  /** Placing bits below shifted ones adds them. */
  lemma {:induction false} OrShifted(a: nat, n: nat, b: nat)
    requires b < Pow2(n)
    ensures Or(Shl(a, n), b) == a * Pow2(n) + b
  {
    if n > 0 && a > 0 {
      var p := Pow2(n - 1);
      assert a * Pow2(n) == 2 * (a * p);
      assert (2 * (a * p)) / 2 == a * p && (2 * (a * p)) % 2 == 0;
      OrShifted(a, n - 1, b / 2);
    }
  }

  lemma {:induction false} AndLow(x: nat, n: nat)
    ensures And(x, Pow2(n) - 1) == Low(x, n)
  {
    if n == 0 {
      AndZero(x);
    } else {
      var p := Pow2(n - 1);
      assert (2 * p - 1) % 2 == 1 && (2 * p - 1) / 2 == p - 1;
      AndLow(x / 2, n - 1);
    }
  }

  lemma {:induction false} AndZero(x: nat)
    ensures And(x, 0) == 0
  {
    if x > 0 { AndZero(x / 2); }
  }

  /** A number that fits in `n` bits is its lowest `n` bits. */
  lemma {:induction false} LowWhole(x: nat, n: nat)
    requires x < Pow2(n)
    ensures Low(x, n) == x
  {
    if n > 0 { LowWhole(x / 2, n - 1); }
  }

  lemma {:induction false} LowBounded(x: nat, n: nat)
    ensures Low(x, n) < Pow2(n) && Low(x, n) <= x
  {
    if n > 0 { LowBounded(x / 2, n - 1); }
  }

  lemma {:induction false} QuotientUnique(x: int, d: nat, q: int, r: int)
    requires d >= 1 && 0 <= r < d && x == q * d + r
    ensures x / d == q && x % d == r
  {
    var e := x / d - q;
    assert x % d == r - e * d;
    assert e >= 1 ==> e * d >= d;
    assert e <= -1 ==> e * d <= 0 - d;
  }

  lemma {:induction false} DoubledProduct(a: nat, p: nat)
    ensures a * (2 * p) == 2 * (a * p)
  {}

  /** Shifting right is division by a power of two, and the lowest bits are the remainder. */
  lemma {:induction false} ShrAndLow(x: nat, n: nat)
    ensures x == Shr(x, n) * Pow2(n) + Low(x, n)
    ensures Shr(x, n) == x / Pow2(n) && Low(x, n) == x % Pow2(n)
  {
    LowBounded(x, n);
    if n > 0 {
      ShrAndLow(x / 2, n - 1);
      DoubledProduct(Shr(x / 2, n - 1), Pow2(n - 1));
    }
    QuotientUnique(x, Pow2(n), Shr(x, n), Low(x, n));
  }

  /** The network mask built by XOR of two runs of ones. */
  lemma {:induction false} XorMask(m: nat, h: nat)
    requires h <= m
    ensures Pow2(h) <= Pow2(m)
    ensures Xor(Pow2(m) - 1, Pow2(h) - 1) == Pow2(m) - Pow2(h)
  {
    if h > 0 {
      var p, q := Pow2(m - 1), Pow2(h - 1);
      assert (2 * p - 1) % 2 == 1 && (2 * p - 1) / 2 == p - 1;
      assert (2 * q - 1) % 2 == 1 && (2 * q - 1) / 2 == q - 1;
      XorMask(m - 1, h - 1);
    }
  }

  lemma {:induction false} Pow2Grows(m: nat, h: nat)
    requires h <= m
    ensures Pow2(h) <= Pow2(m)
  {
    if h > 0 { Pow2Grows(m - 1, h - 1); }
  }

  lemma {:induction false} AndEven(x: nat, y: nat)
    ensures And(x, 2 * y) == 2 * And(x / 2, y)
  {
    assert (2 * y) % 2 == 0 && (2 * y) / 2 == y;
  }

  /** Masking a number of at most `m` bits clears the `h` lowest. */
  lemma {:induction false} AndMask(x: nat, m: nat, h: nat)
    requires h <= m && x < Pow2(m)
    ensures Pow2(h) <= Pow2(m)
    ensures And(x, Pow2(m) - Pow2(h)) == x - Low(x, h)
  {
    Pow2Grows(m, h);
    if h == 0 {
      AndLow(x, m);
      LowWhole(x, m);
    } else {
      Pow2Grows(m - 1, h - 1);
      AndMask(x / 2, m - 1, h - 1);
      AndEven(x, Pow2(m - 1) - Pow2(h - 1));
    }
  }

  /** Two numbers agree after clearing the low bits exactly when their high parts agree. */
  lemma {:induction false} SameHighPart(x: nat, y: nat, h: nat)
    ensures x - Low(x, h) == y - Low(y, h) <==> Shr(x, h) == Shr(y, h)
  {
    if h > 0 { SameHighPart(x / 2, y / 2, h - 1); }
  }
}
