/** Powers, quotients and remainders. */
module Arithmetic {

  function Pow(base: nat, n: nat): (r: nat)
    ensures base > 0 ==> r > 0
  {
    if n == 0 then 1 else base * Pow(base, n - 1)
  }

  lemma {:induction false} PowAdd(base: nat, m: nat, n: nat)
    ensures Pow(base, m + n) == Pow(base, m) * Pow(base, n)
  {
    if m > 0 {
      PowAdd(base, m - 1, n);
      Regroup(base, Pow(base, m - 1), Pow(base, n));
    }
  }

  lemma {:induction false} PowMultiply(k: nat, n: nat)
    ensures Pow(Pow(2, k), n) == Pow(2, k * n)
  {
    if n > 0 {
      PowMultiply(k, n - 1);
      Distribute(k, 1, n - 1);
      PowAdd(2, k, k * (n - 1));
    }
  }

  lemma Distribute(a: int, b: int, c: int)
    ensures a * (b + c) == a * b + a * c
  {
  }

  lemma Regroup(a: int, b: int, c: int)
    ensures a * (b * c) == (a * b) * c && a * (b * c) == b * (a * c)
  {
  }

  lemma DivMod(a: nat, d: nat)
    requires d > 0
    ensures a == d * (a / d) + a % d && 0 <= a % d < d && 0 <= a / d
  {
  }

  lemma SmallMultiple(d: int, x: int)
    requires -d < d * x < d
    ensures x == 0
  {
    assert x >= 1 ==> d * x >= d;
    assert x <= -1 ==> d * x <= -d;
  }

  lemma QuotientUnique(a: nat, d: nat, q: nat, r: nat)
    requires d > 0 && a == d * q + r && r < d
    ensures a / d == q && a % d == r
  {
    DivMod(a, d);
    Distribute(d, q, -(a / d));
    SmallMultiple(d, q - a / d);
  }

  lemma QuotientOfSum(a: nat, d: nat, u: nat, q: nat, r: nat)
    requires r < d && a == d * u + (d * q + r)
    ensures a / d == u + q && a % d == r
  {
    Distribute(d, u, q);
    QuotientUnique(a, d, u + q, r);
  }

  lemma RemainderOfSum(d: nat, u: nat, x: nat)
    requires d > 0
    ensures (d * u + x) % d == x % d
  {
    DivMod(x, d);
    QuotientOfSum(d * u + x, d, u, x / d, x % d);
  }

  /** A number below `m = b * c`, with room for a low part below `b`. */
  lemma LowPartFits(b: nat, c: nat, r: nat, d: nat)
    requires r < c && d < b
    ensures b * r + d < b * c
  {
    Distribute(b, r, c - r);
    assert b * (c - r) >= b;
  }

  lemma QuotientOfQuotient(w: nat, d: nat, e: nat)
    requires d > 0 && e > 0 && e * d > 0
    ensures w / d / e == w / (e * d)
  {
    DivMod(w, d);
    DivMod(w / d, e);
    NestedQuotient(w, d, e, w / d / e, w / d % e, w % d);
  }

  lemma NestedQuotient(w: nat, d: nat, e: nat, q: nat, r: nat, s: nat)
    requires d > 0 && w == d * (e * q + r) + s && r < e && s < d
    ensures e * d > 0 && w / (e * d) == q
  {
    Distribute(d, e * q, r);
    Regroup(d, e, q);
    LowPartFits(d, e, r, s);
    QuotientUnique(w, d * e, q, d * r + s);
  }

  /** Bitwise or. */
  function BitOr(a: nat, b: nat): nat {
    if a == 0 then b else if b == 0 then a
    else 2 * BitOr(a / 2, b / 2) + (if a % 2 == 1 || b % 2 == 1 then 1 else 0)
  }

  /** Or-ing in a number below the lowest set bit is adding it. */
  lemma {:induction false} OrBelow(a: nat, b: nat, k: nat)
    requires b < Pow(2, k)
    ensures BitOr(a * Pow(2, k), b) == a * Pow(2, k) + b
  {
    if k > 0 && a > 0 && b > 0 {
      var p := Pow(2, k - 1);
      Regroup(a, 2, p);
      assert a * Pow(2, k) == 2 * (a * p);
      OrBelow(a, b / 2, k - 1);
      assert a * p > 0;
    }
  }
}
