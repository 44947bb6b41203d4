/** Powers and products of reals. */
module RealArithmetic {
  function Pow(b: real, n: nat): real {
    if n == 0 then 1.0 else b * Pow(b, n - 1)
  }

  /** `max(0, x)`. */
  function Max0(x: real): real {
    if x < 0.0 then 0.0 else x
  }

  lemma MulPositive(a: real, b: real)
    requires a > 0.0 && b > 0.0
    ensures a * b > 0.0
  {
  }

  lemma MulNonNegative(a: real, b: real)
    requires a >= 0.0 && b >= 0.0
    ensures a * b >= 0.0
  {
  }

  /** b * x lies on the side of x that b lies of 1. */
  lemma MulCompare(b: real, x: real)
    requires b > 0.0 && x > 0.0
    ensures b * x > 0.0
    ensures b > 1.0 <==> b * x > x
    ensures b < 1.0 <==> b * x < x
  {
    assert b * x - x == (b - 1.0) * x;
  }

  lemma {:induction false} PowPositive(b: real, n: nat)
    requires b > 0.0
    ensures Pow(b, n) > 0.0
    ensures n > 0 && b > 1.0 ==> Pow(b, n) > 1.0
    ensures n > 0 && b < 1.0 ==> Pow(b, n) < 1.0
  {
    if n > 0 {
      PowPositive(b, n - 1);
      MulCompare(b, Pow(b, n - 1));
    }
  }

  lemma PowZero(b: real)
    ensures Pow(b, 0) == 1.0
  {
  }

  lemma {:induction false} PowOfOne(n: nat)
    ensures Pow(1.0, n) == 1.0
  {
    if n > 0 {
      PowOfOne(n - 1);
    }
  }

  lemma ScaledComparison(q: real, a: real, b: real)
    requires q > 0.0
    ensures a < b <==> q * a < q * b
    ensures a == b <==> q * a == q * b
  {
    if a < b {
      MulPositive(q, b - a);
    } else if b < a {
      MulPositive(q, a - b);
    }
  }

  lemma ZeroProduct(d: real, c: real)
    ensures d * c == 0.0 <==> d == 0.0 || c == 0.0
  {
  }

  lemma {:induction false} PowOfNegative(b: real, n: nat)
    ensures Pow(-b, n) == if n % 2 == 0 then Pow(b, n) else -Pow(b, n)
  {
    if n > 0 {
      PowOfNegative(b, n - 1);
    }
  }

  lemma {:induction false} PowIsZeroIff(b: real, n: nat)
    ensures Pow(b, n) == 0.0 <==> n > 0 && b == 0.0
  {
    if n > 0 {
      PowIsZeroIff(b, n - 1);
      ZeroProduct(b, Pow(b, n - 1));
    }
  }

  lemma PowIsOneIff(b: real, n: nat)
    ensures Pow(b, n) == 1.0 <==> n == 0 || b == 1.0 || (b == -1.0 && n % 2 == 0)
  {
    PowZero(b);
    PowIsZeroIff(b, n);
    PowOfOne(n);
    hide Pow;
    if b > 0.0 {
      PowPositive(b, n);
    } else if b < 0.0 {
      PowOfNegative(b, n);
      PowPositive(-b, n);
    }
  }
}
