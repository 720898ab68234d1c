/** Multiplication facts the rounding and calendar proofs use, stated once
    so that those proofs stay linear. */
module Arith {

  lemma {:induction false} MulMonotone(a: int, b: int, c: int)
    requires a <= b && 0 <= c
    ensures a * c <= b * c
  {
  }

  lemma {:induction false} MulDistributes(a: int, b: int, c: int)
    ensures (a + b) * c == a * c + b * c
    ensures (a - b) * c == a * c - b * c
  {
  }

  lemma {:induction false} MulAssociates(a: int, b: int, c: int)
    ensures a * (b * c) == (a * b) * c
    ensures a * b == b * a
  {
  }

  /** The multiples of a positive `d` nearest zero. */
  lemma {:induction false} SmallMultiples(e: int, d: int)
    requires d > 0
    ensures e >= 2 ==> e * d >= 2 * d
    ensures e <= -2 ==> e * d <= -2 * d
    ensures e == 1 ==> e * d == d
    ensures e == -1 ==> e * d == -d
    ensures e == 0 ==> e * d == 0
  {
    if e >= 2 {
      MulMonotone(2, e, d);
    }
    if e <= -2 {
      MulMonotone(e, -2, d);
    }
  }

  /** Euclidean division by a positive divisor, recognised from a quotient
      and remainder. */
  lemma {:induction false} DivMod(a: int, b: int, q: int, r: int)
    requires 0 < b && 0 <= r < b && a == q * b + r
    ensures a / b == q && a % b == r
  {
    var k := a / b - q;
    MulDistributes(a / b, q, b);
    assert k * b == r - a % b;
    SmallMultiples(k, b);
    assert k >= 1 ==> k * b >= b by {
      if k >= 1 {
        MulMonotone(1, k, b);
      }
    }
    assert k <= -1 ==> k * b <= -b by {
      if k <= -1 {
        MulMonotone(k, -1, b);
      }
    }
  }

  /** Counting one further: the quotient grows by one exactly when the
      next number is a multiple. */
  lemma {:induction false} DivStep(a: int, b: int)
    requires b > 0
    ensures (a + 1) / b == a / b + (if (a + 1) % b == 0 then 1 else 0)
  {
    DivModSplit(a, b);
    if a % b == b - 1 {
      DivMod(a + 1, b, a / b + 1, 0);
    } else {
      DivMod(a + 1, b, a / b, a % b + 1);
    }
  }

  lemma {:induction false} DivModSplit(a: int, b: int)
    requires b > 0
    ensures a == (a / b) * b + a % b && 0 <= a % b < b
  {
  }
}
