/** Bitwise exclusive or on unsigned integers. */
module Bitwise {
  import opened Prelude

  function Xor(a: nat, b: nat): nat
    decreases a + b
  {
    if a == 0 && b == 0 then 0
    else 2 * Xor(a / 2, b / 2) + (if a % 2 == b % 2 then 0 else 1)
  }

  lemma {:induction false} XorCancels(a: nat, b: nat)
    ensures Xor(a, Xor(a, b)) == b
    decreases a + b
  {
    if a == 0 && b == 0 {
    } else {
      XorCancels(a / 2, b / 2);
      var x := Xor(a, b);
      assert x / 2 == Xor(a / 2, b / 2) && x % 2 == (if a % 2 == b % 2 then 0 else 1);
      if a == 0 && x == 0 {
        XorZero(b);
      }
    }
  }

  lemma {:induction false} XorZero(b: nat)
    ensures Xor(0, b) == b
  {
    if b > 0 { XorZero(b / 2); }
  }

  /** A bit of the result is set exactly when it is set in one of the two numbers and not in the other. */
  lemma {:induction false} XorBit(a: nat, b: nat, k: nat)
    ensures Power(k) > 0
    ensures ((Xor(a, b) / Power(k)) % 2 == 1) <==> ((a / Power(k)) % 2 != (b / Power(k)) % 2)
    decreases k
  {
    PowerPositive(k);
    assert Xor(a, b) / 2 == Xor(a / 2, b / 2);
    assert Xor(a, b) % 2 == if a % 2 == b % 2 then 0 else 1;
    if k > 0 {
      XorBit(a / 2, b / 2, k - 1);
      hide Xor;
      Halved(a, Power(k - 1));
      Halved(b, Power(k - 1));
      Halved(Xor(a, b), Power(k - 1));
    }
  }

  lemma {:induction false} PowerPositive(k: nat)
    ensures Power(k) > 0
  {
    if k > 0 { PowerPositive(k - 1); }
  }

  lemma Halved(n: nat, p: nat)
    requires p > 0
    ensures n / (2 * p) == (n / 2) / p
  {
    var q, r := (n / 2) / p, (n / 2) % p;
    assert n / 2 == q * p + r && n == 2 * (q * p + r) + n % 2;
    assert n == q * (2 * p) + (2 * r + n % 2);
    Quotient(n, 2 * p, q, 2 * r + n % 2);
  }

  lemma Quotient(n: nat, d: nat, q: nat, r: nat)
    requires d > 0 && n == q * d + r && r < d
    ensures n / d == q
  {
    var x, y := n / d, n % d;
    assert n == x * d + y;
    assert (x + 1) * d == x * d + d && (q + 1) * d == q * d + d;
    if x < q { Product(x + 1, q, d); }
    if q < x { Product(q + 1, x, d); }
  }

  lemma Product(a: nat, b: nat, d: nat)
    requires a <= b
    ensures a * d <= b * d
  {
  }

  lemma {:induction false} XorHigh(a: nat, b: nat, k: nat)
    requires a < Power(k) <= b < Power(k + 1)
    ensures Xor(a, b) >= Power(k)
    decreases k
  {
    if k > 0 { XorHigh(a / 2, b / 2, k - 1); }
  }

  lemma {:induction false} XorBound(a: nat, b: nat, limit: nat)
    requires a < Power(limit) && b < Power(limit)
    ensures Xor(a, b) < Power(limit)
    decreases a + b
  {
    if a != 0 || b != 0 { XorBound(a / 2, b / 2, limit - 1); }
  }

  function Power(k: nat): nat { if k == 0 then 1 else 2 * Power(k - 1) }

  lemma PowerOf32()
    ensures Power(32) == U32_MAX + 1
  {
    assert Power(4) == 16;
    assert Power(8) == 256;
    assert Power(16) == 65_536 by { assert Power(12) == 4_096; }
    assert Power(24) == 16_777_216 by { assert Power(20) == 1_048_576; }
    assert Power(28) == 268_435_456;
  }

  lemma XorFits(a: U32, b: U32)
    ensures Xor(a, b) <= U32_MAX
  {
    PowerOf32();
    hide Power;
    XorBound(a, b, 32);
  }
}
