/** The few facts about remainders, gcd and lcm that two-level routing rests on. */
module Divisibility {
  lemma MulPositive(d: int, k: int)
    requires d > 0 && k > 0
    ensures d * k >= d
  {
  }

  lemma MulPositiveBound(d: int, k: int)
    requires d > 0
    ensures k >= 1 ==> d * k >= d
    ensures k <= -1 ==> d * k <= -d
  {
    if k >= 1 { MulPositive(d, k); }
    if k <= -1 { MulPositive(d, -k); }
  }

  lemma MulMonotone(a: int, b: int, c: int)
    requires a <= b && 0 <= c
    ensures a * c <= b * c
  {
    assert (b - a) * c >= 0;
  }

  lemma MulIsSelf(m: int, g: int)
    requires m > 0
    ensures m * g == m <==> g == 1
  {
    if m * g == m { Cancel(g, 1, m); }
  }

  /** Division with remainder is unique. */
  lemma DivModUnique(n: int, d: int, q: int, r: int)
    requires d > 0 && 0 <= r < d && n == d * q + r
    ensures n / d == q && n % d == r
  {
    var k := n / d - q;
    assert d * k == d * (n / d) - d * q;
    assert d * k == r - n % d;
    MulPositiveBound(d, k);
  }

  /** Equal remainders mean the difference is a multiple. */
  lemma SameRemainder(a: int, b: int, d: int)
    requires d > 0
    ensures a % d == b % d <==> (a - b) % d == 0
  {
    var q := a / d - b / d;
    assert a - b == d * q + (a % d - b % d) by {
      assert d * q == d * (a / d) - d * (b / d);
    }
    var r := a % d - b % d;
    if r >= 0 {
      DivModUnique(a - b, d, q, r);
    } else {
      assert a - b == d * (q - 1) + (r + d);
      DivModUnique(a - b, d, q - 1, r + d);
    }
  }

  lemma MultipleOf(d: int, k: int)
    requires d > 0
    ensures (d * k) % d == 0 && (d * k) / d == k
  {
    DivModUnique(d * k, d, k, 0);
  }

  lemma Combination(d: int, p: int, x: int, q: int, y: int)
    ensures d * p * x + d * q * y == d * (p * x + q * y)
  {
  }

  /** An integer combination of multiples of d is a multiple of d. */
  lemma CombinationDivisible(d: int, a: int, x: int, b: int, y: int)
    requires d > 0 && a % d == 0 && b % d == 0
    ensures (a * x + b * y) % d == 0
  {
    var p, q := a / d, b / d;
    assert a == d * p && b == d * q;
    Combination(d, p, x, q, y);
    MultipleOf(d, p * x + q * y);
  }

  lemma DifferenceDivisible(d: int, a: int, x: int, b: int, y: int)
    requires d > 0 && a % d == 0 && b % d == 0
    ensures (a * x - b * y) % d == 0
  {
    CombinationDivisible(d, a, x, b, -y);
    assert b * -y == -(b * y);
  }

  /** Remainders by two multiples of g agree modulo g. */
  lemma RemaindersAgree(h: nat, a: nat, b: nat, g: nat)
    requires a > 0 && b > 0 && g > 0 && a % g == 0 && b % g == 0
    ensures (h % a - h % b) % g == 0
  {
    var p, q := h / a, h / b;
    assert h % a == h - a * p && h % b == h - b * q;
    DifferenceDivisible(g, b, q, a, p);
  }

  lemma Regroup(a: int, b: int, q: int, u: int, r: int)
    ensures a * u + r - a * b * q == a * (u - b * q) + r
  {
    assert a * b * q == a * (b * q);
  }

  /** Reducing modulo a product first does not change the remainder by a factor. */
  lemma ReduceModProduct(h: int, a: nat, b: nat)
    requires a > 0 && a * b > 0
    ensures (h % (a * b)) % a == h % a
  {
    var q, u, r := h / (a * b), h / a, h % a;
    assert h == a * u + r;
    assert h % (a * b) == h - a * b * q;
    Regroup(a, b, q, u, r);
    DivModUnique(h % (a * b), a, u - b * q, r);
  }

  function Gcd(a: nat, b: nat): (g: nat)
    requires a > 0
    ensures g > 0
    decreases b
  {
    if b == 0 then a else Gcd(b, a % b)
  }

  lemma {:induction false} GcdDivides(a: nat, b: nat)
    requires a > 0
    ensures a % Gcd(a, b) == 0 && b % Gcd(a, b) == 0
    decreases b
  {
    if b == 0 {
      MultipleOf(a, 1);
    } else {
      GcdDivides(b, a % b);
      CombinationDivisible(Gcd(a, b), b, a / b, a % b, 1);
      assert a == b * (a / b) + a % b * 1;
    }
  }

  /** One unrolling of the Bezout coefficients. */
  lemma BezoutStep(b: int, r: int, q: int, x: int, y: int)
    ensures (b * q + r) * y + b * (x - q * y) == b * x + r * y
  {
    assert b * q * y == b * (q * y);
  }

  lemma {:induction false} Bezout(a: nat, b: nat) returns (x: int, y: int)
    requires a > 0
    ensures a * x + b * y == Gcd(a, b)
    decreases b
  {
    if b == 0 {
      x, y := 1, 0;
    } else {
      var x', y' := Bezout(b, a % b);
      x, y := y', x' - a / b * y';
      BezoutStep(b, a % b, a / b, x', y');
      assert a == b * (a / b) + a % b;
    }
  }

  /** Least common multiple of two positive numbers. */
  function Lcm(a: nat, b: nat): (m: nat)
    requires a > 0 && b > 0
  {
    var q := b / Gcd(a, b);
    MulMonotone(0, q, a);
    a * q
  }

  lemma Swap(a: int, g: int, p: int, q: int)
    requires a == g * p
    ensures a * q == g * q * p
  {
    assert g * p * q == g * q * p;
  }

  lemma QuotientPositive(b: nat, g: nat)
    requires b > 0 && g > 0 && b % g == 0
    ensures b / g > 0 && b == g * (b / g)
  {
  }

  lemma LcmFacts(a: nat, b: nat)
    requires a > 0 && b > 0
    ensures Lcm(a, b) * Gcd(a, b) == a * b
    ensures Lcm(a, b) > 0
    ensures Lcm(a, b) % a == 0 && Lcm(a, b) % b == 0
  {
    var g := Gcd(a, b);
    GcdDivides(a, b);
    var p, q := a / g, b / g;
    QuotientPositive(a, g);
    QuotientPositive(b, g);
    LcmArithmetic(a, b, g, p, q);
    MultipleOf(a, q);
    MultipleOf(b, p);
  }

  lemma LcmArithmetic(a: nat, b: nat, g: nat, p: nat, q: nat)
    requires a > 0 && b > 0 && g > 0 && p > 0 && q > 0 && a == g * p && b == g * q
    ensures a * q * g == a * b && a * q > 0 && a * q == b * p
  {
    assert a * q * g == a * (g * q);
    MulPositive(a, q);
    Swap(a, g, p, q);
  }

  /** If g = a x + b y divides out of a b = m g, then d = a s = b t is m (t x + s y). */
  lemma ViaBezout(a: int, b: int, g: int, m: int, x: int, y: int, s: int, t: int, d: int)
    requires g > 0 && g == a * x + b * y && m * g == a * b && d == a * s && d == b * t
    ensures d == m * (t * x + s * y)
  {
    assert d * g == b * t * (a * x) + a * s * (b * y);
    assert b * t * (a * x) == a * b * (t * x);
    assert a * s * (b * y) == a * b * (s * y);
    assert d * g == a * b * (t * x + s * y);
    assert m * g * (t * x + s * y) == m * (t * x + s * y) * g;
    Cancel(d, m * (t * x + s * y), g);
  }

  /** A common multiple is a multiple of the lcm. */
  lemma CommonMultiple(a: nat, b: nat, d: int)
    requires a > 0 && b > 0 && d % a == 0 && d % b == 0
    ensures Lcm(a, b) > 0 && d % Lcm(a, b) == 0
  {
    LcmFacts(a, b);
    var x, y := Bezout(a, b);
    var s, t := d / a, d / b;
    ViaBezout(a, b, Gcd(a, b), Lcm(a, b), x, y, s, t, d);
    MultipleOf(Lcm(a, b), t * x + s * y);
  }

  lemma Cancel(x: int, y: int, g: int)
    requires g > 0 && x * g == y * g
    ensures x == y
  {
    assert g * (x - y) == 0;
    MulPositiveBound(g, x - y);
  }
}
