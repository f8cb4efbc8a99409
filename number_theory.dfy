/** Python's `math.gcd` / `math.lcm` on non-negative integers, and the facts about
    `%` that the EMD-infinity length reconciliation rests on. */
module NumberTheory {

  /** b * d grows with d. */
  lemma {:induction false} MulAtLeast(b: int, d: nat)
    requires b > 0 && d >= 1
    ensures b * d >= b
  {
    if d > 1 {
      MulAtLeast(b, d - 1);
      assert b * d == b * (d - 1) + b;
    }
  }

  /** Quotient and remainder are unique: x == b*q + r with 0 <= r < b fixes x % b. */
  lemma ModUnique(x: int, b: int, q: int, r: int)
    requires b > 0 && x == b * q + r && 0 <= r < b
    ensures x % b == r && x / b == q
  {
    var q', r' := x / b, x % b;
    assert b * (q - q') == r' - r;
    if q - q' >= 1 {
      MulAtLeast(b, q - q');
    } else if q' - q >= 1 {
      MulAtLeast(b, q' - q);
    }
  }

  lemma ModOfMultiple(k: int, b: int)
    requires b > 0
    ensures (k * b) % b == 0 && (k * b) / b == k
  {
    ModUnique(k * b, b, k, 0);
  }

  lemma ModShift(t: int, n: int)
    requires n > 0
    ensures (t - n) % n == t % n
  {
    ModUnique(t - n, n, t / n - 1, t % n);
  }

  lemma ModSmall(t: int, n: int)
    requires 0 <= t < n
    ensures t % n == t
  {
    ModUnique(t, n, 0, t);
  }

  /** Euclid's algorithm, as `math.gcd` computes it for non-negative arguments. */
  function Gcd(a: nat, b: nat): (g: nat)
    ensures a > 0 || b > 0 ==> g > 0
    decreases b
  {
    if b == 0 then a else Gcd(b, a % b)
  }

  /** A common divisor of b and of a % b divides a = b * q + rem. */
  lemma CombinationDivides(a: int, b: int, q: int, rem: int, g: int)
    requires g > 0 && a == b * q + rem && b % g == 0 && rem % g == 0
    ensures a % g == 0
  {
    var u, w := b / g, rem / g;
    assert b == g * u && rem == g * w;
    assert b * q == g * (u * q);
    var k := u * q + w;
    assert a == g * k;
    ModOfMultiple(k, g);
  }

  /** The gcd divides both arguments. */
  lemma {:induction false} GcdDivides(a: nat, b: nat)
    requires a > 0 || b > 0
    ensures a % Gcd(a, b) == 0 && b % Gcd(a, b) == 0
    decreases b
  {
    if b == 0 {
      ModOfMultiple(1, a);
    } else {
      GcdDivides(b, a % b);
      CombinationDivides(a, b, a / b, a % b, Gcd(a, b));
    }
  }

  /** `math.lcm(a, b)`: a // gcd(a, b) * b, and 0 when either argument is 0. */
  function Lcm(a: nat, b: nat): (r: nat)
    ensures a == 0 || b == 0 ==> r == 0
    ensures a > 0 && b > 0 ==> r > 0 && r % a == 0 && r % b == 0
  {
    if a == 0 || b == 0 then 0
    else
      var g := Gcd(a, b);
      GcdDivides(a, b);
      var u, w := a / g, b / g;
      assert a == g * u && b == g * w;
      assert u > 0;
      ModOfMultiple(u, b);
      assert u * b == w * a by {
        calc {
          u * b;
          u * (g * w);
          (g * u) * w;
          w * a;
        }
      }
      ModOfMultiple(w, a);
      MulAtLeast(b, u);
      assert u * b == b * u;
      u * b
  }

  /** The lcm of a multiple x of b with b is x itself. */
  lemma LcmOfMultiple(x: nat, b: nat)
    requires x > 0 && b > 0 && x % b == 0
    ensures Lcm(x, b) == x
  {
    assert Gcd(x, b) == Gcd(b, 0) == b;
    ModUnique(x, b, x / b, 0);
  }

  /** A multiple of a multiple of b is a multiple of b. */
  lemma MultipleOfMultiple(a: nat, l: nat, b: nat)
    requires b > 0 && l % b == 0
    ensures (a * l) % b == 0
  {
    var k := l / b;
    assert l == b * k;
    assert a * l == (a * k) * b;
    ModOfMultiple(a * k, b);
  }
}
