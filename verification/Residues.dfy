/** When do two multiples of a number fall on the same residue: the arithmetic of the scatter. */
module Residues {
  function Gcd(a: nat, b: nat): (g: nat)
    ensures a > 0 || b > 0 ==> g > 0
    decreases b
  {
    if b == 0 then a else Gcd(b, a % b)
  }

  ghost predicate Divides(d: int, n: int) {
    exists k: int :: n == d * k
  }

  lemma DividesSum(d: int, m: int, n: int, k: int)
    requires Divides(d, m) && Divides(d, n)
    ensures Divides(d, m + n * k)
  {
    var i, j :| m == d * i && n == d * j;
    assert m + n * k == d * (i + j * k);
  }

  lemma {:induction false} GcdDivides(a: nat, b: nat)
    ensures Divides(Gcd(a, b), a) && Divides(Gcd(a, b), b)
    decreases b
  {
    if b == 0 {
      assert a == a * 1 && b == a * 0;
    } else {
      GcdDivides(b, a % b);
      DividesSum(Gcd(a, b), a % b, b, a / b);
      assert a % b + b * (a / b) == a;
    }
  }

  /** Bezout: the greatest common divisor is a combination of the two numbers. */
  lemma {:induction false} Bezout(a: nat, b: nat) returns (x: int, y: int)
    ensures a * x + b * y == Gcd(a, b)
    decreases b
  {
    if b == 0 {
      x, y := 1, 0;
    } else {
      var u, v := Bezout(b, a % b);
      x, y := v, u - (a / b) * v;
      assert a * x + b * y == b * u + (a - b * (a / b)) * v;
      assert a - b * (a / b) == a % b;
    }
  }

  /** How far apart two multiples of `step` must be to meet again modulo `n`. */
  function Spread(n: nat, step: nat): (m: nat)
    requires n > 0
    ensures m > 0 && m * Gcd(n, step) == n
  {
    var g := Gcd(n, step);
    assert n / g > 0 && (n / g) * g == n by {
      GcdDivides(n, step);
      var k: int :| n == g * k;
      DivideExactly(n, g, k);
    }
    n / g
  }

  /** A multiple of a positive number is far from zero unless the factor is zero. */
  lemma FarFromZero(n: int, k: int)
    requires n > 0
    ensures k >= 1 ==> n * k >= n
    ensures k <= -1 ==> n * k <= -n
    ensures k == 0 ==> n * k == 0
  {
    if k >= 1 { assert n * (k - 1) >= 0; }
    if k <= -1 { assert n * (-1 - k) >= 0; }
  }

  lemma DivideExactly(n: nat, g: nat, k: int)
    requires n > 0 && g > 0 && n == g * k
    ensures n / g == k && k > 0
  {
    FarFromZero(g, k);
    QuotientUnique(g, n, k, 0);
  }

  /** d * step is a multiple of n exactly when d is a multiple of n / gcd(n, step). */
  lemma MultiplesMeet(n: nat, step: nat, d: int)
    requires n > 0
    ensures Divides(n, d * step) <==> Divides(Spread(n, step), d)
  {
    var g, m := Gcd(n, step), Spread(n, step);
    GcdDivides(n, step);
    var s: int :| step == g * s;
    if Divides(m, d) {
      var k: int :| d == m * k;
      assert d * step == n * (k * s) by { Regroup(m, k, g, s); }
    }
    if Divides(n, d * step) {
      var q: int :| d * step == n * q;
      var x, y := Bezout(n, step);
      Cancel(g, m, s, d, q, x, y);
      assert d == m * (d * x + q * y);
    }
  }

  lemma Regroup(m: int, k: int, g: int, s: int)
    ensures m * k * (g * s) == m * g * (k * s)
  {
  }

  lemma Cancel(g: int, m: int, s: int, d: int, q: int, x: int, y: int)
    requires g > 0 && (m * g) * x + (g * s) * y == g && d * (g * s) == (m * g) * q
    ensures d == m * (d * x + q * y)
  {
    assert g * (m * x + s * y) == g * 1;
    CancelFactor(g, m * x + s * y, 1);
    assert g * (d * s) == g * (m * q);
    CancelFactor(g, d * s, m * q);
    calc {
      d;
      d * (m * x + s * y);
      m * (d * x) + (d * s) * y;
      m * (d * x) + (m * q) * y;
      m * (d * x + q * y);
    }
  }

  lemma CancelFactor(g: int, a: int, b: int)
    requires g > 0 && g * a == g * b
    ensures a == b
  {
    FarFromZero(g, a - b);
    assert g * (a - b) == g * a - g * b;
  }

  /** Equal remainders: the difference is a multiple. */
  lemma SameResidue(n: nat, a: nat, b: nat)
    requires n > 0
    ensures a % n == b % n <==> Divides(n, a - b)
  {
    if a % n == b % n {
      assert a - b == n * (a / n - b / n);
    }
    if Divides(n, a - b) {
      var k: int :| a - b == n * k;
      ResidueShift(n, b, k);
    }
  }

  lemma ResidueShift(n: nat, b: nat, k: int)
    requires n > 0 && b + n * k >= 0
    ensures (b + n * k) % n == b % n
  {
    var r, q := b % n, b / n;
    assert b + n * k == n * (q + k) + r;
    QuotientUnique(n, b + n * k, q + k, r);
  }

  lemma QuotientUnique(n: int, a: int, q: int, r: int)
    requires n > 0 && a == n * q + r && 0 <= r < n
    ensures a / n == q && a % n == r
  {
    var q', r' := a / n, a % n;
    assert n * (q - q') == r' - r by {
      assert a == n * q' + r';
      assert n * (q - q') == n * q - n * q';
    }
    FarFromZero(n, q - q');
  }

  /** Two terms of the scatter meet exactly when their ranks differ by a multiple of the spread. */
  lemma TermsMeet(n: nat, step: nat, offset: nat, i: nat, j: nat)
    requires n > 0
    ensures (i * step + offset) % n == (j * step + offset) % n <==> Divides(Spread(n, step), i - j)
  {
    SameResidue(n, i * step + offset, j * step + offset);
    assert i * step + offset - (j * step + offset) == (i - j) * step;
    MultiplesMeet(n, step, i - j);
  }

  lemma SmallMultiple(m: int, d: int)
    requires m > 0 && Divides(m, d) && -m < d < m
    ensures d == 0
  {
    var k: int :| d == m * k;
    FarFromZero(m, k);
  }
}
