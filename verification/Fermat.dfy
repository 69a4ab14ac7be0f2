/** Fermat's little theorem, by the binomial expansion of (a + 1)^p: why raising to the power p - 2 inverts. */
module Fermat {
  import opened ModArith

  ghost predicate Prime(p: nat) {
    p > 1 && forall d :: 1 < d < p ==> p % d != 0
  }

  lemma Divides(k: int, m: int)
    requires m > 0
    ensures k * m % m == 0
  {
    Quotient(k, 0, m);
  }

  /** A prime that divides r * b, with r below it, divides b. */
  lemma {:induction false} EuclidBelow(p: nat, r: nat, b: int)
    requires Prime(p) && 0 < r < p && r * b % p == 0
    ensures b % p == 0
    decreases r
  {
    if r == 1 {
      assert r * b == b;
    } else {
      var q, s := p / r, p % r;
      var t := r * b / p;
      assert s * b == (b - q * t) * p by {
        assert r * b == t * p;
        assert p == q * r + s;
        assert s * b == p * b - (q * r) * b;
        Associate(q, r, b);
        Associate(q, t, p);
      }
      Divides(b - q * t, p);
      EuclidBelow(p, s, b);
    }
  }

  lemma Euclid(p: nat, a: int, b: int)
    requires Prime(p) && a * b % p == 0
    ensures a % p == 0 || b % p == 0
  {
    if a % p != 0 {
      MulMod(a, b, p);
      EuclidBelow(p, a % p, b);
    }
  }

  /** Binomial coefficients. */
  function Choose(n: nat, k: nat): nat {
    if k == 0 then 1 else if n == 0 then 0 else Choose(n - 1, k - 1) + Choose(n - 1, k)
  }

  lemma {:induction false} ChooseEdges(n: nat, k: nat)
    requires k > n
    ensures Choose(n, k) == 0 && Choose(n, n) == 1
    decreases n
  {
    if n > 0 {
      ChooseEdges(n - 1, k - 1);
      ChooseEdges(n - 1, k);
      ChooseEdges(n - 1, n);
    }
  }

  lemma AbsorptionStep(n: int, k: int, a: int, b: int, c: int, d: int)
    requires a == c + d && (k - 1) * a == (n - 1) * c && k * b == (n - 1) * d
    ensures k * (a + b) == n * a
  {
    assert (n - 1) * (c + d) == (n - 1) * c + (n - 1) * d;
    assert k * (a + b) == k * a + k * b;
    assert k * a == (k - 1) * a + a && n * a == (n - 1) * a + a;
  }

  lemma {:induction false} Absorption(n: nat, k: nat)
    requires n > 0 && k > 0
    ensures k * Choose(n, k) == n * Choose(n - 1, k - 1)
    decreases n
  {
    if n == 1 {
      if k > 1 {
        ChooseEdges(1, k);
        ChooseEdges(0, k - 1);
      }
    } else {
      Absorption(n - 1, k);
      if k > 1 {
        Absorption(n - 1, k - 1);
        AbsorptionStep(n, k, Choose(n - 1, k - 1), Choose(n - 1, k), Choose(n - 2, k - 2), Choose(n - 2, k - 1));
      } else {
        assert Choose(n - 1, 1) == (n - 1) * Choose(n - 2, 0);
      }
    }
  }

  /** A prime divides its inner binomial coefficients. */
  lemma InnerCoefficient(p: nat, k: nat)
    requires Prime(p) && 0 < k < p
    ensures Choose(p, k) % p == 0
  {
    Absorption(p, k);
    MultipleCancels(p, k, Choose(p, k), Choose(p - 1, k - 1));
  }

  lemma MultipleCancels(p: nat, k: nat, c: int, d: int)
    requires Prime(p) && 0 < k < p && k * c == p * d
    ensures c % p == 0
  {
    assert p * d == d * p;
    Divides(d, p);
    EuclidBelow(p, k, c);
  }

  /** The first k terms of (a + 1)^n. */
  function Terms(a: nat, n: nat, k: nat): nat {
    if k == 0 then 0 else Terms(a, n, k - 1) + Choose(n, k - 1) * Pow(a, k - 1)
  }

  /** One more term on both sides. */
  lemma TermsSum(a: int, u: int, v: int, x: int, y: int, t: int)
    ensures v + a * u + (x + y) * (a * t) == (v + y * (a * t)) + a * (u + x * t)
  {
    assert (x + y) * (a * t) == x * (a * t) + y * (a * t);
    assert x * (a * t) == a * (x * t) by {
      Associate(x, a, t);
      Associate(a, x, t);
    }
    assert a * (u + x * t) == a * u + a * (x * t);
  }

  lemma {:induction false} TermsStep(a: nat, n: nat, k: nat)
    ensures Terms(a, n + 1, k + 1) == Terms(a, n, k + 1) + a * Terms(a, n, k)
  {
    if k > 0 {
      TermsStep(a, n, k - 1);
      TermsSum(a, Terms(a, n, k - 1), Terms(a, n, k), Choose(n, k - 1), Choose(n, k), Pow(a, k - 1));
    }
  }

  lemma {:induction false} Binomial(a: nat, n: nat)
    ensures Pow(a + 1, n) == Terms(a, n, n + 1)
  {
    if n > 0 {
      Binomial(a, n - 1);
      TermsStep(a, n - 1, n);
      ChooseEdges(n - 1, n);
      assert Terms(a, n - 1, n + 1) == Terms(a, n - 1, n);
      assert (a + 1) * Pow(a + 1, n - 1) == a * Pow(a + 1, n - 1) + Pow(a + 1, n - 1);
    } else {
      assert Terms(a, 0, 1) == Terms(a, 0, 0) + Choose(0, 0) * Pow(a, 0);
    }
  }

  lemma AddMultiple(s: int, c: int, t: int, p: int)
    requires p > 0 && c % p == 0
    ensures (s + c * t) % p == s % p
  {
    assert c * t == (c / p * t) * p by {
      assert c == c / p * p;
      assert c / p * p * t == (c / p * t) * p;
    }
    ModUnique(s, c / p * t, p);
  }

  lemma {:induction false} InnerTerms(p: nat, a: nat, k: nat)
    requires Prime(p) && 0 < k <= p
    ensures Terms(a, p, k) % p == 1
  {
    if k == 1 {
      FirstTerm(a, p);
      Quotient(0, 1, p);
    } else {
      InnerTerms(p, a, k - 1);
      InnerCoefficient(p, k - 1);
      AddMultiple(Terms(a, p, k - 1), Choose(p, k - 1), Pow(a, k - 1), p);
    }
  }

  lemma FirstTerm(a: nat, n: nat)
    ensures Terms(a, n, 1) == 1
  {
    assert Terms(a, n, 1) == Terms(a, n, 0) + Choose(n, 0) * Pow(a, 0);
  }

  /** a^p = a modulo a prime p. */
  lemma {:induction false} Little(p: nat, a: nat)
    requires Prime(p)
    ensures Pow(a, p) % p == a % p
  {
    if a == 0 {
      assert Pow(0, p) == 0 * Pow(0, p - 1);
    } else {
      Little(p, a - 1);
      Binomial(a - 1, p);
      InnerTerms(p, a - 1, p);
      ChooseEdges(p, p + 1);
      var s, t := Terms(a - 1, p, p), Pow(a - 1, p);
      assert Pow(a, p) == s + t;
      AddMod(s, t, p);
      AddMod(a - 1, 1, p);
      AddMod(t, 1, p);
    }
  }

  /** a^(p-1) = 1 for a not divisible by p. */
  lemma FermatLittle(p: nat, a: nat)
    requires Prime(p) && a % p != 0
    ensures Pow(a, p - 1) % p == 1
  {
    Little(p, a);
    var t := Pow(a, p - 1);
    assert a * (t - 1) == a * t - a;
    Difference(a * t, a, p);
    Euclid(p, a, t - 1);
    ModUnique(1, (t - 1) / p, p);
    assert 1 + (t - 1) / p * p == t;
    Quotient(0, 1, p);
  }

  lemma Difference(x: int, y: int, m: int)
    requires m > 0 && x % m == y % m
    ensures (x - y) % m == 0
  {
    assert x - y == (x / m - y / m) * m by {
      assert x == x / m * m + x % m && y == y / m * m + y % m;
      assert (x / m - y / m) * m == x / m * m - y / m * m;
    }
    Divides(x / m - y / m, m);
  }

  lemma ZeroPower(p: nat, a: nat, e: nat)
    requires p > 0 && a % p == 0 && e > 0
    ensures Exp(a, e, p) == 0
  {
    ExpModBase(a, e, p);
    assert Pow(0, e) == 0 * Pow(0, e - 1);
  }

  /** Raising to the power p - 2 inverts modulo a prime, and leaves zero alone. */
  lemma InverseByPower(p: nat, a: nat)
    requires Prime(p) && p > 2
    ensures a % p != 0 ==> a * Exp(a, p - 2, p) % p == 1
    ensures a % p == 0 ==> Exp(a, p - 2, p) == 0
  {
    if a % p != 0 {
      NonzeroInverse(p, a);
    } else {
      ZeroPower(p, a, p - 2);
    }
  }

  lemma NonzeroInverse(p: nat, a: nat)
    requires Prime(p) && p > 2 && a % p != 0
    ensures a * Exp(a, p - 2, p) % p == 1
  {
    var t := Pow(a, p - 2);
    FermatLittle(p, a);
    assert Pow(a, p - 1) == a * t;
    MulMod(a, t, p);
  }

  /** Multiplying by the power p - 2 of z divides by z. */
  lemma DivideByPower(p: nat, x: nat, z: nat)
    requires Prime(p) && p > 2 && z % p != 0
    ensures (x * Exp(z, p - 2, p) % p) * z % p == x % p
  {
    var i := Exp(z, p - 2, p);
    InverseByPower(p, z);
    MulMod(x * i, z, p);
    Associate(x, i, z);
    assert i * z == z * i;
    MulMod(x, z * i, p);
  }
}
