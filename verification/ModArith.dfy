/** Modular exponentiation (`big.Int.Exp`) and the laws of it that the protocols rest on. */
module ModArith {
  function Pow(b: nat, e: nat): nat {
    if e == 0 then 1 else b * Pow(b, e - 1)
  }

  /** b^e mod m */
  function Exp(b: nat, e: nat, m: nat): (r: nat)
    requires m > 0
    ensures r < m
  {
    Pow(b, e) % m
  }

  lemma {:induction false} PowAdd(b: nat, x: nat, y: nat)
    ensures Pow(b, x + y) == Pow(b, x) * Pow(b, y)
  {
    if x != 0 {
      PowAdd(b, x - 1, y);
      Associate(b, Pow(b, x - 1), Pow(b, y));
      assert x + y - 1 == (x - 1) + y;
    }
  }

  lemma Associate(a: int, b: int, c: int)
    ensures a * (b * c) == (a * b) * c
  {
  }

  lemma {:induction false} PowMul(b: nat, x: nat, y: nat)
    ensures Pow(Pow(b, x), y) == Pow(b, x * y)
  {
    if y == 0 {
      assert x * y == 0;
    } else {
      PowMul(b, x, y - 1);
      PowAdd(b, x, x * (y - 1));
      assert x + x * (y - 1) == x * y;
    }
  }

  /** Congruent integers have equal remainders. */
  lemma ModUnique(a: int, k: int, m: int)
    requires m > 0
    ensures (a + k * m) % m == a % m
  {
    var q, r := a / m, a % m;
    assert a + k * m == (q + k) * m + r;
    Quotient(q + k, r, m);
  }

  lemma Quotient(q: int, r: int, m: int)
    requires 0 <= r < m
    ensures (q * m + r) % m == r && (q * m + r) / m == q
  {
    var x := q * m + r;
    var q', r' := x / m, x % m;
    assert x == q' * m + r';
    assert (q - q') * m == r' - r;
    SmallMultiple(q - q', m);
  }

  /** A multiple of m strictly between -m and m is zero. */
  lemma SmallMultiple(k: int, m: int)
    requires m > 0 && -m < k * m < m
    ensures k == 0
  {
  }

  lemma MulMod(a: int, b: int, m: int)
    requires m > 0
    ensures (a % m) * (b % m) % m == a * b % m
    ensures (a % m) * b % m == a * b % m
    ensures a * (b % m) % m == a * b % m
  {
    MulModLeft(a, b, m);
    MulModLeft(b, a, m);
    MulModLeft(b, a % m, m);
    assert a * b == b * a && a * (b % m) == (b % m) * a;
    assert (a % m) * (b % m) == (b % m) * (a % m) && b * (a % m) == (a % m) * b;
  }

  lemma MulModLeft(a: int, b: int, m: int)
    requires m > 0
    ensures (a % m) * b % m == a * b % m
  {
    var q, r := a / m, a % m;
    assert a == q * m + r;
    assert a * b == r * b + (q * b) * m by {
      assert (q * m + r) * b == (q * m) * b + r * b;
      assert (q * m) * b == (q * b) * m;
    }
    ModUnique(r * b, q * b, m);
  }

  lemma AddMod(a: int, b: int, m: int)
    requires m > 0
    ensures (a % m + b % m) % m == (a + b) % m
    ensures (a % m + b) % m == (a + b) % m
  {
    var q, q' := a / m, b / m;
    assert a == q * m + a % m && b == q' * m + b % m;
    ModUnique(a % m + b % m, q + q', m);
    assert a % m + b % m + (q + q') * m == a + b;
    ModUnique(a % m + b, q, m);
  }

  lemma {:induction false} ExpModBase(b: nat, e: nat, m: nat)
    requires m > 0
    ensures Exp(b % m, e, m) == Exp(b, e, m)
  {
    if e != 0 {
      ExpModBase(b, e - 1, m);
      MulMod(b, Pow(b, e - 1), m);
      MulMod(b % m, Pow(b % m, e - 1), m);
    }
  }

  /** (b^x)^y = b^(xy) mod m */
  lemma ExpExp(b: nat, x: nat, y: nat, m: nat)
    requires m > 0
    ensures Exp(Exp(b, x, m), y, m) == Exp(b, x * y, m)
  {
    ExpModBase(Pow(b, x), y, m);
    PowMul(b, x, y);
  }

  /** The Diffie-Hellman law: both sides raise the other's public value to the same secret. */
  lemma ExpCommutes(b: nat, x: nat, y: nat, m: nat)
    requires m > 0
    ensures Exp(Exp(b, x, m), y, m) == Exp(Exp(b, y, m), x, m)
  {
    ExpExp(b, x, y, m);
    ExpExp(b, y, x, m);
    assert x * y == y * x;
  }

  /** b^x * b^y = b^(x+y) mod m */
  lemma ExpAdd(b: nat, x: nat, y: nat, m: nat)
    requires m > 0
    ensures Exp(b, x, m) * Exp(b, y, m) % m == Exp(b, x + y, m)
  {
    PowAdd(b, x, y);
    MulMod(Pow(b, x), Pow(b, y), m);
  }
}
