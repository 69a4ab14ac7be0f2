/** Addition, subtraction, conditional swap and inversion of field elements
    (golang-x-crypto/curve25519/curve25519.go). */
module FieldOps {
  import opened Bitwise
  import opened ModArith
  import opened FieldLimbs
  import opened FieldMul

  // Limbs under a key

  /** A statement under a key is used only where the key is mentioned: what limbs are bounded by and denote
      stays out of sight in the long computations below. */
  predicate Key(k: int) { k < 0 || k >= 0 }

  /** s stands for v, within the bounds a multiplication returns. */
  ghost predicate Holds(s: Fe, v: nat) { forall k :: Key(k) ==> Tight(s) && Field(s) == v }

  /** s stands for v, within the bounds a multiplication accepts. */
  ghost predicate Accepts(s: Fe, v: nat) { forall k :: Key(k) ==> Wide(s) && Field(s) == v }

  lemma OpenHolds(s: Fe, v: nat)
    requires Holds(s, v)
    ensures Tight(s) && Field(s) == v
  {
    assert Key(0);
  }

  lemma OpenAccepts(s: Fe, v: nat)
    requires Accepts(s, v)
    ensures Wide(s) && Field(s) == v
  {
    assert Key(0);
  }

  lemma CloseAccepts(s: Fe, v: nat)
    requires Wide(s) && Field(s) == v
    ensures Accepts(s, v)
  {
  }

  lemma Widen(s: Fe, v: nat)
    requires Holds(s, v)
    ensures Accepts(s, v)
  {
    OpenHolds(s, v);
  }

  function MulP(a: nat, b: nat): nat { a * b % P }

  function AddP(a: nat, b: nat): nat { (a + b) % P }

  function SubP(a: nat, b: nat): nat { (a - b) % P }

  lemma SubMod(a: int, b: int, m: int)
    requires m > 0
    ensures (a % m - b % m) % m == (a - b) % m
  {
    var qa, qb := a / m, b / m;
    assert a - b == (a % m - b % m) + (qa - qb) * m by {
      assert (qa - qb) * m == qa * m - qb * m;
    }
    ModUnique(a % m - b % m, qa - qb, m);
  }

  lemma TightAt(s: Fe, i: nat)
    requires Tight(s) && i < 10
    ensures Within(s[i] as int, 36909875)
  {
    assert i == 0 || i == 1 || i == 2 || i == 3 || i == 4 || i == 5 || i == 6 || i == 7 || i == 8 || i == 9;
  }

  lemma SumResidue(a: int, b: int, r: int)
    requires r == a + b
    ensures r % P == (a % P + b % P) % P
  {
    AddMod(a, b, P);
  }

  lemma DifferenceResidue(a: int, b: int, r: int)
    requires r == a - b
    ensures r % P == (a % P - b % P) % P
  {
    SubMod(a, b, P);
  }

  /** r is a + b, or a - b, limb by limb. */
  predicate Adds(a: Fe, b: Fe, r: Fe) { forall i :: 0 <= i < 10 ==> r[i] as int == a[i] as int + b[i] as int }

  predicate Subtracts(a: Fe, b: Fe, r: Fe) { forall i :: 0 <= i < 10 ==> r[i] as int == a[i] as int - b[i] as int }

  lemma AddWide(a: Fe, b: Fe, r: Fe)
    requires Tight(a) && Tight(b) && (Adds(a, b, r) || Subtracts(a, b, r))
    ensures Wide(r)
  {
  }

  lemma ElementOfSum(u: Limbs, v: Limbs)
    ensures Element(Add(u, v)) == (Element(u) + Element(v)) % P
    ensures Element(Sub(u, v)) == (Element(u) - Element(v)) % P
  {
    ValueAdd(u, v);
    SumResidue(Value(u), Value(v), Value(Add(u, v)));
    DifferenceResidue(Value(u), Value(v), Value(Sub(u, v)));
  }

  lemma AddElement(a: Fe, b: Fe, r: Fe)
    requires Adds(a, b, r)
    ensures Field(r) == (Field(a) + Field(b)) % P
  {
    assert ToLimbs(r) == Add(ToLimbs(a), ToLimbs(b));
    ElementOfSum(ToLimbs(a), ToLimbs(b));
  }

  lemma SubElement(a: Fe, b: Fe, r: Fe)
    requires Subtracts(a, b, r)
    ensures Field(r) == (Field(a) - Field(b)) % P
  {
    assert ToLimbs(r) == Sub(ToLimbs(a), ToLimbs(b));
    ElementOfSum(ToLimbs(a), ToLimbs(b));
  }

  lemma AddHeld(x: Fe, y: Fe, r: Fe, a: nat, b: nat)
    requires Adds(x, y, r) && Holds(x, a) && Holds(y, b)
    ensures Accepts(r, AddP(a, b))
  {
    OpenHolds(x, a);
    OpenHolds(y, b);
    AddWide(x, y, r);
    AddElement(x, y, r);
    CloseAccepts(r, Field(r));
  }

  lemma SubHeld(x: Fe, y: Fe, r: Fe, a: nat, b: nat)
    requires Subtracts(x, y, r) && Holds(x, a) && Holds(y, b)
    ensures Accepts(r, SubP(a, b))
  {
    OpenHolds(x, a);
    OpenHolds(y, b);
    AddWide(x, y, r);
    SubElement(x, y, r);
    CloseAccepts(r, Field(r));
  }

  lemma HeldAt(s: Fe, v: nat, i: nat)
    requires Holds(s, v) && i < 10
    ensures Within(s[i] as int, 36909875)
  {
    OpenHolds(s, v);
    TightAt(s, i);
  }

  method FeAdd(dst: array<int32>, f: array<int32>, g: array<int32>, ghost a: nat, ghost b: nat)
    requires dst.Length == f.Length == g.Length == 10 && Holds(f[..], a) && Holds(g[..], b)
    modifies dst
    ensures Accepts(dst[..], AddP(a, b))
  {
    ghost var x: Fe, y: Fe := f[..], g[..];
    for i := 0 to 10
      invariant forall j :: i <= j < 10 ==> f[j] == x[j] && g[j] == y[j]
      invariant forall j :: 0 <= j < i ==> dst[j] as int == x[j] as int + y[j] as int
    {
      HeldAt(x, a, i);
      HeldAt(y, b, i);
      dst[i] := f[i] + g[i];
    }
    AddHeld(x, y, dst[..], a, b);
  }

  method FeSub(dst: array<int32>, f: array<int32>, g: array<int32>, ghost a: nat, ghost b: nat)
    requires dst.Length == f.Length == g.Length == 10 && Holds(f[..], a) && Holds(g[..], b)
    modifies dst
    ensures Accepts(dst[..], SubP(a, b))
  {
    ghost var x: Fe, y: Fe := f[..], g[..];
    for i := 0 to 10
      invariant forall j :: i <= j < 10 ==> f[j] == x[j] && g[j] == y[j]
      invariant forall j :: 0 <= j < i ==> dst[j] as int == x[j] as int - y[j] as int
    {
      HeldAt(x, a, i);
      HeldAt(y, b, i);
      dst[i] := f[i] - g[i];
    }
    SubHeld(x, y, dst[..], a, b);
  }

  lemma OneLimb(v: Limbs)
    requires v == Limbs(v.a0, 0, 0, 0, 0, 0, 0, 0, 0, 0)
    ensures Value(v) == v.a0
  {
  }

  lemma SmallResidue(v: int)
    requires 0 <= v < P
    ensures v % P == v
  {
    Quotient(0, v, P);
  }

  /** A small number in the first limb. */
  lemma SmallHolds(s: Fe, v: nat)
    requires v <= 1 && s == [v as int32, 0, 0, 0, 0, 0, 0, 0, 0, 0]
    ensures Holds(s, v)
  {
    OneLimb(ToLimbs(s));
    SmallResidue(v);
  }

  method FeZero(fe: array<int32>)
    requires fe.Length == 10
    modifies fe
    ensures fe[..] == [0, 0, 0, 0, 0, 0, 0, 0, 0, 0] && Holds(fe[..], 0)
  {
    for i := 0 to 10
      invariant forall j :: 0 <= j < i ==> fe[j] == 0
    {
      fe[i] := 0;
    }
    SmallHolds(fe[..], 0);
  }

  method FeOne(fe: array<int32>)
    requires fe.Length == 10
    modifies fe
    ensures Holds(fe[..], 1)
  {
    FeZero(fe);
    fe[0] := 1;
    SmallHolds(fe[..], 1);
  }

  method FeCopy(dst: array<int32>, src: array<int32>)
    requires dst.Length == src.Length == 10
    modifies dst
    ensures dst[..] == old(src[..])
  {
    for i := 0 to 10
      invariant forall j :: i <= j < 10 ==> src[j] == old(src[j])
      invariant forall j :: 0 <= j < i ==> dst[j] == old(src[j])
    {
      dst[i] := src[i];
    }
  }

  // Conditional swap

  lemma Pow2Word()
    ensures Pow2(31) == 0x8000_0000
  {
    assert Pow2(8) == 256;
    assert Pow2(16) == 256 * Pow2(8) by { assert Pow2(12) == 16 * Pow2(8) && Pow2(16) == 16 * Pow2(12); }
    assert Pow2(24) == 256 * Pow2(16) by { assert Pow2(20) == 16 * Pow2(16) && Pow2(24) == 16 * Pow2(20); }
    assert Pow2(31) == 128 * Pow2(24) by { assert Pow2(28) == 16 * Pow2(24) && Pow2(31) == 8 * Pow2(28); }
  }

  function Xor32(a: int32, b: int32): (r: int32)
    ensures r as int == Xor(a as int, b as int)
  {
    Pow2Word();
    XorSigned(a as int, b as int, 31);
    Xor(a as int, b as int) as int32
  }

  /** And with a mask of no bits or of all bits. */
  function Mask32(mask: int32, a: int32): (r: int32)
    requires mask == 0 || mask == -1
    ensures r == if mask == 0 then 0 else a
  {
    AndMask(a as int);
    And(mask as int, a as int) as int32
  }

  /** What the masked exclusive or does to one pair of limbs. */
  lemma SwapLimb(f: int32, g: int32, mask: int32)
    requires mask == 0 || mask == -1
    ensures var x := Mask32(mask, Xor32(f, g));
      Xor32(f, x) == (if mask == 0 then f else g) && Xor32(g, x) == (if mask == 0 then g else f)
  {
    XorZero(f as int);
    XorZero(g as int);
    XorCancel(f as int, g as int);
    XorSymmetric(f as int, g as int);
    XorSymmetric(g as int, Xor(f as int, g as int));
  }

  lemma {:induction false} XorSymmetric(x: int, y: int)
    ensures Xor(x, y) == Xor(y, x)
    decreases Size(x) + Size(y)
  {
    if Size(x) != 0 || Size(y) != 0 {
      XorSymmetric(x / 2, y / 2);
    }
  }

  /** Exchanges f and g when b is 1 and leaves them when it is 0, with the same operations either way. */
  method FeCSwap(f: array<int32>, g: array<int32>, b: int32)
    requires f.Length == g.Length == 10 && f != g && (b == 0 || b == 1)
    modifies f, g
    ensures f[..] == (if b == 1 then old(g[..]) else old(f[..]))
    ensures g[..] == (if b == 1 then old(f[..]) else old(g[..]))
  {
    var x := new int32[10];
    var mask := -b;
    for i := 0 to 10
      invariant f[..] == old(f[..]) && g[..] == old(g[..])
      invariant forall j :: 0 <= j < i ==> x[j] == Mask32(mask, Xor32(old(f[j]), old(g[j])))
    {
      x[i] := Mask32(mask, Xor32(f[i], g[i]));
    }
    for i := 0 to 10
      invariant g[..] == old(g[..])
      invariant forall j :: 0 <= j < 10 ==> x[j] == Mask32(mask, Xor32(old(f[j]), old(g[j])))
      invariant forall j :: 0 <= j < i ==> f[j] == Xor32(old(f[j]), x[j])
      invariant forall j :: i <= j < 10 ==> f[j] == old(f[j])
    {
      f[i] := Xor32(f[i], x[i]);
    }
    for i := 0 to 10
      invariant forall j :: 0 <= j < 10 ==> x[j] == Mask32(mask, Xor32(old(f[j]), old(g[j])))
      invariant forall j :: 0 <= j < 10 ==> f[j] == Xor32(old(f[j]), x[j])
      invariant forall j :: 0 <= j < i ==> g[j] == Xor32(old(g[j]), x[j])
      invariant forall j :: i <= j < 10 ==> g[j] == old(g[j])
    {
      g[i] := Xor32(g[i], x[i]);
    }
    forall j | 0 <= j < 10
      ensures f[j] == (if b == 1 then old(g[j]) else old(f[j])) && g[j] == (if b == 1 then old(f[j]) else old(g[j]))
    {
      SwapLimb(old(f[j]), old(g[j]), mask);
    }
  }

  method Mul(h: array<int32>, f: array<int32>, g: array<int32>, ghost a: nat, ghost b: nat)
    requires h.Length == f.Length == g.Length == 10 && Accepts(f[..], a) && Accepts(g[..], b)
    modifies h
    ensures Holds(h[..], MulP(a, b))
  {
    OpenAccepts(f[..], a);
    OpenAccepts(g[..], b);
    FeMul(h, f, g);
  }

  method Square(h: array<int32>, f: array<int32>, ghost a: nat)
    requires h.Length == f.Length == 10 && Accepts(f[..], a)
    modifies h
    ensures Holds(h[..], MulP(a, a))
  {
    OpenAccepts(f[..], a);
    FeSquare(h, f);
  }

  method Mul121666(h: array<int32>, f: array<int32>, ghost a: nat)
    requires h.Length == f.Length == 10 && Accepts(f[..], a)
    modifies h
    ensures Holds(h[..], MulP(121666, a))
  {
    OpenAccepts(f[..], a);
    FeMul121666(h, f);
  }

  // Inversion

  /** s is a power of x. */
  ghost predicate Power(s: Fe, x: nat, e: nat) { forall k :: Key(k) ==> Holds(s, Exp(x, e, P)) }

  lemma OpenPower(s: Fe, x: nat, e: nat)
    requires Power(s, x, e)
    ensures Holds(s, Exp(x, e, P))
  {
    assert Key(0);
  }

  method MulPowers(h: array<int32>, f: array<int32>, g: array<int32>, ghost x: nat, ghost a: nat, ghost b: nat)
    requires h.Length == f.Length == g.Length == 10 && Power(f[..], x, a) && Power(g[..], x, b)
    modifies h
    ensures Power(h[..], x, a + b)
  {
    OpenPower(f[..], x, a);
    OpenPower(g[..], x, b);
    Widen(f[..], Exp(x, a, P));
    Widen(g[..], Exp(x, b, P));
    Mul(h, f, g, Exp(x, a, P), Exp(x, b, P));
    ExpAdd(x, a, b, P);
  }

  method SquarePower(t: array<int32>, src: array<int32>, ghost x: nat, ghost e: nat)
    requires t.Length == src.Length == 10 && Power(src[..], x, e)
    modifies t
    ensures Power(t[..], x, 2 * e)
  {
    OpenPower(src[..], x, e);
    Widen(src[..], Exp(x, e, P));
    Square(t, src, Exp(x, e, P));
    ExpAdd(x, e, e, P);
    assert e + e == 2 * e;
  }

  /** e doubled n times. */
  function Doubled(e: nat, n: nat): nat { if n == 0 then e else 2 * Doubled(e, n - 1) }

  /** n squarings in a row, as the loops of feInvert do them. */
  method SquareTimes(t: array<int32>, src: array<int32>, n: nat, ghost x: nat, ghost e: nat)
    requires t.Length == src.Length == 10 && n >= 1 && Power(src[..], x, e)
    modifies t
    ensures Power(t[..], x, Doubled(e, n))
  {
    SquarePower(t, src, x, e);
    for i := 1 to n
      invariant Power(t[..], x, Doubled(e, i))
    {
      SquarePower(t, t, x, Doubled(e, i));
    }
  }

  /** The exponent with k ones in binary. */
  function Ones(k: nat): (r: nat)
    ensures r + 1 == Pow2(k)
  {
    Pow2Positive(k);
    Pow2(k) - 1
  }

  lemma {:induction false} Pow2Positive(k: nat)
    ensures Pow2(k) >= 1
  {
    if k > 0 { Pow2Positive(k - 1); }
  }

  lemma {:induction false} DoubledOnes(a: nat, n: nat)
    ensures Doubled(Ones(a), n) + Pow2(n) == Pow2(a + n)
  {
    if n > 0 {
      DoubledOnes(a, n - 1);
      assert a + n - 1 == a + (n - 1);
    }
  }

  /** s is x to the power with k ones. */
  ghost predicate Run(s: Fe, x: nat, k: nat) { forall j :: Key(j) ==> Power(s, x, Ones(k)) }

  lemma OpenRun(s: Fe, x: nat, k: nat)
    requires Run(s, x, k)
    ensures Power(s, x, Ones(k))
  {
    assert Key(0);
  }

  /** Shift a run of a ones up by n and fill the gap with a run of n: one link of the addition chain. */
  method Chain(h: array<int32>, t: array<int32>, hi: array<int32>, lo: array<int32>, n: nat, ghost x: nat, ghost a: nat)
    requires h.Length == t.Length == hi.Length == lo.Length == 10 && n >= 1 && t != lo
    requires Run(hi[..], x, a) && Run(lo[..], x, n)
    modifies h, t
    ensures Run(h[..], x, a + n)
  {
    OpenRun(hi[..], x, a);
    OpenRun(lo[..], x, n);
    SquareTimes(t, hi, n, x, Ones(a));
    MulPowers(h, t, lo, x, Doubled(Ones(a), n), Ones(n));
    DoubledOnes(a, n);
  }

  /** The start of the chain: the powers 11 and 31. */
  method ChainStart(t0: array<int32>, t1: array<int32>, t2: array<int32>, z: array<int32>, ghost x: nat)
    requires t0.Length == t1.Length == t2.Length == z.Length == 10 && t0 != t1 && t1 != t2 && t0 != t2
    requires z != t0 && z != t1 && z != t2 && Power(z[..], x, 1)
    modifies t0, t1, t2
    ensures Power(t0[..], x, 11) && Run(t1[..], x, 5)
  {
    SquareTimes(t0, z, 1, x, 1);
    SquareTimes(t1, t0, 2, x, 2);
    MulPowers(t1, z, t1, x, 1, 8);
    MulPowers(t0, t0, t1, x, 2, 9);
    SquareTimes(t2, t0, 1, x, 11);
    MulPowers(t1, t1, t2, x, 9, 22);
    assert Ones(5) == 31;
  }

  lemma {:induction false} Pow2Sum(a: nat, b: nat)
    ensures Pow2(a + b) == Pow2(a) * Pow2(b)
  {
    if b > 0 {
      Pow2Sum(a, b - 1);
      Double(Pow2(a), Pow2(b - 1));
      assert Pow2(a + b) == 2 * Pow2(a + (b - 1));
    }
  }

  lemma DoublePower(k: nat, n: nat, v: nat)
    requires Pow2(k) == v && n == 2 * k
    ensures Pow2(n) == v * v
  {
    Pow2Sum(k, k);
  }

  lemma TopPower(a: nat, b: nat, c: nat, d: nat)
    requires a == 31 && b == 62 && c == 124 && d == 248
    ensures Pow2(d + 7) == P + 19
  {
    Pow2Word();
    DoublePower(a, b, 0x8000_0000);
    DoublePower(b, c, 0x4000000000000000);
    DoublePower(c, d, 0x10000000000000000000000000000000);
    Pow2Sum(d, 7);
    assert Pow2(7) == 128;
  }

  function InverseExponent(): nat { P - 2 }

  lemma LastExponent()
    ensures Doubled(Ones(250), 5) + 11 == InverseExponent()
  {
    DoubledOnes(250, 5);
    TopPower(31, 62, 124, 248);
    assert Pow2(5) == 32;
  }

  lemma FirstPower(s: Fe, x: nat)
    requires x < P && Holds(s, x)
    ensures Power(s, x, 1)
  {
    assert Pow(x, 1) == x * Pow(x, 0) == x;
  }

  /** The end of the chain: 250 ones, five more squarings, and the power 11. */
  method ChainEnd(out: array<int32>, t1: array<int32>, t0: array<int32>, ghost x: nat)
    requires out.Length == t1.Length == t0.Length == 10 && t1 != t0 && Run(t1[..], x, 250) && Power(t0[..], x, 11)
    modifies out, t1
    ensures Power(out[..], x, InverseExponent())
  {
    OpenRun(t1[..], x, 250);
    SquareTimes(t1, t1, 5, x, Ones(250));
    MulPowers(out, t1, t0, x, Doubled(Ones(250), 5), 11);
    LastExponent();
  }

  /** From 5 ones to 50. */
  method ChainTo50(t1: array<int32>, t2: array<int32>, t3: array<int32>, ghost x: nat)
    requires t1.Length == t2.Length == t3.Length == 10 && t1 != t2 && t1 != t3 && t2 != t3 && Run(t1[..], x, 5)
    modifies t1, t2, t3
    ensures Run(t1[..], x, 50)
  {
    Chain(t1, t2, t1, t1, 5, x, 5);
    Chain(t2, t2, t1, t1, 10, x, 10);
    Chain(t2, t3, t2, t2, 20, x, 20);
    Chain(t1, t2, t2, t1, 10, x, 40);
  }

  /** From 50 ones to 250. */
  method ChainTo250(t1: array<int32>, t2: array<int32>, t3: array<int32>, ghost x: nat)
    requires t1.Length == t2.Length == t3.Length == 10 && t1 != t2 && t1 != t3 && t2 != t3 && Run(t1[..], x, 50)
    modifies t1, t2, t3
    ensures Run(t1[..], x, 250)
  {
    Chain(t2, t2, t1, t1, 50, x, 50);
    Chain(t2, t3, t2, t2, 100, x, 100);
    Chain(t1, t2, t2, t1, 50, x, 200);
  }

  /** out = z^(p-2), which is the inverse of z where it has one. */
  method FeInvert(out: array<int32>, z: array<int32>, ghost x: nat)
    requires out.Length == z.Length == 10 && x < P && Holds(z[..], x)
    modifies out
    ensures Holds(out[..], Exp(x, InverseExponent(), P))
  {
    var t0, t1, t2, t3 := new int32[10], new int32[10], new int32[10], new int32[10];
    FirstPower(z[..], x);
    ChainStart(t0, t1, t2, z, x);
    ChainTo50(t1, t2, t3, x);
    ChainTo250(t1, t2, t3, x);
    ChainEnd(out, t1, t0, x);
    OpenPower(out[..], x, InverseExponent());
  }
}
