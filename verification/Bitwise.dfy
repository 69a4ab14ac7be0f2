/** Bitwise operators on unbounded two's-complement integers: the sign extends to the
    left for ever, as it does for Go's signed integers inside their width. */
module Bitwise {
  /** Halving towards minus infinity reaches 0 or -1; this is the distance to it. */
  function Size(x: int): nat {
    if x >= 0 then x else -x - 1
  }

  function Xor(x: int, y: int): (r: int)
    decreases Size(x) + Size(y)
  {
    if Size(x) == 0 && Size(y) == 0 then (if x == y then 0 else -1)
    else 2 * Xor(x / 2, y / 2) + (if x % 2 == y % 2 then 0 else 1)
  }

  function And(x: int, y: int): (r: int)
    decreases Size(x) + Size(y)
  {
    if Size(x) == 0 && Size(y) == 0 then (if x == -1 && y == -1 then -1 else 0)
    else 2 * And(x / 2, y / 2) + x % 2 * (y % 2)
  }

  function Or(x: int, y: int): (r: int)
    decreases Size(x) + Size(y)
  {
    if Size(x) == 0 && Size(y) == 0 then (if x == 0 && y == 0 then 0 else -1)
    else 2 * Or(x / 2, y / 2) + (if x % 2 == 0 && y % 2 == 0 then 0 else 1)
  }

  lemma {:induction false} XorZero(x: int)
    ensures Xor(x, 0) == x
    decreases Size(x)
  {
    if Size(x) != 0 { XorZero(x / 2); }
  }

  /** Xor is an involution: masking twice with the same value restores it. */
  lemma {:induction false} XorCancel(x: int, y: int)
    ensures Xor(Xor(x, y), y) == x
    ensures Xor(x, Xor(x, y)) == y
    decreases Size(x) + Size(y)
  {
    if Size(x) != 0 || Size(y) != 0 {
      XorCancel(x / 2, y / 2);
      var r := Xor(x, y);
      assert r / 2 == Xor(x / 2, y / 2);
      assert r % 2 == if x % 2 == y % 2 then 0 else 1;
    }
  }

  lemma {:induction false} AndMask(x: int)
    ensures And(0, x) == 0 && And(-1, x) == x
    decreases Size(x)
  {
    if Size(x) != 0 { AndMask(x / 2); }
  }

  lemma {:induction false} XorNonNegative(x: nat, y: nat, k: nat)
    requires x < Pow2(k) && y < Pow2(k)
    ensures 0 <= Xor(x, y) < Pow2(k)
    decreases k
  {
    if k != 0 { XorNonNegative(x / 2, y / 2, k - 1); }
  }

  function Pow2(k: nat): nat {
    if k == 0 then 1 else 2 * Pow2(k - 1)
  }

  lemma XorOfBytes(x: int, y: int)
    requires 0 <= x < 256 && 0 <= y < 256
    ensures 0 <= Xor(x, y) < 256
  {
    assert Pow2(8) == 256;
    XorNonNegative(x, y, 8);
  }

  lemma Halve(a: nat, u: int)
    ensures (a + 2 * u) / 2 == a / 2 + u && (a + 2 * u) % 2 == a % 2
  {
  }

  lemma XorStep(x: int, y: int)
    ensures Xor(x, y) == 2 * Xor(x / 2, y / 2) + (if x % 2 == y % 2 then 0 else 1)
  {
  }

  /** The step of XorJoin: one more low bit. */
  lemma JoinStep(a: nat, b: nat, u: int, v: int, z: int)
    requires Xor(a / 2 + u, b / 2 + v) == Xor(a / 2, b / 2) + z
    ensures Xor(a + 2 * u, b + 2 * v) == Xor(a, b) + 2 * z
  {
    Halve(a, u);
    Halve(b, v);
    XorStep(a + 2 * u, b + 2 * v);
    XorStep(a, b);
  }

  lemma Double(w: int, z: int)
    ensures 2 * (w * z) == (2 * w) * z
  {
  }

  lemma PowTwice(k: nat, z: int)
    requires k > 0
    ensures Pow2(k) * z == 2 * (Pow2(k - 1) * z)
  {
    Double(Pow2(k - 1), z);
  }

  /** The low k bits and the rest are combined separately. */
  lemma {:induction false} XorJoin(a: nat, b: nat, x: nat, y: nat, k: nat)
    requires a < Pow2(k) && b < Pow2(k)
    ensures Xor(a + Pow2(k) * x, b + Pow2(k) * y) == Xor(a, b) + Pow2(k) * Xor(x, y)
    decreases k
  {
    if k == 0 {
      assert Xor(a, b) == 0;
    } else {
      var w := Pow2(k - 1);
      XorJoin(a / 2, b / 2, x, y, k - 1);
      JoinStep(a, b, w * x, w * y, w * Xor(x, y));
      PowTwice(k, x);
      PowTwice(k, y);
      PowTwice(k, Xor(x, y));
    }
  }

  lemma {:induction false} OrZero(y: int)
    ensures Or(0, y) == y
    decreases Size(y)
  {
    if Size(y) != 0 { OrZero(y / 2); }
  }

  lemma OrStep(x: int, y: int)
    ensures Or(x, y) == 2 * Or(x / 2, y / 2) + (if x % 2 == 0 && y % 2 == 0 then 0 else 1)
  {
  }

  lemma HalveMultiple(w: int, y: int)
    ensures (2 * (w * y)) / 2 == w * y && (2 * (w * y)) % 2 == 0
  {
  }

  lemma OrJoinStep(a: nat, x: nat, y: int, w: nat)
    requires Or(a / 2 + w * x, w * y) == a / 2 + w * Or(x, y)
    ensures Or(a + 2 * (w * x), 2 * (w * y)) == a + 2 * (w * Or(x, y))
  {
    Halve(a, w * x);
    HalveMultiple(w, y);
    OrStep(a + 2 * (w * x), 2 * (w * y));
  }

  /** The low k bits stay when something with none of them is joined. */
  lemma {:induction false} OrJoin(a: nat, x: nat, y: int, k: nat)
    requires a < Pow2(k)
    ensures Or(a + Pow2(k) * x, Pow2(k) * y) == a + Pow2(k) * Or(x, y)
    decreases k
  {
    if k > 0 {
      var w := Pow2(k - 1);
      OrJoin(a / 2, x, y, k - 1);
      OrJoinStep(a, x, y, w);
      PowTwice(k, x);
      PowTwice(k, y);
      PowTwice(k, Or(x, y));
    }
  }

  /** Or of a value and a multiple of a power of two above it is their sum. */
  lemma OrDisjoint(a: nat, y: int, k: nat)
    requires a < Pow2(k)
    ensures Or(a, Pow2(k) * y) == a + Pow2(k) * y
  {
    OrJoin(a, 0, y, k);
    OrZero(y);
    assert Pow2(k) * 0 == 0;
  }

  /** The operators stay inside a signed width. */
  lemma {:induction false} XorSigned(x: int, y: int, k: nat)
    requires -(Pow2(k) as int) <= x < Pow2(k) && -(Pow2(k) as int) <= y < Pow2(k)
    ensures -(Pow2(k) as int) <= Xor(x, y) < Pow2(k)
    decreases k
  {
    if k != 0 { XorSigned(x / 2, y / 2, k - 1); }
  }
}
