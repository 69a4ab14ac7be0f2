/** Multiplication of field elements with machine integers (feMul, feSquare and feMul121666 of
    golang-x-crypto/curve25519/curve25519.go). The bounded integer types make every int32 and int64
    operation prove that it does not overflow. */
module FieldMul {
  import opened FieldLimbs
  import opened ModArith

  newtype int32 = x: int | -0x8000_0000 <= x < 0x8000_0000
  newtype int64 = x: int | -0x8000_0000_0000_0000 <= x < 0x8000_0000_0000_0000

  /** Ten machine limbs, as a fieldElement holds them. */
  type Fe = s: seq<int32> | |s| == 10 witness [0, 0, 0, 0, 0, 0, 0, 0, 0, 0]

  function ToLimbs(s: Fe): Limbs {
    Limbs(s[0] as int, s[1] as int, s[2] as int, s[3] as int, s[4] as int, s[5] as int, s[6] as int, s[7] as int,
          s[8] as int, s[9] as int)
  }

  /** The field element that machine limbs stand for. */
  function Field(s: Fe): (r: nat)
    ensures r < P
  {
    Element(ToLimbs(s))
  }

  predicate Within(x: int, bound: int) { -bound <= x <= bound }

  predicate EvenWithin(s: Fe, k: int) {
    && Within(s[0] as int, k) && Within(s[2] as int, k) && Within(s[4] as int, k)
    && Within(s[6] as int, k) && Within(s[8] as int, k)
  }

  predicate OddWithin(s: Fe, k: int) {
    && Within(s[1] as int, k) && Within(s[3] as int, k) && Within(s[5] as int, k)
    && Within(s[7] as int, k) && Within(s[9] as int, k)
  }

  /** 1.1 * 2^26 on even limbs and 1.1 * 2^25 on odd ones: what a multiplication accepts. */
  predicate Wide(s: Fe) { EvenWithin(s, 73819750) && OddWithin(s, 36909875) }

  /** Half of that: what a multiplication returns. */
  predicate Tight(s: Fe) { EvenWithin(s, 36909875) && OddWithin(s, 18454937) }

  lemma MulBound(a: int, b: int, ka: nat, kb: nat)
    requires Within(a, ka) && Within(b, kb)
    ensures Within(a * b, ka * kb)
  {
    if a >= 0 && b >= 0 {
      MulLe(a, b, ka, kb);
    } else if a >= 0 {
      MulLe(a, -b, ka, kb);
      assert a * -b == -(a * b);
    } else if b >= 0 {
      MulLe(-a, b, ka, kb);
      assert -a * b == -(a * b);
    } else {
      MulLe(-a, -b, ka, kb);
      assert -a * -b == a * b;
    }
  }

  lemma MulLe(a: nat, b: nat, ka: nat, kb: nat)
    requires a <= ka && b <= kb
    ensures 0 <= a * b <= ka * kb
  {
    assert a * b <= ka * b <= ka * kb;
  }

  /** A 64-bit product of two 32-bit values with known bounds. */
  function Prod(a: int32, b: int32, ghost ka: nat, ghost kb: nat): (r: int64)
    requires Within(a as int, ka) && Within(b as int, kb) && ka * kb < 0x4000_0000_0000_0000
    ensures r as int == a as int * b as int && Within(r as int, ka * kb)
  {
    MulBound(a as int, b as int, ka, kb);
    a as int64 * b as int64
  }

  // The products, one sum for each limb of the result

  function Row0(f: Fe, g: Fe): (r: int64)
    requires Wide(f) && Wide(g)
    ensures Within(r as int, 680000000000000000)
    ensures r as int == f[0] as int * g[0] as int + f[1] as int * (38 * g[9] as int)
        + f[2] as int * (19 * g[8] as int) + f[3] as int * (38 * g[7] as int) + f[4] as int * (19 * g[6] as int)
        + f[5] as int * (38 * g[5] as int) + f[6] as int * (19 * g[4] as int) + f[7] as int * (38 * g[3] as int)
        + f[8] as int * (19 * g[2] as int) + f[9] as int * (38 * g[1] as int)
  {
    Prod(f[0], g[0], 73819750, 73819750) + Prod(2 * f[1], 19 * g[9], 73819750, 701287625)
        + Prod(f[2], 19 * g[8], 73819750, 1402575250)
    + Prod(2 * f[3], 19 * g[7], 73819750, 701287625) + Prod(f[4], 19 * g[6], 73819750, 1402575250)
    + Prod(2 * f[5], 19 * g[5], 73819750, 701287625)
    + Prod(f[6], 19 * g[4], 73819750, 1402575250) + Prod(2 * f[7], 19 * g[3], 73819750, 701287625)
    + Prod(f[8], 19 * g[2], 73819750, 1402575250)
    + Prod(2 * f[9], 19 * g[1], 73819750, 701287625)
  }

  function Row1(f: Fe, g: Fe): (r: int64)
    requires Wide(f) && Wide(g)
    ensures Within(r as int, 420000000000000000)
    ensures r as int == f[0] as int * g[1] as int + f[1] as int * g[0] as int + f[2] as int * (19 * g[9] as int)
        + f[3] as int * (19 * g[8] as int) + f[4] as int * (19 * g[7] as int) + f[5] as int * (19 * g[6] as int)
        + f[6] as int * (19 * g[5] as int) + f[7] as int * (19 * g[4] as int) + f[8] as int * (19 * g[3] as int)
        + f[9] as int * (19 * g[2] as int)
  {
    Prod(f[0], g[1], 73819750, 36909875) + Prod(f[1], g[0], 36909875, 73819750)
        + Prod(f[2], 19 * g[9], 73819750, 701287625)
    + Prod(f[3], 19 * g[8], 36909875, 1402575250) + Prod(f[4], 19 * g[7], 73819750, 701287625)
    + Prod(f[5], 19 * g[6], 36909875, 1402575250)
    + Prod(f[6], 19 * g[5], 73819750, 701287625) + Prod(f[7], 19 * g[4], 36909875, 1402575250)
    + Prod(f[8], 19 * g[3], 73819750, 701287625)
    + Prod(f[9], 19 * g[2], 36909875, 1402575250)
  }

  function Row2(f: Fe, g: Fe): (r: int64)
    requires Wide(f) && Wide(g)
    ensures Within(r as int, 680000000000000000)
    ensures r as int == f[0] as int * g[2] as int + f[1] as int * (2 * g[1] as int) + f[2] as int * g[0] as int
        + f[3] as int * (38 * g[9] as int) + f[4] as int * (19 * g[8] as int) + f[5] as int * (38 * g[7] as int)
        + f[6] as int * (19 * g[6] as int) + f[7] as int * (38 * g[5] as int) + f[8] as int * (19 * g[4] as int)
        + f[9] as int * (38 * g[3] as int)
  {
    Prod(f[0], g[2], 73819750, 73819750) + Prod(2 * f[1], g[1], 73819750, 36909875)
        + Prod(f[2], g[0], 73819750, 73819750)
    + Prod(2 * f[3], 19 * g[9], 73819750, 701287625) + Prod(f[4], 19 * g[8], 73819750, 1402575250)
    + Prod(2 * f[5], 19 * g[7], 73819750, 701287625)
    + Prod(f[6], 19 * g[6], 73819750, 1402575250) + Prod(2 * f[7], 19 * g[5], 73819750, 701287625)
    + Prod(f[8], 19 * g[4], 73819750, 1402575250)
    + Prod(2 * f[9], 19 * g[3], 73819750, 701287625)
  }

  function Row3(f: Fe, g: Fe): (r: int64)
    requires Wide(f) && Wide(g)
    ensures Within(r as int, 420000000000000000)
    ensures r as int == f[0] as int * g[3] as int + f[1] as int * g[2] as int + f[2] as int * g[1] as int
        + f[3] as int * g[0] as int + f[4] as int * (19 * g[9] as int) + f[5] as int * (19 * g[8] as int)
        + f[6] as int * (19 * g[7] as int) + f[7] as int * (19 * g[6] as int) + f[8] as int * (19 * g[5] as int)
        + f[9] as int * (19 * g[4] as int)
  {
    Prod(f[0], g[3], 73819750, 36909875) + Prod(f[1], g[2], 36909875, 73819750) + Prod(f[2], g[1], 73819750, 36909875)
    + Prod(f[3], g[0], 36909875, 73819750) + Prod(f[4], 19 * g[9], 73819750, 701287625)
    + Prod(f[5], 19 * g[8], 36909875, 1402575250)
    + Prod(f[6], 19 * g[7], 73819750, 701287625) + Prod(f[7], 19 * g[6], 36909875, 1402575250)
    + Prod(f[8], 19 * g[5], 73819750, 701287625)
    + Prod(f[9], 19 * g[4], 36909875, 1402575250)
  }

  function Row4(f: Fe, g: Fe): (r: int64)
    requires Wide(f) && Wide(g)
    ensures Within(r as int, 680000000000000000)
    ensures r as int == f[0] as int * g[4] as int + f[1] as int * (2 * g[3] as int) + f[2] as int * g[2] as int
        + f[3] as int * (2 * g[1] as int) + f[4] as int * g[0] as int + f[5] as int * (38 * g[9] as int)
        + f[6] as int * (19 * g[8] as int) + f[7] as int * (38 * g[7] as int) + f[8] as int * (19 * g[6] as int)
        + f[9] as int * (38 * g[5] as int)
  {
    Prod(f[0], g[4], 73819750, 73819750) + Prod(2 * f[1], g[3], 73819750, 36909875)
        + Prod(f[2], g[2], 73819750, 73819750)
    + Prod(2 * f[3], g[1], 73819750, 36909875) + Prod(f[4], g[0], 73819750, 73819750)
    + Prod(2 * f[5], 19 * g[9], 73819750, 701287625)
    + Prod(f[6], 19 * g[8], 73819750, 1402575250) + Prod(2 * f[7], 19 * g[7], 73819750, 701287625)
    + Prod(f[8], 19 * g[6], 73819750, 1402575250)
    + Prod(2 * f[9], 19 * g[5], 73819750, 701287625)
  }

  function Row5(f: Fe, g: Fe): (r: int64)
    requires Wide(f) && Wide(g)
    ensures Within(r as int, 420000000000000000)
    ensures r as int == f[0] as int * g[5] as int + f[1] as int * g[4] as int + f[2] as int * g[3] as int
        + f[3] as int * g[2] as int + f[4] as int * g[1] as int + f[5] as int * g[0] as int
        + f[6] as int * (19 * g[9] as int) + f[7] as int * (19 * g[8] as int) + f[8] as int * (19 * g[7] as int)
        + f[9] as int * (19 * g[6] as int)
  {
    Prod(f[0], g[5], 73819750, 36909875) + Prod(f[1], g[4], 36909875, 73819750) + Prod(f[2], g[3], 73819750, 36909875)
    + Prod(f[3], g[2], 36909875, 73819750) + Prod(f[4], g[1], 73819750, 36909875) + Prod(f[5], g[0], 36909875, 73819750)
    + Prod(f[6], 19 * g[9], 73819750, 701287625) + Prod(f[7], 19 * g[8], 36909875, 1402575250)
    + Prod(f[8], 19 * g[7], 73819750, 701287625)
    + Prod(f[9], 19 * g[6], 36909875, 1402575250)
  }

  function Row6(f: Fe, g: Fe): (r: int64)
    requires Wide(f) && Wide(g)
    ensures Within(r as int, 680000000000000000)
    ensures r as int == f[0] as int * g[6] as int + f[1] as int * (2 * g[5] as int) + f[2] as int * g[4] as int
        + f[3] as int * (2 * g[3] as int) + f[4] as int * g[2] as int + f[5] as int * (2 * g[1] as int)
        + f[6] as int * g[0] as int + f[7] as int * (38 * g[9] as int) + f[8] as int * (19 * g[8] as int)
        + f[9] as int * (38 * g[7] as int)
  {
    Prod(f[0], g[6], 73819750, 73819750) + Prod(2 * f[1], g[5], 73819750, 36909875)
        + Prod(f[2], g[4], 73819750, 73819750)
    + Prod(2 * f[3], g[3], 73819750, 36909875) + Prod(f[4], g[2], 73819750, 73819750)
    + Prod(2 * f[5], g[1], 73819750, 36909875)
    + Prod(f[6], g[0], 73819750, 73819750) + Prod(2 * f[7], 19 * g[9], 73819750, 701287625)
    + Prod(f[8], 19 * g[8], 73819750, 1402575250)
    + Prod(2 * f[9], 19 * g[7], 73819750, 701287625)
  }

  function Row7(f: Fe, g: Fe): (r: int64)
    requires Wide(f) && Wide(g)
    ensures Within(r as int, 420000000000000000)
    ensures r as int == f[0] as int * g[7] as int + f[1] as int * g[6] as int + f[2] as int * g[5] as int
        + f[3] as int * g[4] as int + f[4] as int * g[3] as int + f[5] as int * g[2] as int
        + f[6] as int * g[1] as int + f[7] as int * g[0] as int + f[8] as int * (19 * g[9] as int)
        + f[9] as int * (19 * g[8] as int)
  {
    Prod(f[0], g[7], 73819750, 36909875) + Prod(f[1], g[6], 36909875, 73819750) + Prod(f[2], g[5], 73819750, 36909875)
    + Prod(f[3], g[4], 36909875, 73819750) + Prod(f[4], g[3], 73819750, 36909875) + Prod(f[5], g[2], 36909875, 73819750)
    + Prod(f[6], g[1], 73819750, 36909875) + Prod(f[7], g[0], 36909875, 73819750)
    + Prod(f[8], 19 * g[9], 73819750, 701287625)
    + Prod(f[9], 19 * g[8], 36909875, 1402575250)
  }

  function Row8(f: Fe, g: Fe): (r: int64)
    requires Wide(f) && Wide(g)
    ensures Within(r as int, 680000000000000000)
    ensures r as int == f[0] as int * g[8] as int + f[1] as int * (2 * g[7] as int) + f[2] as int * g[6] as int
        + f[3] as int * (2 * g[5] as int) + f[4] as int * g[4] as int + f[5] as int * (2 * g[3] as int)
        + f[6] as int * g[2] as int + f[7] as int * (2 * g[1] as int) + f[8] as int * g[0] as int
        + f[9] as int * (38 * g[9] as int)
  {
    Prod(f[0], g[8], 73819750, 73819750) + Prod(2 * f[1], g[7], 73819750, 36909875)
        + Prod(f[2], g[6], 73819750, 73819750)
    + Prod(2 * f[3], g[5], 73819750, 36909875) + Prod(f[4], g[4], 73819750, 73819750)
    + Prod(2 * f[5], g[3], 73819750, 36909875)
    + Prod(f[6], g[2], 73819750, 73819750) + Prod(2 * f[7], g[1], 73819750, 36909875)
    + Prod(f[8], g[0], 73819750, 73819750)
    + Prod(2 * f[9], 19 * g[9], 73819750, 701287625)
  }

  function Row9(f: Fe, g: Fe): (r: int64)
    requires Wide(f) && Wide(g)
    ensures Within(r as int, 420000000000000000)
    ensures r as int == f[0] as int * g[9] as int + f[1] as int * g[8] as int + f[2] as int * g[7] as int
        + f[3] as int * g[6] as int + f[4] as int * g[5] as int + f[5] as int * g[4] as int
        + f[6] as int * g[3] as int + f[7] as int * g[2] as int + f[8] as int * g[1] as int + f[9] as int * g[0] as int
  {
    Prod(f[0], g[9], 73819750, 36909875) + Prod(f[1], g[8], 36909875, 73819750) + Prod(f[2], g[7], 73819750, 36909875)
    + Prod(f[3], g[6], 36909875, 73819750) + Prod(f[4], g[5], 73819750, 36909875) + Prod(f[5], g[4], 36909875, 73819750)
    + Prod(f[6], g[3], 73819750, 36909875) + Prod(f[7], g[2], 36909875, 73819750) + Prod(f[8], g[1], 73819750, 36909875)
    + Prod(f[9], g[0], 36909875, 73819750)
  }

  /** The squares need about half the products; each row is the same sum. */
  function SquareRow0(f: Fe): (r: int64)
    requires Wide(f)
    ensures Within(r as int, 680000000000000000)
    ensures r as int == f[0] as int * f[0] as int + f[1] as int * (38 * f[9] as int)
        + f[2] as int * (19 * f[8] as int) + f[3] as int * (38 * f[7] as int) + f[4] as int * (19 * f[6] as int)
        + f[5] as int * (38 * f[5] as int) + f[6] as int * (19 * f[4] as int) + f[7] as int * (38 * f[3] as int)
        + f[8] as int * (19 * f[2] as int) + f[9] as int * (38 * f[1] as int)
  {
    Prod(f[0], f[0], 73819750, 73819750) + Prod(2 * f[1], 38 * f[9], 73819750, 1402575250)
        + Prod(2 * f[2], 19 * f[8], 147639500, 1402575250)
    + Prod(2 * f[3], 38 * f[7], 73819750, 1402575250) + Prod(2 * f[4], 19 * f[6], 147639500, 1402575250)
    + Prod(f[5], 38 * f[5], 36909875, 1402575250)
  }

  function SquareRow1(f: Fe): (r: int64)
    requires Wide(f)
    ensures Within(r as int, 420000000000000000)
    ensures r as int == f[0] as int * f[1] as int + f[1] as int * f[0] as int + f[2] as int * (19 * f[9] as int)
        + f[3] as int * (19 * f[8] as int) + f[4] as int * (19 * f[7] as int) + f[5] as int * (19 * f[6] as int)
        + f[6] as int * (19 * f[5] as int) + f[7] as int * (19 * f[4] as int) + f[8] as int * (19 * f[3] as int)
        + f[9] as int * (19 * f[2] as int)
  {
    Prod(2 * f[0], f[1], 147639500, 36909875) + Prod(f[2], 38 * f[9], 73819750, 1402575250)
        + Prod(2 * f[3], 19 * f[8], 73819750, 1402575250)
    + Prod(f[4], 38 * f[7], 73819750, 1402575250) + Prod(2 * f[5], 19 * f[6], 73819750, 1402575250)
  }

  function SquareRow2(f: Fe): (r: int64)
    requires Wide(f)
    ensures Within(r as int, 680000000000000000)
    ensures r as int == f[0] as int * f[2] as int + f[1] as int * (2 * f[1] as int) + f[2] as int * f[0] as int
        + f[3] as int * (38 * f[9] as int) + f[4] as int * (19 * f[8] as int) + f[5] as int * (38 * f[7] as int)
        + f[6] as int * (19 * f[6] as int) + f[7] as int * (38 * f[5] as int) + f[8] as int * (19 * f[4] as int)
        + f[9] as int * (38 * f[3] as int)
  {
    Prod(2 * f[0], f[2], 147639500, 73819750) + Prod(2 * f[1], f[1], 73819750, 36909875)
        + Prod(2 * f[3], 38 * f[9], 73819750, 1402575250)
    + Prod(2 * f[4], 19 * f[8], 147639500, 1402575250) + Prod(2 * f[5], 38 * f[7], 73819750, 1402575250)
    + Prod(f[6], 19 * f[6], 73819750, 1402575250)
  }

  function SquareRow3(f: Fe): (r: int64)
    requires Wide(f)
    ensures Within(r as int, 420000000000000000)
    ensures r as int == f[0] as int * f[3] as int + f[1] as int * f[2] as int + f[2] as int * f[1] as int
        + f[3] as int * f[0] as int + f[4] as int * (19 * f[9] as int) + f[5] as int * (19 * f[8] as int)
        + f[6] as int * (19 * f[7] as int) + f[7] as int * (19 * f[6] as int) + f[8] as int * (19 * f[5] as int)
        + f[9] as int * (19 * f[4] as int)
  {
    Prod(2 * f[0], f[3], 147639500, 36909875) + Prod(2 * f[1], f[2], 73819750, 73819750)
        + Prod(f[4], 38 * f[9], 73819750, 1402575250)
    + Prod(2 * f[5], 19 * f[8], 73819750, 1402575250) + Prod(f[6], 38 * f[7], 73819750, 1402575250)
  }

  function SquareRow4(f: Fe): (r: int64)
    requires Wide(f)
    ensures Within(r as int, 680000000000000000)
    ensures r as int == f[0] as int * f[4] as int + f[1] as int * (2 * f[3] as int) + f[2] as int * f[2] as int
        + f[3] as int * (2 * f[1] as int) + f[4] as int * f[0] as int + f[5] as int * (38 * f[9] as int)
        + f[6] as int * (19 * f[8] as int) + f[7] as int * (38 * f[7] as int) + f[8] as int * (19 * f[6] as int)
        + f[9] as int * (38 * f[5] as int)
  {
    Prod(2 * f[0], f[4], 147639500, 73819750) + Prod(2 * f[1], 2 * f[3], 73819750, 73819750)
        + Prod(f[2], f[2], 73819750, 73819750)
    + Prod(2 * f[5], 38 * f[9], 73819750, 1402575250) + Prod(2 * f[6], 19 * f[8], 147639500, 1402575250)
    + Prod(f[7], 38 * f[7], 36909875, 1402575250)
  }

  function SquareRow5(f: Fe): (r: int64)
    requires Wide(f)
    ensures Within(r as int, 420000000000000000)
    ensures r as int == f[0] as int * f[5] as int + f[1] as int * f[4] as int + f[2] as int * f[3] as int
        + f[3] as int * f[2] as int + f[4] as int * f[1] as int + f[5] as int * f[0] as int
        + f[6] as int * (19 * f[9] as int) + f[7] as int * (19 * f[8] as int) + f[8] as int * (19 * f[7] as int)
        + f[9] as int * (19 * f[6] as int)
  {
    Prod(2 * f[0], f[5], 147639500, 36909875) + Prod(2 * f[1], f[4], 73819750, 73819750)
        + Prod(2 * f[2], f[3], 147639500, 36909875)
    + Prod(f[6], 38 * f[9], 73819750, 1402575250) + Prod(2 * f[7], 19 * f[8], 73819750, 1402575250)
  }

  function SquareRow6(f: Fe): (r: int64)
    requires Wide(f)
    ensures Within(r as int, 680000000000000000)
    ensures r as int == f[0] as int * f[6] as int + f[1] as int * (2 * f[5] as int) + f[2] as int * f[4] as int
        + f[3] as int * (2 * f[3] as int) + f[4] as int * f[2] as int + f[5] as int * (2 * f[1] as int)
        + f[6] as int * f[0] as int + f[7] as int * (38 * f[9] as int) + f[8] as int * (19 * f[8] as int)
        + f[9] as int * (38 * f[7] as int)
  {
    Prod(2 * f[0], f[6], 147639500, 73819750) + Prod(2 * f[1], 2 * f[5], 73819750, 73819750)
        + Prod(2 * f[2], f[4], 147639500, 73819750)
    + Prod(2 * f[3], f[3], 73819750, 36909875) + Prod(2 * f[7], 38 * f[9], 73819750, 1402575250)
    + Prod(f[8], 19 * f[8], 73819750, 1402575250)
  }

  function SquareRow7(f: Fe): (r: int64)
    requires Wide(f)
    ensures Within(r as int, 420000000000000000)
    ensures r as int == f[0] as int * f[7] as int + f[1] as int * f[6] as int + f[2] as int * f[5] as int
        + f[3] as int * f[4] as int + f[4] as int * f[3] as int + f[5] as int * f[2] as int
        + f[6] as int * f[1] as int + f[7] as int * f[0] as int + f[8] as int * (19 * f[9] as int)
        + f[9] as int * (19 * f[8] as int)
  {
    Prod(2 * f[0], f[7], 147639500, 36909875) + Prod(2 * f[1], f[6], 73819750, 73819750)
        + Prod(2 * f[2], f[5], 147639500, 36909875)
    + Prod(2 * f[3], f[4], 73819750, 73819750) + Prod(f[8], 38 * f[9], 73819750, 1402575250)
  }

  function SquareRow8(f: Fe): (r: int64)
    requires Wide(f)
    ensures Within(r as int, 680000000000000000)
    ensures r as int == f[0] as int * f[8] as int + f[1] as int * (2 * f[7] as int) + f[2] as int * f[6] as int
        + f[3] as int * (2 * f[5] as int) + f[4] as int * f[4] as int + f[5] as int * (2 * f[3] as int)
        + f[6] as int * f[2] as int + f[7] as int * (2 * f[1] as int) + f[8] as int * f[0] as int
        + f[9] as int * (38 * f[9] as int)
  {
    Prod(2 * f[0], f[8], 147639500, 73819750) + Prod(2 * f[1], 2 * f[7], 73819750, 73819750)
        + Prod(2 * f[2], f[6], 147639500, 73819750)
    + Prod(2 * f[3], 2 * f[5], 73819750, 73819750) + Prod(f[4], f[4], 73819750, 73819750)
    + Prod(f[9], 38 * f[9], 36909875, 1402575250)
  }

  function SquareRow9(f: Fe): (r: int64)
    requires Wide(f)
    ensures Within(r as int, 420000000000000000)
    ensures r as int == f[0] as int * f[9] as int + f[1] as int * f[8] as int + f[2] as int * f[7] as int
        + f[3] as int * f[6] as int + f[4] as int * f[5] as int + f[5] as int * f[4] as int
        + f[6] as int * f[3] as int + f[7] as int * f[2] as int + f[8] as int * f[1] as int + f[9] as int * f[0] as int
  {
    Prod(2 * f[0], f[9], 147639500, 36909875) + Prod(2 * f[1], f[8], 73819750, 73819750)
        + Prod(2 * f[2], f[7], 147639500, 36909875)
    + Prod(2 * f[3], f[6], 73819750, 73819750) + Prod(2 * f[4], f[5], 147639500, 36909875)
  }

  // Carrying

  /** Ten 64-bit sums. */
  type Sums = s: seq<int64> | |s| == 10 witness [0, 0, 0, 0, 0, 0, 0, 0, 0, 0]

  function SumLimbs(s: Sums): Limbs {
    Limbs(s[0] as int, s[1] as int, s[2] as int, s[3] as int, s[4] as int, s[5] as int, s[6] as int, s[7] as int,
          s[8] as int, s[9] as int)
  }

  predicate SumsOk(s: Sums) {
    && Within(s[0] as int, 680000000000000000) && Within(s[2] as int, 680000000000000000)
    && Within(s[4] as int, 680000000000000000) && Within(s[6] as int, 680000000000000000)
    && Within(s[8] as int, 680000000000000000)
    && Within(s[1] as int, 420000000000000000) && Within(s[3] as int, 420000000000000000)
    && Within(s[5] as int, 420000000000000000) && Within(s[7] as int, 420000000000000000)
    && Within(s[9] as int, 420000000000000000)
  }

  /** (h + 2^25) >> 26 and (h + 2^24) >> 25: the carry that leaves a centred remainder. */
  function Carry26(h: int64): (c: int64)
    requires Within(h as int, 0x4000_0000_0000_0000)
    ensures -0x200_0000 <= h as int - 0x400_0000 * c as int < 0x200_0000
  {
    (h + 0x200_0000) / 0x400_0000
  }

  function Carry25(h: int64): (c: int64)
    requires Within(h as int, 0x4000_0000_0000_0000)
    ensures -0x100_0000 <= h as int - 0x200_0000 * c as int < 0x100_0000
  {
    (h + 0x100_0000) / 0x200_0000
  }

  /** After carries 0, 4, 1, 5, 2 and 6. */
  predicate FirstCarried(s: Sums) {
    && Within(s[0] as int, 33554432) && Within(s[1] as int, 16777216) && Within(s[2] as int, 33554432)
    && Within(s[3] as int, 420000020000000000) && Within(s[4] as int, 33554432)
    && Within(s[5] as int, 16777216) && Within(s[6] as int, 33554432) && Within(s[7] as int, 420000020000000000)
    && Within(s[8] as int, 680000000000000000) && Within(s[9] as int, 420000000000000000)
  }

  /** After carries 3, 7, 4 and 8. */
  predicate ThenCarried(s: Sums) {
    && Within(s[0] as int, 33554432) && Within(s[1] as int, 16777216) && Within(s[2] as int, 33554432)
    && Within(s[3] as int, 16777216) && Within(s[4] as int, 33554432)
    && Within(s[5] as int, 16777516) && Within(s[6] as int, 33554432) && Within(s[7] as int, 16777216)
    && Within(s[8] as int, 33554432) && Within(s[9] as int, 420000020000000000)
  }

  method CarryFirst(h: Sums) returns (r: Sums)
    requires SumsOk(h)
    ensures FirstCarried(r) && Value(SumLimbs(r)) == Value(SumLimbs(h))
  {
    var h0, h1, h2, h3, h4, h5, h6, h7 := h[0], h[1], h[2], h[3], h[4], h[5], h[6], h[7];
    var c := Carry26(h0);
    h0, h1 := h0 - c * 0x400_0000, h1 + c;
    c := Carry26(h4);
    h4, h5 := h4 - c * 0x400_0000, h5 + c;
    c := Carry25(h1);
    h1, h2 := h1 - c * 0x200_0000, h2 + c;
    c := Carry25(h5);
    h5, h6 := h5 - c * 0x200_0000, h6 + c;
    c := Carry26(h2);
    h2, h3 := h2 - c * 0x400_0000, h3 + c;
    c := Carry26(h6);
    h6, h7 := h6 - c * 0x400_0000, h7 + c;
    r := [h0, h1, h2, h3, h4, h5, h6, h7, h[8], h[9]];
  }

  method CarryThen(h: Sums) returns (r: Sums)
    requires FirstCarried(h)
    ensures ThenCarried(r) && Value(SumLimbs(r)) == Value(SumLimbs(h))
  {
    var h3, h4, h5, h7, h8, h9 := h[3], h[4], h[5], h[7], h[8], h[9];
    var c := Carry25(h3);
    h3, h4 := h3 - c * 0x200_0000, h4 + c;
    c := Carry25(h7);
    h7, h8 := h7 - c * 0x200_0000, h8 + c;
    c := Carry26(h4);
    h4, h5 := h4 - c * 0x400_0000, h5 + c;
    c := Carry26(h8);
    h8, h9 := h8 - c * 0x400_0000, h9 + c;
    r := [h[0], h[1], h[2], h3, h4, h5, h[6], h7, h8, h9];
  }

  method CarryLast(h: Sums) returns (r: Fe, ghost wrapped: int)
    requires ThenCarried(h)
    ensures Tight(r) && Value(SumLimbs(h)) == Value(ToLimbs(r)) + P * wrapped
  {
    var h0, h1, h9 := h[0], h[1], h[9];
    var c := Carry25(h9);
    h9, h0 := h9 - c * 0x200_0000, h0 + c * 19;
    wrapped := c as int;
    c := Carry26(h0);
    h0, h1 := h0 - c * 0x400_0000, h1 + c;
    r := [h0 as int32, h1 as int32, h[2] as int32, h[3] as int32, h[4] as int32, h[5] as int32, h[6] as int32,
          h[7] as int32, h[8] as int32, h9 as int32];
  }

  /** The twelve carries of feMul and feSquare; the ninth comes back times 19. */
  method CarrySerial(h: Sums) returns (r: Fe)
    requires SumsOk(h)
    ensures Tight(r) && Field(r) == Element(SumLimbs(h))
  {
    var a := CarryFirst(h);
    var b := CarryThen(a);
    ghost var wrapped;
    r, wrapped := CarryLast(b);
    SameElement(Value(SumLimbs(h)), Value(ToLimbs(r)), wrapped);
  }

  // The other order, of feMul121666 and feFromBytes: odd limbs, then even ones

  predicate Modest(s: Sums) { forall i :: 0 <= i < 10 ==> Within(s[i] as int, 9000000000000) }

  /** The even limbs still to be carried. */
  predicate OddCarried(s: Sums) {
    && Within(s[0] as int, 9000006000000) && Within(s[2] as int, 9000006000000) && Within(s[4] as int, 9000006000000)
    && Within(s[6] as int, 9000006000000) && Within(s[8] as int, 9000006000000)
    && Within(s[1] as int, 16777216) && Within(s[3] as int, 16777216) && Within(s[5] as int, 16777216)
    && Within(s[7] as int, 16777216) && Within(s[9] as int, 16777216)
  }

  method CarryOdd(h: Sums) returns (r: Sums, ghost wrapped: int)
    requires Modest(h)
    ensures OddCarried(r) && Value(SumLimbs(h)) == Value(SumLimbs(r)) + P * wrapped
  {
    var h0, h1, h2, h3, h4, h5, h6, h7, h8, h9 := h[0], h[1], h[2], h[3], h[4], h[5], h[6], h[7], h[8], h[9];
    var c := Carry25(h9);
    h9, h0 := h9 - c * 0x200_0000, h0 + c * 19;
    wrapped := c as int;
    c := Carry25(h1);
    h1, h2 := h1 - c * 0x200_0000, h2 + c;
    c := Carry25(h3);
    h3, h4 := h3 - c * 0x200_0000, h4 + c;
    c := Carry25(h5);
    h5, h6 := h5 - c * 0x200_0000, h6 + c;
    c := Carry25(h7);
    h7, h8 := h7 - c * 0x200_0000, h8 + c;
    r := [h0, h1, h2, h3, h4, h5, h6, h7, h8, h9];
  }

  method CarryEven(h: Sums) returns (r: Fe)
    requires OddCarried(h)
    ensures Tight(r) && Value(ToLimbs(r)) == Value(SumLimbs(h))
  {
    var h0, h1, h2, h3, h4, h5, h6, h7, h8, h9 := h[0], h[1], h[2], h[3], h[4], h[5], h[6], h[7], h[8], h[9];
    var c := Carry26(h0);
    h0, h1 := h0 - c * 0x400_0000, h1 + c;
    c := Carry26(h2);
    h2, h3 := h2 - c * 0x400_0000, h3 + c;
    c := Carry26(h4);
    h4, h5 := h4 - c * 0x400_0000, h5 + c;
    c := Carry26(h6);
    h6, h7 := h6 - c * 0x400_0000, h7 + c;
    c := Carry26(h8);
    h8, h9 := h8 - c * 0x400_0000, h9 + c;
    r := [h0 as int32, h1 as int32, h2 as int32, h3 as int32, h4 as int32, h5 as int32, h6 as int32, h7 as int32,
          h8 as int32, h9 as int32];
  }

  method CarryParallel(h: Sums) returns (r: Fe)
    requires Modest(h)
    ensures Tight(r) && Field(r) == Element(SumLimbs(h))
  {
    var s, wrapped := CarryOdd(h);
    r := CarryEven(s);
    SameElement(Value(SumLimbs(h)), Value(SumLimbs(s)), wrapped);
  }

  // The operations on arrays; the result may overlap an operand

  method Store(h: array<int32>, r: Fe)
    requires h.Length == 10
    modifies h
    ensures h[..] == r
  {
    for i := 0 to 10
      invariant h[..i] == r[..i]
    {
      h[i] := r[i];
    }
    assert h[..] == h[..10] && r == r[..10];
  }

  method FeMul(h: array<int32>, f: array<int32>, g: array<int32>)
    requires h.Length == f.Length == g.Length == 10 && Wide(f[..]) && Wide(g[..])
    modifies h
    ensures Tight(h[..]) && Field(h[..]) == old(Field(f[..])) * old(Field(g[..])) % P
  {
    var x: Fe, y: Fe := f[..], g[..];
    var s: Sums := [Row0(x, y), Row1(x, y), Row2(x, y), Row3(x, y), Row4(x, y), Row5(x, y), Row6(x, y), Row7(x, y),
                    Row8(x, y), Row9(x, y)];
    ProductRows(ToLimbs(x), ToLimbs(y));
    assert SumLimbs(s) == Product(ToLimbs(x), ToLimbs(y));
    ProductElement(ToLimbs(x), ToLimbs(y));
    var r := CarrySerial(s);
    Store(h, r);
  }

  method FeSquare(h: array<int32>, f: array<int32>)
    requires h.Length == f.Length == 10 && Wide(f[..])
    modifies h
    ensures Tight(h[..]) && Field(h[..]) == old(Field(f[..])) * old(Field(f[..])) % P
  {
    var x: Fe := f[..];
    var s: Sums := [SquareRow0(x), SquareRow1(x), SquareRow2(x), SquareRow3(x), SquareRow4(x), SquareRow5(x),
                    SquareRow6(x), SquareRow7(x), SquareRow8(x), SquareRow9(x)];
    ProductRows(ToLimbs(x), ToLimbs(x));
    assert SumLimbs(s) == Product(ToLimbs(x), ToLimbs(x));
    ProductElement(ToLimbs(x), ToLimbs(x));
    var r := CarrySerial(s);
    Store(h, r);
  }

  function Times121666(x: int32): (r: int64)
    requires Within(x as int, 73819750)
    ensures r as int == 121666 * x as int && Within(r as int, 9000000000000)
  {
    x as int64 * 121666
  }

  method FeMul121666(h: array<int32>, f: array<int32>)
    requires h.Length == f.Length == 10 && Wide(f[..])
    modifies h
    ensures Tight(h[..]) && Field(h[..]) == 121666 * old(Field(f[..])) % P
  {
    var x: Fe := f[..];
    var s: Sums := [Times121666(x[0]), Times121666(x[1]), Times121666(x[2]), Times121666(x[3]), Times121666(x[4]),
                    Times121666(x[5]), Times121666(x[6]), Times121666(x[7]), Times121666(x[8]), Times121666(x[9])];
    assert SumLimbs(s) == Scale(121666, ToLimbs(x));
    ValueScale(121666, ToLimbs(x));
    MulMod(121666, Value(ToLimbs(x)), P);
    var r := CarryParallel(s);
    Store(h, r);
  }
}
