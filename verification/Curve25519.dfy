/** The Montgomery ladder of X25519 (scalarMult of golang-x-crypto/curve25519/curve25519.go; section 5 of RFC
    7748): the limb arithmetic with its delayed swaps computes the ladder over field values, and every call
    along the way meets the bounds it asks for. */
module Curve25519 {
  import opened Bytes
  import opened Bitwise
  import opened ModArith
  import opened Fermat
  import opened FieldLimbs
  import opened FieldMul
  import opened FieldBytes
  import opened FieldOps

  /** Two points in projective form: x2 : z2 and x3 : z3. */
  datatype Pair = Pair(x2: nat, z2: nat, x3: nat, z3: nat)

  /** One doubling and one differential addition, in the formulas of RFC 7748. */
  function Step(x1: nat, s: Pair): Pair {
    var a, b := AddP(s.x2, s.z2), SubP(s.x2, s.z2);
    var aa, bb := MulP(a, a), MulP(b, b);
    var e := SubP(aa, bb);
    var da, cb := MulP(SubP(s.x3, s.z3), a), MulP(AddP(s.x3, s.z3), b);
    Pair(MulP(aa, bb), MulP(e, AddP(aa, MulP(121665, e))),
         MulP(AddP(da, cb), AddP(da, cb)), MulP(x1, MulP(SubP(da, cb), SubP(da, cb))))
  }

  function SwapIf(b: nat, s: Pair): Pair {
    if b == 1 then Pair(s.x3, s.z3, s.x2, s.z2) else s
  }

  /** One bit of the scalar: the bit says which of the two points is doubled. */
  function LadderBit(x1: nat, b: nat, s: Pair): Pair { SwapIf(b, Step(x1, SwapIf(b, s))) }

  function Bit(k: nat, pos: nat): nat { k / Power2(pos) % 2 }

  function Power2(n: nat): (r: nat)
    ensures r >= 1 && r == Pow2(n)
  {
    Pow2Positive(n);
    Pow2(n)
  }

  /** The ladder after the bits from 254 down to `pos`. */
  function Climb(k: nat, x1: nat, pos: nat): Pair
    requires pos <= 255
    decreases 255 - pos
  {
    if pos == 255 then Pair(1, 0, x1, 1) else LadderBit(x1, Bit(k, pos), Climb(k, x1, pos + 1))
  }

  /** X25519 on a scalar and a coordinate. */
  function X25519(k: nat, u: nat): nat {
    var s := Climb(k, u, 0);
    MulP(s.x2, Exp(s.z2, InverseExponent(), P))
  }

  /** The result is the affine coordinate x2 / z2, and zero where z2 is: the power p - 2 is the inverse, p being
      a prime. */
  lemma ResultIsQuotient(k: nat, u: nat)
    requires Prime(P)
    ensures var s := Climb(k, u, 0);
      if s.z2 % P == 0 then X25519(k, u) == 0 else MulP(X25519(k, u), s.z2) == s.x2 % P
  {
    var s := Climb(k, u, 0);
    QuotientOf(P, InverseExponent(), s.x2, s.z2);
  }

  lemma QuotientOf(p: nat, e: nat, x: nat, z: nat)
    requires Prime(p) && p > 2 && e == p - 2
    ensures var r := x * Exp(z, e, p) % p; if z % p == 0 then r == 0 else r * z % p == x % p
  {
    InverseByPower(p, z);
    if z % p == 0 {
      assert x * 0 == 0;
    } else {
      DivideByPower(p, x, z);
    }
  }

  // The formula the source uses for z2

  lemma SourceStep(aa: nat, bb: nat, e: nat)
    requires e == SubP(aa, bb)
    ensures AddP(bb, MulP(121666, e)) == AddP(aa, MulP(121665, e))
  {
    var q, q1, q2 := (aa - bb) / P, 121666 * e / P, 121665 * e / P;
    assert aa - bb == e + P * q;
    assert MulP(121666, e) == 121666 * e - P * q1 && MulP(121665, e) == 121665 * e - P * q2;
    SameElement(bb + MulP(121666, e), aa + MulP(121665, e), q2 - q1 - q);
  }

  // The scalar

  lemma {:induction false} BitOfScalar(e: seq<byte>, pos: nat)
    requires pos < 8 * |e|
    ensures Bit(LittleEndian(e), pos) == e[pos / 8] / Power2(pos % 8) % 2
    decreases |e|
  {
    if pos < 8 {
      LowBit(e[0], LittleEndian(e[1..]), pos);
    } else {
      BitOfScalar(e[1..], pos - 8);
      HighBit(e[0], LittleEndian(e[1..]), pos);
      assert e[1..][(pos - 8) / 8] == e[pos / 8];
    }
  }

  lemma SmallPower2(n: nat)
    ensures Pow2(0) == 1 && Pow2(1) == 2 && Pow2(2) == 4 && Pow2(3) == 8
    ensures Pow2(4) == 16 && Pow2(5) == 32 && Pow2(6) == 64 && Pow2(7) == 128 && Pow2(8) == 256
  {
  }

  lemma LowBitOf(low: nat, high: nat, w: nat, half: nat)
    requires w > 0 && w * (2 * half) == 256
    ensures (low + 256 * high) / w % 2 == low / w % 2
  {
    var q, r := low / w, low % w;
    assert 256 * high == w * (2 * (half * high)) by {
      Associate(w, 2 * half, high);
      Associate(2, half, high);
    }
    var n := q + 2 * (half * high);
    assert low + 256 * high == n * w + r by { Collect(q, 2 * (half * high), w, 0, 0, 0); }
    ModArith.Quotient(n, r, w);
    ModUnique(q, half * high, 2);
  }

  lemma LowBit(low: byte, high: nat, pos: nat)
    requires pos < 8
    ensures (low + 256 * high) / Power2(pos) % 2 == low / Power2(pos) % 2
  {
    SmallPower2(pos);
    var half := [128, 64, 32, 16, 8, 4, 2, 1][pos];
    LowBitOf(low, high, Power2(pos), half);
  }

  lemma HighBit(low: byte, high: nat, pos: nat)
    requires pos >= 8
    ensures (low + 256 * high) / Power2(pos) == high / Power2(pos - 8)
  {
    SmallPower2(0);
    Pow2Sum(8, pos - 8);
    DivTwice(low + 256 * high, 256, Power2(pos - 8));
  }

  /** The clamped scalar: a multiple of 8 with bit 254 set and bit 255 clear. */
  function Clamped(s: seq<byte>): (e: seq<byte>)
    requires |s| == 32
    ensures |e| == 32
  {
    s[0 := s[0] - s[0] % 8][31 := 64 + s[31] % 64]
  }

  lemma {:induction false} AndOnes(x: nat, k: nat)
    ensures And(x, Ones(k)) == x % Power2(k)
    decreases k
  {
    if k == 0 {
      AndNothing(x);
    } else {
      AndOnes(x / 2, k - 1);
      AndStep(x, Ones(k));
      HalfMod(x, Power2(k - 1));
    }
  }

  lemma HalfMod(x: nat, w: nat)
    requires w > 0
    ensures x % (2 * w) == 2 * (x / 2 % w) + x % 2
  {
    var a := x / 2;
    var q, r := a / w, a % w;
    assert a == q * w + r && x == 2 * a + x % 2;
    assert q * (2 * w) == 2 * (q * w);
    ModArith.Quotient(q, 2 * r + x % 2, 2 * w);
  }

  lemma AndStep(x: int, y: int)
    ensures And(x, y) == 2 * And(x / 2, y / 2) + x % 2 * (y % 2)
  {
  }

  lemma {:induction false} AndNothing(x: nat)
    ensures And(x, 0) == 0
    decreases x
  {
    if x > 0 { AndNothing(x / 2); }
  }

  lemma AndEven(x: nat, z: nat)
    ensures And(x, 2 * z) == 2 * And(x / 2, z)
  {
    AndStep(x, 2 * z);
  }

  lemma DropThreeBits(x: nat)
    ensures x - x % 8 == 8 * (x / 2 / 2 / 2)
  {
  }

  lemma LowFive(c: nat)
    requires c < 32
    ensures And(c, 31) == c
  {
    SmallPower2(0);
    OnesFive();
    AndAll(c, 5, 31);
  }

  lemma AndAll(c: nat, k: nat, ones: nat)
    requires ones == Ones(k) && c < Power2(k)
    ensures And(c, ones) == c
  {
    var w := Power2(k);
    AndOnes(c, k);
    ModArith.Quotient(0, c, w);
  }

  lemma OnesFive()
    ensures Ones(5) == 31
  {
    assert Ones(3) == 7;
  }

  lemma LowMask(x: byte)
    ensures And(x, 248) == x - x % 8
  {
    AndEven(x, 124);
    AndEven(x / 2, 62);
    AndEven(x / 2 / 2, 31);
    LowFive(x / 2 / 2 / 2);
    DropThreeBits(x);
  }

  lemma OrBits()
    ensures Or(0, 1) == 1 && Or(1, 1) == 1
  {
    OrZero(1);
    OrStep(1, 1);
    OrZero(0);
  }

  lemma SetBit6(low: nat, high: nat)
    requires low < 64 && high <= 1
    ensures Or(low + 64 * high, 64) == 64 + low
  {
    SmallPower2(0);
    OrJoin(low, high, 1, 6);
    OrBits();
  }

  lemma ClearBit7(x: byte)
    ensures And(x, 127) == x as int % 128
  {
    SmallPower2(0);
    AndOnes(x, 7);
    assert Ones(7) == 127;
  }

  lemma TopBits(y: nat)
    requires y < 128
    ensures Or(y, 64) == 64 + y % 64
  {
    SetBit6(y % 64, y / 64);
  }

  lemma ModTwice(x: nat)
    ensures x % 128 % 64 == x % 64
  {
  }

  /** e[31] &= 127; e[31] |= 64 */
  method MaskTop(x: byte) returns (r: byte)
    ensures r == 64 + x % 64
  {
    ClearBit7(x);
    var y: nat := And(x, 127);
    r := SetTop(y);
    ModTwice(x);
  }

  method SetTop(y: nat) returns (r: byte)
    requires y < 128
    ensures r == 64 + y % 64
  {
    TopBits(y);
    r := Or(y, 64);
  }

  /** e[0] &= 248 */
  method MaskLow(x: byte) returns (r: byte)
    ensures r == x - x % 8
  {
    LowMask(x);
    r := And(x, 248);
  }

  lemma SumBounds(s: seq<byte>)
    requires |s| == 16
    ensures 0 <= SumOf(s) - 0x1000000000000000000000000000000 * s[15] as int < 0x1000000000000000000000000000000
  {
  }

  lemma MultipleOf8(low: nat, high: nat)
    requires low % 8 == 0
    ensures (low + 256 * high) % 8 == 0
  {
  }

  /** Whatever the 32 bytes, the scalar used is a multiple of 8 between 2^254 and 2^255 = p + 19. */
  lemma ClampedScalar(s: seq<byte>)
    requires |s| == 32
    ensures var k := LittleEndian(Clamped(s)); k % 8 == 0 && P + 19 <= 2 * k && k < P + 19
  {
    var e := Clamped(s);
    var low, high := e[..16], e[16..];
    assert e == low + high && high[15] == e[31] == 64 + s[31] % 64;
    ThirtyTwoBytes(low, high);
    SumBounds(low);
    SumBounds(high);
    assert e[0] % 8 == 0;
    MultipleOf8(e[0], LittleEndian(e[1..]));
  }

  // The ladder on limbs

  lemma CloseHolds(s: Fe, v: nat)
    requires Tight(s) && Field(s) == v
    ensures Holds(s, v)
  {
  }

  lemma HoldsBelow(s: Fe, v: nat)
    requires Holds(s, v)
    ensures v < P
  {
    OpenHolds(s, v);
  }

  class Workspace {
    const x1: array<int32>
    const x2: array<int32>
    const z2: array<int32>
    const x3: array<int32>
    const z3: array<int32>
    const tmp0: array<int32>
    const tmp1: array<int32>

    ghost predicate Valid() {
      && x1.Length == x2.Length == z2.Length == x3.Length == z3.Length == tmp0.Length == tmp1.Length == 10
      && x1 != x2 && x1 != z2 && x1 != x3 && x1 != z3 && x1 != tmp0 && x1 != tmp1
      && x2 != z2 && x2 != x3 && x2 != z3 && x2 != tmp0 && x2 != tmp1
      && z2 != x3 && z2 != z3 && z2 != tmp0 && z2 != tmp1
      && x3 != z3 && x3 != tmp0 && x3 != tmp1
      && z3 != tmp0 && z3 != tmp1 && tmp0 != tmp1
    }

    /** The four coordinates stand for s. */
    ghost predicate At(s: Pair)
      requires Valid()
      reads x2, z2, x3, z3
    {
      Holds(x2[..], s.x2) && Holds(z2[..], s.z2) && Holds(x3[..], s.x3) && Holds(z3[..], s.z3)
    }

    /** Sums and differences of the coordinates. */
    method Begin(ghost s: Pair)
      requires Valid() && At(s)
      modifies x2, z2, tmp0, tmp1
      ensures Accepts(tmp0[..], SubP(s.x3, s.z3)) && Accepts(tmp1[..], SubP(s.x2, s.z2))
      ensures Accepts(x2[..], AddP(s.x2, s.z2)) && Accepts(z2[..], AddP(s.x3, s.z3))
    {
      FeSub(tmp0, x3, z3, s.x3, s.z3);
      FeSub(tmp1, x2, z2, s.x2, s.z2);
      FeAdd(x2, x2, z2, s.x2, s.z2);
      FeAdd(z2, x3, z3, s.x3, s.z3);
    }

    /** The two products and the two squares. */
    method Middle(ghost a: nat, ghost b: nat, ghost c: nat, ghost d: nat)
      requires Valid() && Accepts(x2[..], a) && Accepts(tmp1[..], b) && Accepts(z2[..], c) && Accepts(tmp0[..], d)
      modifies z2, x3, z3, tmp0, tmp1
      ensures Holds(tmp0[..], MulP(b, b)) && Holds(tmp1[..], MulP(a, a))
      ensures Accepts(x3[..], AddP(MulP(d, a), MulP(c, b))) && Accepts(z2[..], SubP(MulP(d, a), MulP(c, b)))
    {
      Mul(z3, tmp0, x2, d, a);
      Mul(z2, z2, tmp1, c, b);
      Square(tmp0, tmp1, b);
      Square(tmp1, x2, a);
      FeAdd(x3, z3, z2, MulP(d, a), MulP(c, b));
      FeSub(z2, z3, z2, MulP(d, a), MulP(c, b));
    }

    /** The new coordinates. */
    method End(ghost x: nat, ghost aa: nat, ghost bb: nat, ghost sum: nat, ghost diff: nat)
      requires Valid() && Holds(x1[..], x) && Holds(tmp0[..], bb) && Holds(tmp1[..], aa)
      requires Accepts(x3[..], sum) && Accepts(z2[..], diff)
      modifies x2, z2, x3, z3, tmp0, tmp1
      ensures var e := SubP(aa, bb);
        At(Pair(MulP(aa, bb), MulP(e, AddP(bb, MulP(121666, e))), MulP(sum, sum), MulP(x, MulP(diff, diff))))
    {
      ghost var e := SubP(aa, bb);
      Widen(tmp0[..], bb);
      Widen(tmp1[..], aa);
      Mul(x2, tmp1, tmp0, aa, bb);
      FeSub(tmp1, tmp1, tmp0, aa, bb);
      Square(z2, z2, diff);
      Mul121666(z3, tmp1, e);
      Square(x3, x3, sum);
      FeAdd(tmp0, tmp0, z3, bb, MulP(121666, e));
      Widen(x1[..], x);
      Widen(z2[..], MulP(diff, diff));
      Mul(z3, x1, z2, x, MulP(diff, diff));
      Mul(z2, tmp1, tmp0, e, AddP(bb, MulP(121666, e)));
    }

    /** One turn of scalarMult's loop after its swaps. */
    method LadderStep(ghost x: nat, ghost s: Pair)
      requires Valid() && Holds(x1[..], x) && At(s)
      modifies x2, z2, x3, z3, tmp0, tmp1
      ensures At(Step(x, s))
    {
      ghost var a, b, c, d := AddP(s.x2, s.z2), SubP(s.x2, s.z2), AddP(s.x3, s.z3), SubP(s.x3, s.z3);
      Begin(s);
      Middle(a, b, c, d);
      End(x, MulP(a, a), MulP(b, b), AddP(MulP(d, a), MulP(c, b)), SubP(MulP(d, a), MulP(c, b)));
      SourceStep(MulP(a, a), MulP(b, b), SubP(MulP(a, a), MulP(b, b)));
    }

    method Swap(b: int32, ghost s: Pair)
      requires Valid() && At(s) && (b == 0 || b == 1)
      modifies x2, z2, x3, z3
      ensures At(SwapIf(b as int, s))
    {
      FeCSwap(x2, x3, b);
      FeCSwap(z2, z3, b);
    }

    constructor (base: seq<byte>)
      requires |base| == 32
      ensures Valid() && fresh(x1) && fresh(x2) && fresh(z2) && fresh(x3) && fresh(z3) && fresh(tmp0) && fresh(tmp1)
      ensures Holds(x1[..], LittleEndian(base) % P) && At(Pair(1, 0, LittleEndian(base) % P, 1))
    {
      x1, x2, z2 := new int32[10], new int32[10], new int32[10];
      x3, z3, tmp0, tmp1 := new int32[10], new int32[10], new int32[10], new int32[10];
      new;
      FeZero(z2);
      FeFromBytes(x1, base);
      CloseHolds(x1[..], LittleEndian(base) % P);
      FeOne(x2);
      FeCopy(x3, x1);
      FeOne(z3);
    }
  }

  lemma XorBits(a: nat, b: nat)
    requires a <= 1 && b <= 1
    ensures Xor(a, b) == if a == b then 0 else 1
  {
    XorStep(a, b);
  }

  /** Swapping by two bits in turn is swapping by their exclusive or. */
  lemma SwapTwice(a: nat, b: nat, s: Pair)
    requires a <= 1 && b <= 1
    ensures SwapIf(b, SwapIf(a, s)) == SwapIf(if a == b then 0 else 1, s)
  {
  }

  /** One turn of the loop: the swap by the exclusive or of this bit and the last, then the step. */
  method Turn(w: Workspace, swap: int32, b: int32, ghost x: nat, ghost s: Pair) returns (ghost t: Pair)
    requires w.Valid() && Holds(w.x1[..], x) && w.At(s) && (swap == 0 || swap == 1) && (b == 0 || b == 1)
    modifies w.x2, w.z2, w.x3, w.z3, w.tmp0, w.tmp1
    ensures w.At(t) && t == Step(x, SwapIf(b as int, SwapIf(swap as int, s)))
  {
    XorBits(swap as int, b as int);
    SwapTwice(swap as int, b as int, s);
    var both := Xor32(swap, b);
    w.Swap(both, s);
    w.LadderStep(x, SwapIf(both as int, s));
    t := Step(x, SwapIf(both as int, s));
  }

  /** The climb: 255 steps with the swap of each put off to the next. */
  method ClimbLimbs(w: Workspace, e: seq<byte>, ghost x: nat) returns (ghost s: Pair)
    requires w.Valid() && |e| == 32 && Holds(w.x1[..], x) && w.At(Pair(1, 0, x, 1))
    modifies w.x2, w.z2, w.x3, w.z3, w.tmp0, w.tmp1
    ensures s == Climb(LittleEndian(e), x, 0) && w.At(s)
  {
    s := Pair(1, 0, x, 1);
    ghost var k := LittleEndian(e);
    var swap: int32 := 0;
    var pos := 255;
    while pos > 0
      invariant 0 <= pos <= 255 && (swap == 0 || swap == 1)
      invariant Holds(w.x1[..], x) && w.At(s)
      invariant SwapIf(swap as int, s) == Climb(k, x, pos)
    {
      pos := pos - 1;
      BitOfScalar(e, pos);
      var b := (e[pos / 8] / Power2(pos % 8) % 2) as int32;
      s := Turn(w, swap, b, x, s);
      swap := b;
    }
    w.Swap(swap, s);
    s := SwapIf(swap as int, s);
  }

  method WriteField(out: array<byte>, f: array<int32>, ghost v: nat)
    requires out.Length == 32 && f.Length == 10 && Holds(f[..], v)
    modifies out, f
    ensures LittleEndian(out[..]) == v
  {
    OpenHolds(f[..], v);
    FeToBytes(out, f);
  }

  /** Back to one coordinate: x2 / z2. */
  method Divide(x: array<int32>, z: array<int32>, ghost a: nat, ghost b: nat)
    requires x.Length == z.Length == 10 && x != z && Holds(x[..], a) && Holds(z[..], b)
    modifies x, z
    ensures Holds(x[..], MulP(a, Exp(b, InverseExponent(), P)))
  {
    HoldsBelow(z[..], b);
    FeInvert(z, z, b);
    Widen(x[..], a);
    Widen(z[..], Exp(b, InverseExponent(), P));
    Mul(x, x, z, a, Exp(b, InverseExponent(), P));
  }

  /** The scalar with its bits clamped in place. */
  method Clamp(scalar: seq<byte>) returns (e: seq<byte>)
    requires |scalar| == 32
    ensures e == Clamped(scalar)
  {
    var first := MaskLow(scalar[0]);
    var last := MaskTop(scalar[31]);
    e := scalar[0 := first][31 := last];
  }

  /** The end of the computation: out is x2 / z2. */
  method Finish(out: array<byte>, w: Workspace, ghost s: Pair)
    requires out.Length == 32 && w.Valid() && w.At(s)
    modifies out, w.x2, w.z2
    ensures LittleEndian(out[..]) == MulP(s.x2, Exp(s.z2, InverseExponent(), P))
  {
    Divide(w.x2, w.z2, s.x2, s.z2);
    WriteField(out, w.x2, MulP(s.x2, Exp(s.z2, InverseExponent(), P)));
  }

  /** out is the little-endian X25519 of the clamped scalar and the base coordinate, which is the coordinate with
      bit 255 masked if that bit is clear. */
  method ScalarMult(out: array<byte>, scalar: seq<byte>, base: seq<byte>)
    requires out.Length == 32 && |scalar| == 32 && |base| == 32
    modifies out
    ensures LittleEndian(out[..]) == X25519(LittleEndian(Clamped(scalar)), LittleEndian(base) % P)
    ensures base[31] < 128 ==>
              LittleEndian(out[..]) == X25519(LittleEndian(Clamped(scalar)), LittleEndian(Masked(base)) % P)
  {
    MaskMatters(base);
    var e := Clamp(scalar);
    var w := new Workspace(base);
    ghost var s := ClimbLimbs(w, e, LittleEndian(base) % P);
    Finish(out, w, s);
  }

  // Bit 255 of the coordinate

  /** The coordinate as RFC 7748 takes it: bit 255 is masked. */
  function Masked(base: seq<byte>): (r: seq<byte>)
    requires |base| == 32
    ensures |r| == 32
  {
    base[31 := base[31] % 128]
  }

  lemma LastByte(s: seq<byte>, b: byte)
    requires |s| == 16
    ensures SumOf(s) - SumOf(s[15 := b]) == 0x1000000000000000000000000000000 * (s[15] as int - b as int)
  {
  }

  /** Masking takes off 2^255 if the bit is set. */
  lemma MaskedValue(base: seq<byte>)
    requires |base| == 32
    ensures LittleEndian(base) == LittleEndian(Masked(base)) + TOP * (base[31] / 128)
  {
    var low, high, b := base[..16], base[16..], base[31] % 128;
    assert base == low + high && Masked(base) == low + high[15 := b] && high[15] == base[31];
    ThirtyTwoBytes(low, high);
    ThirtyTwoBytes(low, high[15 := b]);
    LastByte(high, b);
    assert base[31] as int - b as int == 128 * (base[31] / 128);
  }

  /** 2^255 is 19, and not zero, modulo p. */
  lemma TopIs19(v: int)
    ensures (v + TOP) % P == (v + 19) % P && (v + 19) % P != v % P
  {
    ModUnique(v + 19, 1, P);
    if (v + 19) % P == v % P {
      Difference(v + 19, v, P);
    }
  }

  /** Not masking bit 255 makes no difference to the coordinate if and only if the bit is clear. */
  lemma MaskMatters(base: seq<byte>)
    requires |base| == 32
    ensures LittleEndian(base) % P == LittleEndian(Masked(base)) % P <==> base[31] < 128
  {
    MaskedValue(base);
    BitMatters(LittleEndian(base), LittleEndian(Masked(base)), base[31] / 128);
  }

  lemma BitMatters(v: int, m: int, bit: int)
    requires 0 <= bit <= 1 && v == m + TOP * bit
    ensures v % P == m % P <==> bit == 0
  {
    TopIs19(m);
  }

  /** A base of which the coordinate is 19 here and 0 in RFC 7748. */
  lemma UnmaskedBase(base: seq<byte>)
    requires base == seq(31, _ => 0) + [128]
    ensures LittleEndian(base) % P == 19 && LittleEndian(Masked(base)) % P == 0
  {
    var z := Masked(base);
    assert z[..16] == z[16..] && z == z[..16] + z[16..];
    assert forall i :: 0 <= i < 16 ==> z[..16][i] == 0;
    ThirtyTwoBytes(z[..16], z[16..]);
    assert SumOf(z[..16]) == 0;
    MaskedValue(base);
    TopIs19(0);
  }
}
