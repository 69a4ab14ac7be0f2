/** Field elements to and from 32 little-endian bytes (feFromBytes and feToBytes of
    golang-x-crypto/curve25519/curve25519.go). */
module FieldBytes {
  import opened Bytes
  import opened Bitwise
  import opened ModArith
  import opened FieldLimbs
  import opened FieldMul

  lemma SmallPowers()
    ensures Pow2(1) == 2 && Pow2(2) == 4 && Pow2(3) == 8 && Pow2(4) == 16 && Pow2(5) == 32 && Pow2(6) == 64
    ensures Pow2(8) == 256 && Pow2(16) == 0x1_0000 && Pow2(24) == 0x100_0000
  {
    assert Pow2(8) == 2 * Pow2(7) == 4 * Pow2(6);
    assert Pow2(12) == 2 * Pow2(11) == 4 * Pow2(10) == 8 * Pow2(9) == 16 * Pow2(8);
    assert Pow2(16) == 2 * Pow2(15) == 4 * Pow2(14) == 8 * Pow2(13) == 16 * Pow2(12);
    assert Pow2(20) == 2 * Pow2(19) == 4 * Pow2(18) == 8 * Pow2(17) == 16 * Pow2(16);
    assert Pow2(24) == 2 * Pow2(23) == 4 * Pow2(22) == 8 * Pow2(21) == 16 * Pow2(20);
  }

  // Reading

  /** Three and four bytes, combined with or. */
  function Load3(s: seq<byte>, i: nat): (r: int64)
    requires i + 3 <= |s|
    ensures 0 <= r as int < 0x100_0000 && r as int == s[i] + 0x100 * s[i + 1] as int + 0x1_0000 * s[i + 2] as int
  {
    SmallPowers();
    OrDisjoint(s[i], s[i + 1], 8);
    OrDisjoint(s[i] as int + 0x100 * s[i + 1] as int, s[i + 2], 16);
    Or(Or(s[i], 0x100 * s[i + 1] as int), 0x1_0000 * s[i + 2] as int) as int64
  }

  function Load4(s: seq<byte>, i: nat): (r: int64)
    requires i + 4 <= |s|
    ensures 0 <= r as int < 0x1_0000_0000
    ensures r as int == s[i] + 0x100 * s[i + 1] as int + 0x1_0000 * s[i + 2] as int + 0x100_0000 * s[i + 3] as int
  {
    SmallPowers();
    var low := Load3(s, i);
    OrDisjoint(low as int, s[i + 3], 24);
    Or(low as int, 0x100_0000 * s[i + 3] as int) as int64
  }

  lemma Bytes3(s: seq<byte>, i: nat)
    requires i + 3 <= |s|
    ensures LittleEndian(s[i..]) == s[i] + 0x100 * s[i + 1] as int + 0x1_0000 * s[i + 2] as int
        + 0x100_0000 * LittleEndian(s[i + 3..])
  {
    assert s[i..][1..] == s[i + 1..] && s[i + 1..][1..] == s[i + 2..] && s[i + 2..][1..] == s[i + 3..];
    assert LittleEndian(s[i..]) == s[i] + 256 * LittleEndian(s[i + 1..]);
    assert LittleEndian(s[i + 1..]) == s[i + 1] + 256 * LittleEndian(s[i + 2..]);
    assert LittleEndian(s[i + 2..]) == s[i + 2] + 256 * LittleEndian(s[i + 3..]);
  }

  lemma Bytes4(s: seq<byte>, i: nat)
    requires i + 4 <= |s|
    ensures LittleEndian(s[i..]) == s[i] + 0x100 * s[i + 1] as int + 0x1_0000 * s[i + 2] as int
        + 0x100_0000 * s[i + 3] as int
      + 0x1_0000_0000 * LittleEndian(s[i + 4..])
  {
    Bytes3(s, i);
    assert s[i + 3..][1..] == s[i + 4..];
  }

  /** Five of the shifted loads cover each half of the 256 bits. */
  lemma LowLoads(s: seq<byte>)
    requires |s| == 32
    ensures LittleEndian(s) == 0x1 * Load4(s, 0) as int + 0x100000000 * Load3(s, 4) as int
        + 0x100000000000000 * Load3(s, 7) as int + 0x100000000000000000000 * Load3(s, 10) as int
        + 0x100000000000000000000000000 * Load3(s, 13) as int
        + 0x100000000000000000000000000000000 * LittleEndian(s[16..])
  {
    assert s[0..] == s;
    Bytes4(s, 0);
    Bytes3(s, 4);
    Bytes3(s, 7);
    Bytes3(s, 10);
    Bytes3(s, 13);
  }

  lemma HighLoads(s: seq<byte>)
    requires |s| == 32
    ensures LittleEndian(s[16..]) == 0x1 * Load4(s, 16) as int + 0x100000000 * Load3(s, 20) as int
        + 0x100000000000000 * Load3(s, 23) as int + 0x100000000000000000000 * Load3(s, 26) as int
        + 0x100000000000000000000000000 * Load3(s, 29) as int
  {
    assert LittleEndian(s[32..]) == 0;
    Bytes4(s, 16);
    Bytes3(s, 20);
    Bytes3(s, 23);
    Bytes3(s, 26);
    Bytes3(s, 29);
  }

  /** The limbs before carrying: ten loads, shifted to the weights of their limbs. */
  function Loaded(src: seq<byte>): Sums
    requires |src| == 32
  {
    [Load4(src, 0), Load3(src, 4) * 64, Load3(src, 7) * 32, Load3(src, 10) * 8, Load3(src, 13) * 4, Load4(src, 16),
     Load3(src, 20) * 128, Load3(src, 23) * 32, Load3(src, 26) * 16, Load3(src, 29) * 4]
  }

  lemma LoadedValue(src: seq<byte>)
    requires |src| == 32
    ensures Value(SumLimbs(Loaded(src))) == LittleEndian(src)
  {
    LowLoads(src);
    HighLoads(src);
  }

  lemma LoadedModest(src: seq<byte>)
    requires |src| == 32
    ensures Modest(Loaded(src))
  {
  }

  method FeFromBytes(dst: array<int32>, src: seq<byte>)
    requires dst.Length == 10 && |src| == 32
    modifies dst
    ensures Tight(dst[..]) && Field(dst[..]) == LittleEndian(src) % P
  {
    var h := Loaded(src);
    LoadedValue(src);
    LoadedModest(src);
    var r := CarryParallel(h);
    Store(dst, r);
  }

  // Writing: the quotient

  /** Carrying q0 up through the limbs divides by 2^255, rounding down. */
  lemma ChainDivides(v: Limbs, q0: int, q1: int, q2: int, q3: int, q4: int, q5: int, q6: int, q7: int, q8: int,
                     q9: int, q10: int)
    requires 0 <= v.a0 + q0 - 0x4000000 * q1 < 0x4000000 && 0 <= v.a1 + q1 - 0x2000000 * q2 < 0x2000000
        && 0 <= v.a2 + q2 - 0x4000000 * q3 < 0x4000000 && 0 <= v.a3 + q3 - 0x2000000 * q4 < 0x2000000
        && 0 <= v.a4 + q4 - 0x4000000 * q5 < 0x4000000
    requires 0 <= v.a5 + q5 - 0x2000000 * q6 < 0x2000000 && 0 <= v.a6 + q6 - 0x4000000 * q7 < 0x4000000
        && 0 <= v.a7 + q7 - 0x2000000 * q8 < 0x2000000 && 0 <= v.a8 + q8 - 0x4000000 * q9 < 0x4000000
        && 0 <= v.a9 + q9 - 0x2000000 * q10 < 0x2000000
    ensures 0 <= Value(v) + q0 - TOP * q10 < TOP
  {
  }

  /** The estimate is exact: taking q times the modulus off leaves the canonical residue. */
  lemma EstimateExact(value: int, low: int, h9: int, q0: int, q: int)
    requires value == low + W9 * h9 && Within(low, W9) && Within(h9, 18454937)
    requires 0 <= 19 * h9 + 0x100_0000 - 0x200_0000 * q0 < 0x200_0000
    requires 0 <= value + q0 - TOP * q < TOP
    ensures 0 <= value - P * q < P && Within(q, 2)
  {
  }

  function Low(v: Limbs): int { Value(v) - W9 * v.a9 }

  lemma LowBound(h: Fe)
    requires Tight(h)
    ensures Within(Low(ToLimbs(h)), W9)
  {
  }

  /** h >> 26 and h >> 25. */
  function Shr26(h: int32): (q: int32)
    ensures 0 <= h as int - 0x400_0000 * q as int < 0x400_0000
  {
    h / 0x400_0000
  }

  function Shr25(h: int32): (q: int32)
    ensures 0 <= h as int - 0x200_0000 * q as int < 0x200_0000
  {
    h / 0x200_0000
  }

  /** One step of the estimate. */
  function Up26(h: int32, q: int32): (r: int32)
    requires Within(h as int, 36909875) && Within(q as int, 16)
    ensures 0 <= h as int + q as int - 0x400_0000 * r as int < 0x400_0000 && Within(r as int, 16)
  {
    Shr26(h + q)
  }

  function Up25(h: int32, q: int32): (r: int32)
    requires Within(h as int, 18454937) && Within(q as int, 16)
    ensures 0 <= h as int + q as int - 0x200_0000 * r as int < 0x200_0000 && Within(r as int, 16)
  {
    Shr25(h + q)
  }

  method EstimateQuotient(h: Fe) returns (q: int32)
    requires Tight(h)
    ensures 0 <= Value(ToLimbs(h)) - P * q as int < P && Within(q as int, 2)
  {
    var q0 := Shr25(19 * h[9] + 0x100_0000);
    var q1 := Up26(h[0], q0);
    var q2 := Up25(h[1], q1);
    var q3 := Up26(h[2], q2);
    var q4 := Up25(h[3], q3);
    var q5 := Up26(h[4], q4);
    var q6 := Up25(h[5], q5);
    var q7 := Up26(h[6], q6);
    var q8 := Up25(h[7], q7);
    var q9 := Up26(h[8], q8);
    var q10 := Up25(h[9], q9);
    ChainDivides(ToLimbs(h), q0 as int, q1 as int, q2 as int, q3 as int, q4 as int, q5 as int, q6 as int, q7 as int,
                 q8 as int, q9 as int, q10 as int);
    LowBound(h);
    EstimateExact(Value(ToLimbs(h)), Low(ToLimbs(h)), h[9] as int, q0 as int, q10 as int);
    q := q10;
  }

  // Writing: the carries

  /** Limbs in their plain range: the value is below 2^255 and written in one way. */
  predicate Plain(s: Fe) {
    && 0 <= s[0] < 0x400_0000 && 0 <= s[2] < 0x400_0000 && 0 <= s[4] < 0x400_0000 && 0 <= s[6] < 0x400_0000
    && 0 <= s[8] < 0x400_0000
    && 0 <= s[1] < 0x200_0000 && 0 <= s[3] < 0x200_0000 && 0 <= s[5] < 0x200_0000 && 0 <= s[7] < 0x200_0000
    && 0 <= s[9] < 0x200_0000
  }

  /** The carries over the lower five limbs. */
  method CarryLow(h0: int32, h1: int32, h2: int32, h3: int32, h4: int32) returns (r: seq<int32>, c: seq<int32>)
    requires Within(h0 as int, 0x4000_0000) && Within(h1 as int, 0x4000_0000) && Within(h2 as int, 0x4000_0000)
    requires Within(h3 as int, 0x4000_0000) && Within(h4 as int, 0x4000_0000)
    ensures |r| == |c| == 5 && Within(c[4] as int, 0x1000)
    ensures 0 <= r[0] < 0x400_0000 && 0 <= r[1] < 0x200_0000 && 0 <= r[2] < 0x400_0000 && 0 <= r[3] < 0x200_0000
    ensures 0 <= r[4] < 0x400_0000
    ensures h0 as int == r[0] as int + 0x400_0000 * c[0] as int
    ensures h1 as int + c[0] as int == r[1] as int + 0x200_0000 * c[1] as int
    ensures h2 as int + c[1] as int == r[2] as int + 0x400_0000 * c[2] as int
    ensures h3 as int + c[2] as int == r[3] as int + 0x200_0000 * c[3] as int
    ensures h4 as int + c[3] as int == r[4] as int + 0x400_0000 * c[4] as int
  {
    var c0 := Shr26(h0);
    var c1 := Shr25(h1 + c0);
    var c2 := Shr26(h2 + c1);
    var c3 := Shr25(h3 + c2);
    var c4 := Shr26(h4 + c3);
    r := [h0 - c0 * 0x400_0000, h1 + c0 - c1 * 0x200_0000, h2 + c1 - c2 * 0x400_0000, h3 + c2 - c3 * 0x200_0000,
          h4 + c3 - c4 * 0x400_0000];
    c := [c0, c1, c2, c3, c4];
  }

  /** The carries over the upper five limbs. */
  method CarryHigh(h5: int32, h6: int32, h7: int32, h8: int32, h9: int32) returns (r: seq<int32>, c: seq<int32>)
    requires Within(h5 as int, 0x4000_0000) && Within(h6 as int, 0x4000_0000) && Within(h7 as int, 0x4000_0000)
    requires Within(h8 as int, 0x4000_0000) && Within(h9 as int, 0x4000_0000)
    ensures |r| == |c| == 5
    ensures 0 <= r[0] < 0x200_0000 && 0 <= r[1] < 0x400_0000 && 0 <= r[2] < 0x200_0000 && 0 <= r[3] < 0x400_0000
    ensures 0 <= r[4] < 0x200_0000
    ensures h5 as int == r[0] as int + 0x200_0000 * c[0] as int
    ensures h6 as int + c[0] as int == r[1] as int + 0x400_0000 * c[1] as int
    ensures h7 as int + c[1] as int == r[2] as int + 0x200_0000 * c[2] as int
    ensures h8 as int + c[2] as int == r[3] as int + 0x400_0000 * c[3] as int
    ensures h9 as int + c[3] as int == r[4] as int + 0x200_0000 * c[4] as int
  {
    var c5 := Shr25(h5);
    var c6 := Shr26(h6 + c5);
    var c7 := Shr25(h7 + c6);
    var c8 := Shr26(h8 + c7);
    var c9 := Shr25(h9 + c8);
    r := [h5 - c5 * 0x200_0000, h6 + c5 - c6 * 0x400_0000, h7 + c6 - c7 * 0x200_0000, h8 + c7 - c8 * 0x400_0000,
          h9 + c8 - c9 * 0x200_0000];
    c := [c5, c6, c7, c8, c9];
  }

  method CarryPlain(h: Fe, q: int32) returns (r: Fe, ghost top: int)
    requires Tight(h) && Within(q as int, 2)
    ensures Plain(r) && Value(ToLimbs(h)) + 19 * q as int == Value(ToLimbs(r)) + TOP * top
  {
    var s, c := CarryLow(h[0] + 19 * q, h[1], h[2], h[3], h[4]);
    var t, d := CarryHigh(h[5] + c[4], h[6], h[7], h[8], h[9]);
    top := d[4] as int;
    r := [s[0], s[1], s[2], s[3], s[4], t[0], t[1], t[2], t[3], t[4]];
    CarriesTelescope(ToLimbs(h), 19 * q as int, ToLimbs(r), c[0] as int, c[1] as int, c[2] as int, c[3] as int,
                     c[4] as int, d[0] as int, d[1] as int, d[2] as int, d[3] as int, d[4] as int);
  }

  /** What each limb passes on is what the next one takes. */
  lemma CarriesTelescope(h: Limbs, extra: int, r: Limbs, c0: int, c1: int, c2: int, c3: int, c4: int, c5: int,
                         c6: int, c7: int, c8: int, c9: int)
    requires r.a0 == h.a0 + extra - 0x400_0000 * c0 && r.a1 == h.a1 + c0 - 0x200_0000 * c1
    requires r.a2 == h.a2 + c1 - 0x400_0000 * c2 && r.a3 == h.a3 + c2 - 0x200_0000 * c3
    requires r.a4 == h.a4 + c3 - 0x400_0000 * c4 && r.a5 == h.a5 + c4 - 0x200_0000 * c5
    requires r.a6 == h.a6 + c5 - 0x400_0000 * c6 && r.a7 == h.a7 + c6 - 0x200_0000 * c7
    requires r.a8 == h.a8 + c7 - 0x400_0000 * c8 && r.a9 == h.a9 + c8 - 0x200_0000 * c9
    ensures Value(h) + extra == Value(r) + TOP * c9
  {
  }

  lemma PlainBound(r: Fe)
    requires Plain(r)
    ensures 0 <= Value(ToLimbs(r)) < TOP
  {
  }

  /** The limbs of the canonical residue. */
  method Canonical(h: Fe) returns (r: Fe)
    requires Tight(h)
    ensures Plain(r) && Value(ToLimbs(r)) == Field(h)
  {
    var q := EstimateQuotient(h);
    ghost var top;
    r, top := CarryPlain(h, q);
    PlainBound(r);
    TopIsQuotient(Value(ToLimbs(h)), q as int, Value(ToLimbs(r)), top);
    ResidueIs(Value(ToLimbs(h)), q as int, Value(ToLimbs(r)));
  }

  /** The carry out of the top limb is the quotient. */
  lemma TopIsQuotient(v: int, q: int, r: int, top: int)
    requires 0 <= v - P * q < P && v + 19 * q == r + TOP * top && 0 <= r < TOP
    ensures r == v - P * q
  {
  }

  lemma ResidueIs(v: int, q: int, r: int)
    requires r == v - P * q && 0 <= r < P
    ensures v % P == r
  {
    ModArith.Quotient(q, r, P);
  }

  // Writing: the bytes

  function LowByte(x: int32): byte { x as int % 256 }

  /** A shift left in 32 bits drops what passes the sign bit. */
  function Wrap32(x: int): int { (x + 0x8000_0000) % 0x1_0000_0000 - 0x8000_0000 }

  /** byte(low | high << k). */
  function JoinByte(low: int32, high: int32, k: nat): byte { Or(low as int, Wrap32(Pow2(k) * high as int)) % 256 }

  /** A left shift, as a multiplication by w, is exact in 32 bits. */
  predicate ShiftFits(x: int32, w: int) { Wrap32(w * x as int) == w * x as int }

  lemma ShiftFitsBelow(x: int32, w: nat)
    requires x >= 0
    ensures ShiftFits(x, w) <==> w * x as int < 0x8000_0000
  {
    var y := w * x as int;
    if y < 0x8000_0000 {
      ModArith.Quotient(0, y + 0x8000_0000, 0x1_0000_0000);
    }
  }

  /** Of the eight left shifts of limbs, seven are exact in 32 bits; that of the fifth limb by six bits is
      exact if and only if the limb is below 2^25. The byte it contributes to is right all the same. */
  lemma ShiftsExact(h: Fe)
    requires Plain(h)
    ensures ShiftFits(h[1], 4) && ShiftFits(h[2], 8) && ShiftFits(h[3], 32)
    ensures ShiftFits(h[6], 2) && ShiftFits(h[7], 8) && ShiftFits(h[8], 16) && ShiftFits(h[9], 64)
    ensures ShiftFits(h[4], 64) <==> h[4] < 0x200_0000
  {
    ShiftFitsBelow(h[1], 4);
    ShiftFitsBelow(h[2], 8);
    ShiftFitsBelow(h[3], 32);
    ShiftFitsBelow(h[4], 64);
    ShiftFitsBelow(h[6], 2);
    ShiftFitsBelow(h[7], 8);
    ShiftFitsBelow(h[8], 16);
    ShiftFitsBelow(h[9], 64);
  }

  /** A reduced element whose fifth limb overflows its shift. */
  lemma ShiftOverflows()
    ensures var h: Fe := [0, 0, 0, 0, 0x200_0000, 0, 0, 0, 0, 0];
      Tight(h) && Plain(h) && Wrap32(64 * h[4] as int) == -0x8000_0000
  {
    assert 64 * 0x200_0000 == 0x8000_0000;
  }

  lemma WrapKeeps(x: int, w: int, v: int, low: int) returns (m: int)
    requires w * v == 0x1_0000_0000
    ensures Wrap32(w * x) == w * m && (low + w * m) % 256 == (low + w * x) % 256
  {
    var t := (w * x + 0x8000_0000) / 0x1_0000_0000;
    m := x - v * t;
    assert w * m == w * x - (w * v) * t;
    WrapIs(w * x, t);
    ModUnique(low + w * m, 0x100_0000 * t, 256);
  }

  lemma WrapIs(y: int, t: int)
    requires t == (y + 0x8000_0000) / 0x1_0000_0000
    ensures Wrap32(y) == y - 0x1_0000_0000 * t
  {
  }

  /** The bits of the two parts do not meet, so the byte is that of their sum. */
  lemma JoinIs(low: int32, high: int32, k: nat, w: nat, v: nat)
    requires w == Pow2(k) && w * v == 0x1_0000_0000 && 0 <= low as int < w
    ensures JoinByte(low, high, k) == (low as int + w * high as int) % 256
  {
    var m := WrapKeeps(high as int, w, v, low as int);
    OrDisjoint(low as int, m, k);
  }

  lemma Expand(m: int, n: int, b: int, c: int)
    ensures m * (n * b + c) == b * (m * n) + m * c
  {
    assert m * (n * b) == b * (m * n);
  }

  lemma Below(m: nat, n: nat, c: nat, r: nat)
    requires c < n && r < m
    ensures m * c + r < m * n
  {
    MulLe(c, m, n - 1, m);
    assert m * (n - 1) == m * n - m;
  }

  lemma DivTwiceOf(h: nat, m: nat, n: nat, a: nat, r: nat, b: nat, c: nat)
    requires h == m * a + r && r < m && a == n * b + c && c < n && m * n > 0
    ensures h / (m * n) == b
  {
    Expand(m, n, b, c);
    Below(m, n, c, r);
    ModArith.Quotient(b, m * c + r, m * n);
  }

  lemma DivTwice(h: nat, m: nat, n: nat)
    requires m > 0 && n > 0 && m * n > 0
    ensures h / m / n == h / (m * n)
  {
    var a := h / m;
    DivTwiceOf(h, m, n, a, h % m, a / n, a % n);
  }

  lemma Base256(a: nat)
    ensures a == a % 256 + 0x100 * (a / 0x100 % 256) + 0x1_0000 * (a / 0x1_0000)
  {
  }

  /** The digits of a limb from bit m on. */
  lemma Digits(h: nat, m: nat)
    requires m > 0
    ensures h == h % m + m * (h / m % 256) + m * (0x100 * (h / (m * 0x100) % 256))
        + m * (0x1_0000 * (h / (m * 0x1_0000)))
  {
    DivTwice(h, m, 0x100);
    DivTwice(h, m, 0x1_0000);
    Base256(h / m);
    var a, b, c := h / m % 256, 0x100 * (h / (m * 0x100) % 256), 0x1_0000 * (h / (m * 0x1_0000));
    Collect(a, b, m, 0, 0, 0);
    Collect(a + b, c, m, 0, 0, 0);
  }

  lemma JoinLow(t: nat, h: nat, w: nat, m: nat)
    requires w * m == 256 && t < w && m > 0
    ensures (t + w * h) % 256 == t + w * (h % m)
  {
    var a, r := h / m, h % m;
    assert w * h == (w * m) * a + w * r;
    MulLe(r, w, m - 1, w);
    assert w * (m - 1) == w * m - w;
    ModArith.Quotient(a, t + w * r, 256);
  }

  /** A byte shared by two limbs: the top bits of one and the low bits of the next. */
  lemma SharedByte(low: int32, high: int32, k: nat, w: nat, m: nat)
    requires w == Pow2(k) && w * m == 256 && 0 <= low as int < w && high >= 0
    ensures JoinByte(low, high, k) == low as int + w * (high as int % m)
  {
    assert w * (0x100_0000 * m) == 0x100_0000 * (w * m);
    JoinIs(low, high, k, w, 0x100_0000 * m);
    JoinLow(low as int, high as int, w, m);
  }

  /** The two whole bytes of a limb above its low bits, and what is above them. */
  method WholeBytes(h: int32, m: int32) returns (a: byte, b: byte, top: int32)
    requires h >= 0 && 0 < m <= 128
    ensures h as int == h as int % m as int + m as int * a as int + 0x100 * m as int * b as int
        + 0x1_0000 * m as int * top as int
    ensures top == h / (0x1_0000 * m)
  {
    Digits(h as int, m as int);
    a := LowByte(h / m);
    b := LowByte(h / (0x100 * m));
    top := h / (0x1_0000 * m);
  }

  method MixedByte(low: int32, high: int32, k: nat, ghost w: nat, ghost m: nat) returns (s: byte)
    requires w == Pow2(k) && w * m == 256 && 0 <= low as int < w && high >= 0
    ensures s as int == low as int + w * (high as int % m)
  {
    SharedByte(low, high, k, w, m);
    s := JoinByte(low, high, k);
  }

  method TopByte(h: int32) returns (s: byte, top: int32)
    requires h >= 0
    ensures h as int == s as int + 0x100 * top as int && top == h / 0x100
  {
    s := LowByte(h);
    top := h / 0x100;
  }

  /** The value of sixteen bytes. */
  function SumOf(s: seq<byte>): int
    requires |s| == 16
  {
    s[0] + 0x100 * s[1] as int + 0x10000 * s[2] as int + 0x1000000 * s[3] as int + 0x100000000 * s[4] as int
        + 0x10000000000 * s[5] as int + 0x1000000000000 * s[6] as int + 0x100000000000000 * s[7] as int
        + 0x10000000000000000 * s[8] as int + 0x1000000000000000000 * s[9] as int
        + 0x100000000000000000000 * s[10] as int + 0x10000000000000000000000 * s[11] as int
        + 0x1000000000000000000000000 * s[12] as int + 0x100000000000000000000000000 * s[13] as int
        + 0x10000000000000000000000000000 * s[14] as int + 0x1000000000000000000000000000000 * s[15] as int
  }

  lemma PackLowSum(h0: int, h1: int, h2: int, h3: int, h4: int, s0: int, s1: int, s2: int, s3: int, s4: int, s5: int,
                   s6: int, s7: int, s8: int, s9: int, s10: int, s11: int, s12: int, s13: int, s14: int, s15: int,
      t0: int, t1: int, t2: int, t3: int, u1: int, u2: int, u3: int, u4: int)
    requires h0 == s0 + 0x100 * s1 + 0x10000 * s2 + 0x1000000 * t0
    requires s3 == t0 + 4 * u1
    requires h1 == u1 + 0x40 * s4 + 0x4000 * s5 + 0x400000 * t1
    requires s6 == t1 + 8 * u2
    requires h2 == u2 + 0x20 * s7 + 0x2000 * s8 + 0x200000 * t2
    requires s9 == t2 + 32 * u3
    requires h3 == u3 + 0x8 * s10 + 0x800 * s11 + 0x80000 * t3
    requires s12 == t3 + 64 * u4
    requires h4 == u4 + 0x4 * s13 + 0x400 * s14 + 0x40000 * s15
    ensures s0 + 0x100 * s1 + 0x10000 * s2 + 0x1000000 * s3 + 0x100000000 * s4 + 0x10000000000 * s5
        + 0x1000000000000 * s6 + 0x100000000000000 * s7 + 0x10000000000000000 * s8 + 0x1000000000000000000 * s9
        + 0x100000000000000000000 * s10 + 0x10000000000000000000000 * s11 + 0x1000000000000000000000000 * s12
        + 0x100000000000000000000000000 * s13 + 0x10000000000000000000000000000 * s14
        + 0x1000000000000000000000000000000 * s15
      == h0 + W1 * h1 + W2 * h2 + W3 * h3 + W4 * h4
  {
  }

  method PackLow(h: Fe) returns (s: seq<byte>)
    requires Plain(h)
    ensures |s| == 16 && SumOf(s) == h[0] as int + W1 * h[1] as int + W2 * h[2] as int + W3 * h[3] as int
        + W4 * h[4] as int
  {
    SmallPowers();
    var s0, s1, r0 := WholeBytes(h[0], 1);
    var s2, t0 := TopByte(r0);
    var s3 := MixedByte(t0, h[1], 2, 4, 64);
    var s4, s5, t1 := WholeBytes(h[1], 64);
    var s6 := MixedByte(t1, h[2], 3, 8, 32);
    var s7, s8, t2 := WholeBytes(h[2], 32);
    var s9 := MixedByte(t2, h[3], 5, 32, 8);
    var s10, s11, t3 := WholeBytes(h[3], 8);
    var s12 := MixedByte(t3, h[4], 6, 64, 4);
    var s13, s14, r4 := WholeBytes(h[4], 4);
    var s15, _ := TopByte(r4);
    PackLowSum(h[0] as int, h[1] as int, h[2] as int, h[3] as int, h[4] as int,
      s0, s1, s2, s3, s4, s5, s6, s7, s8, s9, s10, s11, s12, s13, s14, s15,
      t0 as int, t1 as int, t2 as int, t3 as int, h[1] as int % 64, h[2] as int % 32, h[3] as int % 8, h[4] as int % 4);
    s := [s0, s1, s2, s3, s4, s5, s6, s7, s8, s9, s10, s11, s12, s13, s14, s15];
  }

  lemma PackHighSum(h0: int, h1: int, h2: int, h3: int, h4: int, s0: int, s1: int, s2: int, s3: int, s4: int, s5: int,
                    s6: int, s7: int, s8: int, s9: int, s10: int, s11: int, s12: int, s13: int, s14: int, s15: int,
      t0: int, t1: int, t2: int, t3: int, u1: int, u2: int, u3: int, u4: int)
    requires h0 == s0 + 0x100 * s1 + 0x10000 * s2 + 0x1000000 * t0
    requires s3 == t0 + 2 * u1
    requires h1 == u1 + 0x80 * s4 + 0x8000 * s5 + 0x800000 * t1
    requires s6 == t1 + 8 * u2
    requires h2 == u2 + 0x20 * s7 + 0x2000 * s8 + 0x200000 * t2
    requires s9 == t2 + 16 * u3
    requires h3 == u3 + 0x10 * s10 + 0x1000 * s11 + 0x100000 * t3
    requires s12 == t3 + 64 * u4
    requires h4 == u4 + 0x4 * s13 + 0x400 * s14 + 0x40000 * s15
    ensures s0 + 0x100 * s1 + 0x10000 * s2 + 0x1000000 * s3 + 0x100000000 * s4 + 0x10000000000 * s5
        + 0x1000000000000 * s6 + 0x100000000000000 * s7 + 0x10000000000000000 * s8 + 0x1000000000000000000 * s9
        + 0x100000000000000000000 * s10 + 0x10000000000000000000000 * s11 + 0x1000000000000000000000000 * s12
        + 0x100000000000000000000000000 * s13 + 0x10000000000000000000000000000 * s14
        + 0x1000000000000000000000000000000 * s15
      == h0 + 0x2000000 * h1 + 0x8000000000000 * h2 + 0x10000000000000000000 * h3 + 0x40000000000000000000000000 * h4
  {
  }

  method PackHigh(h: Fe) returns (s: seq<byte>)
    requires Plain(h)
    ensures |s| == 16 && SumOf(s) == h[5] as int + 0x2000000 * h[6] as int + 0x8000000000000 * h[7] as int
        + 0x10000000000000000000 * h[8] as int + 0x40000000000000000000000000 * h[9] as int
  {
    SmallPowers();
    var s0, s1, r0 := WholeBytes(h[5], 1);
    var s2, t0 := TopByte(r0);
    var s3 := MixedByte(t0, h[6], 1, 2, 128);
    var s4, s5, t1 := WholeBytes(h[6], 128);
    var s6 := MixedByte(t1, h[7], 3, 8, 32);
    var s7, s8, t2 := WholeBytes(h[7], 32);
    var s9 := MixedByte(t2, h[8], 4, 16, 16);
    var s10, s11, t3 := WholeBytes(h[8], 16);
    var s12 := MixedByte(t3, h[9], 6, 64, 4);
    var s13, s14, r4 := WholeBytes(h[9], 4);
    var s15, _ := TopByte(r4);
    PackHighSum(h[5] as int, h[6] as int, h[7] as int, h[8] as int, h[9] as int,
      s0, s1, s2, s3, s4, s5, s6, s7, s8, s9, s10, s11, s12, s13, s14, s15,
      t0 as int, t1 as int, t2 as int, t3 as int, h[6] as int % 128, h[7] as int % 32, h[8] as int % 16,
          h[9] as int % 4);
    s := [s0, s1, s2, s3, s4, s5, s6, s7, s8, s9, s10, s11, s12, s13, s14, s15];
  }

  lemma SixteenBytes(s: seq<byte>)
    requires |s| >= 16
    ensures LittleEndian(s) == SumOf(s[..16]) + 0x100000000000000000000000000000000 * LittleEndian(s[16..])
  {
    assert s[0..] == s;
    Bytes4(s, 0);
    Bytes4(s, 4);
    Bytes4(s, 8);
    Bytes4(s, 12);
  }

  lemma ThirtyTwoBytes(a: seq<byte>, b: seq<byte>)
    requires |a| == |b| == 16
    ensures LittleEndian(a + b) == SumOf(a) + 0x100000000000000000000000000000000 * SumOf(b)
  {
    SixteenBytes(a + b);
    assert (a + b)[..16] == a && (a + b)[16..] == b;
    SixteenBytes(b);
    assert b[..16] == b && b[16..] == [];
  }

  /** The 32 bytes are the little-endian form of the residue in [0, 2^255 - 19), whatever limbs stood for it. */
  method FeToBytes(s: array<byte>, h: array<int32>)
    requires s.Length == 32 && h.Length == 10 && Tight(h[..])
    modifies s, h
    ensures LittleEndian(s[..]) == old(Field(h[..]))
  {
    var r := Canonical(h[..]);
    Store(h, r);
    var low := PackLow(r);
    var high := PackHigh(r);
    ThirtyTwoBytes(low, high);
    var bytes := low + high;
    for i := 0 to 32
      invariant s[..i] == bytes[..i]
    {
      s[i] := bytes[i];
    }
    assert s[..] == s[..32] && bytes == bytes[..32];
  }
}
