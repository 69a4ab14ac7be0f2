/** Elements of the field of integers modulo 2^255 - 19 as ten signed limbs of radix 2^25.5
    (golang-x-crypto/curve25519/curve25519.go). This module is the arithmetic on the values the limbs denote. */
module FieldLimbs {
  import opened ModArith

  const P: nat := 0x7FFFFFFFFFFFFFFFFFFFFFFFFFFFFFFFFFFFFFFFFFFFFFFFFFFFFFFFFFFFFFED

  /** 2^255 */
  const TOP: nat := 0x8000000000000000000000000000000000000000000000000000000000000000

  /** The weights of limbs 1 to 9. */
  const W1: int := 0x4000000
  const W2: int := 0x8000000000000
  const W3: int := 0x20000000000000000000
  const W4: int := 0x40000000000000000000000000
  const W5: int := 0x100000000000000000000000000000000
  const W6: int := 0x200000000000000000000000000000000000000
  const W7: int := 0x800000000000000000000000000000000000000000000
  const W8: int := 0x1000000000000000000000000000000000000000000000000000
  const W9: int := 0x4000000000000000000000000000000000000000000000000000000000

  /** Ten limbs; limb i has weight 2^ceil(25.5 i). */
  datatype Limbs = Limbs(a0: int, a1: int, a2: int, a3: int, a4: int, a5: int, a6: int, a7: int, a8: int, a9: int)

  function Value(v: Limbs): int {
    v.a0 + W1 * v.a1 + W2 * v.a2 + W3 * v.a3 + W4 * v.a4 + W5 * v.a5 + W6 * v.a6 + W7 * v.a7 + W8 * v.a8 + W9 * v.a9
  }

  /** The field element a limb vector stands for. */
  function Element(v: Limbs): (r: nat)
    ensures r < P
  {
    Value(v) % P
  }

  function Add(v: Limbs, u: Limbs): Limbs {
    Limbs(v.a0 + u.a0, v.a1 + u.a1, v.a2 + u.a2, v.a3 + u.a3, v.a4 + u.a4, v.a5 + u.a5, v.a6 + u.a6, v.a7 + u.a7,
          v.a8 + u.a8, v.a9 + u.a9)
  }

  function Sub(v: Limbs, u: Limbs): Limbs {
    Limbs(v.a0 - u.a0, v.a1 - u.a1, v.a2 - u.a2, v.a3 - u.a3, v.a4 - u.a4, v.a5 - u.a5, v.a6 - u.a6, v.a7 - u.a7,
          v.a8 - u.a8, v.a9 - u.a9)
  }

  function Scale(x: int, v: Limbs): Limbs {
    Limbs(x * v.a0, x * v.a1, x * v.a2, x * v.a3, x * v.a4, x * v.a5, x * v.a6, x * v.a7, x * v.a8, x * v.a9)
  }

  const NONE: Limbs := Limbs(0, 0, 0, 0, 0, 0, 0, 0, 0, 0)

  lemma ValueAdd(v: Limbs, u: Limbs)
    ensures Value(Add(v, u)) == Value(v) + Value(u) && Value(Sub(v, u)) == Value(v) - Value(u)
  {
  }

  lemma Times(x: int, k: int, y: int)
    ensures k * (x * y) == x * (k * y)
  {
  }

  lemma Distribute(x: int, b0: int, b1: int, b2: int, b3: int, b4: int, b5: int, b6: int, b7: int, b8: int, b9: int)
    ensures x * (b0 + b1 + b2 + b3 + b4 + b5 + b6 + b7 + b8 + b9)
        == x * b0 + x * b1 + x * b2 + x * b3 + x * b4 + x * b5 + x * b6 + x * b7 + x * b8 + x * b9
  {
  }

  lemma ValueScale(x: int, v: Limbs)
    ensures Value(Scale(x, v)) == x * Value(v)
  {
    Distribute(x, v.a0, W1 * v.a1, W2 * v.a2, W3 * v.a3, W4 * v.a4, W5 * v.a5, W6 * v.a6, W7 * v.a7, W8 * v.a8,
               W9 * v.a9);
    Times(x, W1, v.a1);
    Times(x, W2, v.a2);
    Times(x, W3, v.a3);
    Times(x, W4, v.a4);
    Times(x, W5, v.a5);
    Times(x, W6, v.a6);
    Times(x, W7, v.a7);
    Times(x, W8, v.a8);
    Times(x, W9, v.a9);
  }

  // The schoolbook product

  const WEIGHTS: seq<int> := [0x1, W1, W2, W3, W4, W5, W6, W7, W8, W9]

  function Coefficients(f: Limbs): seq<int> { [f.a0, f.a1, f.a2, f.a3, f.a4, f.a5, f.a6, f.a7, f.a8, f.a9] }

  // g times the weight of each limb: every limb moves up, and what passes 2^255 comes back times 19

  function Shifted0(g: Limbs): Limbs { Limbs(g.a0, g.a1, g.a2, g.a3, g.a4, g.a5, g.a6, g.a7, g.a8, g.a9) }

  function Shifted1(g: Limbs): Limbs {
    Limbs(38 * g.a9, g.a0, 2 * g.a1, g.a2, 2 * g.a3, g.a4, 2 * g.a5, g.a6, 2 * g.a7, g.a8)
  }

  function Shifted2(g: Limbs): Limbs { Limbs(19 * g.a8, 19 * g.a9, g.a0, g.a1, g.a2, g.a3, g.a4, g.a5, g.a6, g.a7) }

  function Shifted3(g: Limbs): Limbs {
    Limbs(38 * g.a7, 19 * g.a8, 38 * g.a9, g.a0, 2 * g.a1, g.a2, 2 * g.a3, g.a4, 2 * g.a5, g.a6)
  }

  function Shifted4(g: Limbs): Limbs {
    Limbs(19 * g.a6, 19 * g.a7, 19 * g.a8, 19 * g.a9, g.a0, g.a1, g.a2, g.a3, g.a4, g.a5)
  }

  function Shifted5(g: Limbs): Limbs {
    Limbs(38 * g.a5, 19 * g.a6, 38 * g.a7, 19 * g.a8, 38 * g.a9, g.a0, 2 * g.a1, g.a2, 2 * g.a3, g.a4)
  }

  function Shifted6(g: Limbs): Limbs {
    Limbs(19 * g.a4, 19 * g.a5, 19 * g.a6, 19 * g.a7, 19 * g.a8, 19 * g.a9, g.a0, g.a1, g.a2, g.a3)
  }

  function Shifted7(g: Limbs): Limbs {
    Limbs(38 * g.a3, 19 * g.a4, 38 * g.a5, 19 * g.a6, 38 * g.a7, 19 * g.a8, 38 * g.a9, g.a0, 2 * g.a1, g.a2)
  }

  function Shifted8(g: Limbs): Limbs {
    Limbs(19 * g.a2, 19 * g.a3, 19 * g.a4, 19 * g.a5, 19 * g.a6, 19 * g.a7, 19 * g.a8, 19 * g.a9, g.a0, g.a1)
  }

  function Shifted9(g: Limbs): Limbs {
    Limbs(38 * g.a1, 19 * g.a2, 38 * g.a3, 19 * g.a4, 38 * g.a5, 19 * g.a6, 38 * g.a7, 19 * g.a8, 38 * g.a9, g.a0)
  }

  function Passed1(g: Limbs): int { 2 * g.a9 }

  function Passed2(g: Limbs): int { g.a8 + W1 * g.a9 }

  function Passed3(g: Limbs): int { 2 * g.a7 + W1 * g.a8 + 2 * W2 * g.a9 }

  function Passed4(g: Limbs): int { g.a6 + W1 * g.a7 + W2 * g.a8 + W3 * g.a9 }

  function Passed5(g: Limbs): int { 2 * g.a5 + W1 * g.a6 + 2 * W2 * g.a7 + W3 * g.a8 + 2 * W4 * g.a9 }

  function Passed6(g: Limbs): int { g.a4 + W1 * g.a5 + W2 * g.a6 + W3 * g.a7 + W4 * g.a8 + W5 * g.a9 }

  function Passed7(g: Limbs): int {
    2 * g.a3 + W1 * g.a4 + 2 * W2 * g.a5 + W3 * g.a6 + 2 * W4 * g.a7 + W5 * g.a8 + 2 * W6 * g.a9
  }

  function Passed8(g: Limbs): int {
    g.a2 + W1 * g.a3 + W2 * g.a4 + W3 * g.a5 + W4 * g.a6 + W5 * g.a7 + W6 * g.a8 + W7 * g.a9
  }

  function Passed9(g: Limbs): int {
    2 * g.a1 + W1 * g.a2 + 2 * W2 * g.a3 + W3 * g.a4 + 2 * W4 * g.a5 + W5 * g.a6 + 2 * W6 * g.a7 + W7 * g.a8
        + 2 * W8 * g.a9
  }

  function Shifts(g: Limbs): (s: seq<Limbs>)
    ensures |s| == 10
  {
    [Shifted0(g), Shifted1(g), Shifted2(g), Shifted3(g), Shifted4(g), Shifted5(g), Shifted6(g), Shifted7(g),
     Shifted8(g), Shifted9(g)]
  }

  function Wraps(g: Limbs): (s: seq<int>)
    ensures |s| == 10
  {
    [0, Passed1(g), Passed2(g), Passed3(g), Passed4(g), Passed5(g), Passed6(g), Passed7(g), Passed8(g), Passed9(g)]
  }

  lemma ShiftValue1(g: Limbs)
    ensures W1 * Value(g) == Value(Shifted1(g)) + P * Passed1(g)
  {
  }

  lemma ShiftValue2(g: Limbs)
    ensures W2 * Value(g) == Value(Shifted2(g)) + P * Passed2(g)
  {
  }

  lemma ShiftValue3(g: Limbs)
    ensures W3 * Value(g) == Value(Shifted3(g)) + P * Passed3(g)
  {
  }

  lemma ShiftValue4(g: Limbs)
    ensures W4 * Value(g) == Value(Shifted4(g)) + P * Passed4(g)
  {
  }

  lemma ShiftValue5(g: Limbs)
    ensures W5 * Value(g) == Value(Shifted5(g)) + P * Passed5(g)
  {
  }

  lemma ShiftValue6(g: Limbs)
    ensures W6 * Value(g) == Value(Shifted6(g)) + P * Passed6(g)
  {
  }

  lemma ShiftValue7(g: Limbs)
    ensures W7 * Value(g) == Value(Shifted7(g)) + P * Passed7(g)
  {
  }

  lemma ShiftValue8(g: Limbs)
    ensures W8 * Value(g) == Value(Shifted8(g)) + P * Passed8(g)
  {
  }

  lemma ShiftValue9(g: Limbs)
    ensures W9 * Value(g) == Value(Shifted9(g)) + P * Passed9(g)
  {
  }

  /** The sum of fs[k] * vs[k] from k = i on. */
  function Combination(fs: seq<int>, vs: seq<Limbs>, i: nat): Limbs
    requires |fs| == |vs| && i <= |fs|
    decreases |fs| - i
  {
    if i == |fs| then NONE else Add(Scale(fs[i], vs[i]), Combination(fs, vs, i + 1))
  }

  function Dot(ws: seq<int>, fs: seq<int>, i: nat): int
    requires |ws| == |fs| && i <= |fs|
    decreases |fs| - i
  {
    if i == |fs| then 0 else ws[i] * fs[i] + Dot(ws, fs, i + 1)
  }

  lemma ProductStep(w: int, x: int, val: int, s: int, p: int, q: int)
    requires w * val == s + p * q
    ensures (w * x) * val == x * s + p * (x * q)
  {
    assert (w * x) * val == x * (w * val) == x * s + x * (p * q);
    assert x * (p * q) == p * (x * q);
  }

  lemma Collect(a: int, b: int, v: int, p: int, c: int, d: int)
    ensures (a + b) * v == a * v + b * v && p * (c + d) == p * c + p * d
  {
  }

  lemma CombineStep(w: int, x: int, val: int, s: int, p: int, q: int, more: int, product: int, wrapped: int)
    requires w * val == s + p * q && more * val == product + p * wrapped
    ensures (w * x + more) * val == (x * s + product) + p * (x * q + wrapped)
  {
    ProductStep(w, x, val, s, p, q);
    Collect(w * x, more, val, p, x * q, wrapped);
  }

  lemma CombinationStep(fs: seq<int>, vs: seq<Limbs>, i: nat, s: int)
    requires |fs| == |vs| && i < |fs| && s == Value(vs[i])
    ensures Value(Combination(fs, vs, i)) == fs[i] * s + Value(Combination(fs, vs, i + 1))
  {
    ValueScale(fs[i], vs[i]);
    ValueAdd(Scale(fs[i], vs[i]), Combination(fs, vs, i + 1));
  }

  lemma {:induction false} CombinationValue(fs: seq<int>, vs: seq<Limbs>, ss: seq<int>, i: nat)
    requires |fs| == |vs| == |ss| && i <= |fs| && forall k :: 0 <= k < |fs| ==> ss[k] == Value(vs[k])
    ensures Value(Combination(fs, vs, i)) == Dot(fs, ss, i)
    decreases |fs| - i
  {
    if i < |fs| {
      CombinationStep(fs, vs, i, ss[i]);
      CombinationValue(fs, vs, ss, i + 1);
    }
  }

  predicate ShiftLaw(w: int, val: int, s: int, q: int) { w * val == s + P * q }

  /** If each ss[k] is ws[k] * val up to qs[k] * P, then so are their dot products with fs. */
  lemma {:induction false} DotLaw(ws: seq<int>, fs: seq<int>, ss: seq<int>, qs: seq<int>, val: int, i: nat)
    requires |ws| == |fs| == |ss| == |qs| && i <= |fs|
    requires forall k :: 0 <= k < |fs| ==> ShiftLaw(ws[k], val, ss[k], qs[k])
    ensures Dot(ws, fs, i) * val == Dot(fs, ss, i) + P * Dot(fs, qs, i)
    decreases |fs| - i
  {
    if i < |fs| {
      DotLaw(ws, fs, ss, qs, val, i + 1);
      assert ShiftLaw(ws[i], val, ss[i], qs[i]);
      CombineStep(ws[i], fs[i], val, ss[i], P, qs[i], Dot(ws, fs, i + 1), Dot(fs, ss, i + 1), Dot(fs, qs, i + 1));
    }
  }

  function Product(f: Limbs, g: Limbs): Limbs { Combination(Coefficients(f), Shifts(g), 0) }

  lemma ProductRows(f: Limbs, g: Limbs)
    ensures Product(f, g) == Limbs(
      f.a0 * g.a0 + f.a1 * (38 * g.a9) + f.a2 * (19 * g.a8) + f.a3 * (38 * g.a7) + f.a4 * (19 * g.a6)
          + f.a5 * (38 * g.a5) + f.a6 * (19 * g.a4) + f.a7 * (38 * g.a3) + f.a8 * (19 * g.a2) + f.a9 * (38 * g.a1),
      f.a0 * g.a1 + f.a1 * g.a0 + f.a2 * (19 * g.a9) + f.a3 * (19 * g.a8) + f.a4 * (19 * g.a7) + f.a5 * (19 * g.a6)
          + f.a6 * (19 * g.a5) + f.a7 * (19 * g.a4) + f.a8 * (19 * g.a3) + f.a9 * (19 * g.a2),
      f.a0 * g.a2 + f.a1 * (2 * g.a1) + f.a2 * g.a0 + f.a3 * (38 * g.a9) + f.a4 * (19 * g.a8) + f.a5 * (38 * g.a7)
          + f.a6 * (19 * g.a6) + f.a7 * (38 * g.a5) + f.a8 * (19 * g.a4) + f.a9 * (38 * g.a3),
      f.a0 * g.a3 + f.a1 * g.a2 + f.a2 * g.a1 + f.a3 * g.a0 + f.a4 * (19 * g.a9) + f.a5 * (19 * g.a8)
          + f.a6 * (19 * g.a7) + f.a7 * (19 * g.a6) + f.a8 * (19 * g.a5) + f.a9 * (19 * g.a4),
      f.a0 * g.a4 + f.a1 * (2 * g.a3) + f.a2 * g.a2 + f.a3 * (2 * g.a1) + f.a4 * g.a0 + f.a5 * (38 * g.a9)
          + f.a6 * (19 * g.a8) + f.a7 * (38 * g.a7) + f.a8 * (19 * g.a6) + f.a9 * (38 * g.a5),
      f.a0 * g.a5 + f.a1 * g.a4 + f.a2 * g.a3 + f.a3 * g.a2 + f.a4 * g.a1 + f.a5 * g.a0 + f.a6 * (19 * g.a9)
          + f.a7 * (19 * g.a8) + f.a8 * (19 * g.a7) + f.a9 * (19 * g.a6),
      f.a0 * g.a6 + f.a1 * (2 * g.a5) + f.a2 * g.a4 + f.a3 * (2 * g.a3) + f.a4 * g.a2 + f.a5 * (2 * g.a1)
          + f.a6 * g.a0 + f.a7 * (38 * g.a9) + f.a8 * (19 * g.a8) + f.a9 * (38 * g.a7),
      f.a0 * g.a7 + f.a1 * g.a6 + f.a2 * g.a5 + f.a3 * g.a4 + f.a4 * g.a3 + f.a5 * g.a2 + f.a6 * g.a1 + f.a7 * g.a0
          + f.a8 * (19 * g.a9) + f.a9 * (19 * g.a8),
      f.a0 * g.a8 + f.a1 * (2 * g.a7) + f.a2 * g.a6 + f.a3 * (2 * g.a5) + f.a4 * g.a4 + f.a5 * (2 * g.a3)
          + f.a6 * g.a2 + f.a7 * (2 * g.a1) + f.a8 * g.a0 + f.a9 * (38 * g.a9),
      f.a0 * g.a9 + f.a1 * g.a8 + f.a2 * g.a7 + f.a3 * g.a6 + f.a4 * g.a5 + f.a5 * g.a4 + f.a6 * g.a3 + f.a7 * g.a2
          + f.a8 * g.a1 + f.a9 * g.a0)
  {
    var fs, vs := Coefficients(f), Shifts(g);
    assert Combination(fs, vs, 8) == Add(Scale(f.a8, vs[8]), Add(Scale(f.a9, vs[9]), Combination(fs, vs, 10)));
    assert Combination(fs, vs, 6) == Add(Scale(f.a6, vs[6]), Add(Scale(f.a7, vs[7]), Combination(fs, vs, 8)));
    assert Combination(fs, vs, 4) == Add(Scale(f.a4, vs[4]), Add(Scale(f.a5, vs[5]), Combination(fs, vs, 6)));
    assert Combination(fs, vs, 2) == Add(Scale(f.a2, vs[2]), Add(Scale(f.a3, vs[3]), Combination(fs, vs, 4)));
    assert Combination(fs, vs, 0) == Add(Scale(f.a0, vs[0]), Add(Scale(f.a1, vs[1]), Combination(fs, vs, 2)));
  }

  lemma DotIsValue(f: Limbs)
    ensures Dot(WEIGHTS, Coefficients(f), 0) == Value(f)
  {
    var fs := Coefficients(f);
    assert Dot(WEIGHTS, fs, 8) == WEIGHTS[8] * f.a8 + (WEIGHTS[9] * f.a9 + Dot(WEIGHTS, fs, 10));
    assert Dot(WEIGHTS, fs, 6) == WEIGHTS[6] * f.a6 + (WEIGHTS[7] * f.a7 + Dot(WEIGHTS, fs, 8));
    assert Dot(WEIGHTS, fs, 4) == WEIGHTS[4] * f.a4 + (WEIGHTS[5] * f.a5 + Dot(WEIGHTS, fs, 6));
    assert Dot(WEIGHTS, fs, 2) == WEIGHTS[2] * f.a2 + (WEIGHTS[3] * f.a3 + Dot(WEIGHTS, fs, 4));
    assert Dot(WEIGHTS, fs, 0) == WEIGHTS[0] * f.a0 + (WEIGHTS[1] * f.a1 + Dot(WEIGHTS, fs, 2));
  }

  lemma LowShifts(g: Limbs, k: nat)
    requires k < 5
    ensures ShiftLaw(WEIGHTS[k], Value(g), Value(Shifts(g)[k]), Wraps(g)[k])
  {
    match k
    case 0 =>
    case 1 => ShiftValue1(g);
    case 2 => ShiftValue2(g);
    case 3 => ShiftValue3(g);
    case _ => ShiftValue4(g);
  }

  lemma HighShifts(g: Limbs, k: nat)
    requires 5 <= k < 10
    ensures ShiftLaw(WEIGHTS[k], Value(g), Value(Shifts(g)[k]), Wraps(g)[k])
  {
    match k
    case 5 => ShiftValue5(g);
    case 6 => ShiftValue6(g);
    case 7 => ShiftValue7(g);
    case 8 => ShiftValue8(g);
    case _ => ShiftValue9(g);
  }

  lemma AllShifts(g: Limbs, k: nat)
    requires k < 10
    ensures ShiftLaw(WEIGHTS[k], Value(g), Value(Shifts(g)[k]), Wraps(g)[k])
  {
    if k < 5 {
      LowShifts(g, k);
    } else {
      HighShifts(g, k);
    }
  }

  lemma ProductValue(f: Limbs, g: Limbs)
    ensures Value(f) * Value(g) == Value(Product(f, g)) + P * Dot(Coefficients(f), Wraps(g), 0)
  {
    var fs, vs, qs := Coefficients(f), Shifts(g), Wraps(g);
    var ss := seq(10, k requires 0 <= k < 10 => Value(vs[k]));
    forall k | 0 <= k < 10
      ensures ShiftLaw(WEIGHTS[k], Value(g), ss[k], qs[k])
    {
      AllShifts(g, k);
    }
    DotLaw(WEIGHTS, fs, ss, qs, Value(g), 0);
    CombinationValue(fs, vs, ss, 0);
    DotIsValue(f);
  }

  /** The schoolbook product denotes the product modulo 2^255 - 19. */
  lemma ProductElement(f: Limbs, g: Limbs)
    ensures Element(Product(f, g)) == Element(f) * Element(g) % P
  {
    ProductValue(f, g);
    SameElement(Value(f) * Value(g), Value(Product(f, g)), Dot(Coefficients(f), Wraps(g), 0));
    MulMod(Value(f), Value(g), P);
  }

  lemma SameElement(a: int, b: int, q: int)
    requires a == b + P * q
    ensures a % P == b % P
  {
    ModUnique(b, q, P);
  }
}
