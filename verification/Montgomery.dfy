/** What one step of the ladder computes: x-only doubling and differential addition on the curve
    y^2 = x^3 + 486662 x^2 + x, in projective coordinates (section 5 of RFC 7748). */
module Montgomery {
  import opened ModArith
  import opened FieldLimbs
  import opened FieldOps
  import opened Curve25519

  /** a and b stand for the same field element. */
  ghost predicate Same(a: int, b: int) { a % P == b % P }

  lemma Reduced(a: int)
    ensures Same(a % P, a)
  {
    ModUnique(a % P, a / P, P);
  }

  lemma MulSame(a: nat, b: nat, x: int, y: int)
    requires Same(a, x) && Same(b, y)
    ensures Same(MulP(a, b), x * y)
  {
    MulMod(a, b, P);
    MulMod(x, y, P);
    Reduced(a * b);
  }

  lemma AddSame(a: nat, b: nat, x: int, y: int)
    requires Same(a, x) && Same(b, y)
    ensures Same(AddP(a, b), x + y)
  {
    AddMod(a, b, P);
    AddMod(x, y, P);
    Reduced(a + b);
  }

  lemma SubSame(a: nat, b: nat, x: int, y: int)
    requires Same(a, x) && Same(b, y)
    ensures Same(SubP(a, b), x - y)
  {
    SubMod(a, b, P);
    SubMod(x, y, P);
    Reduced(a - b);
  }

  // The same computation on integers

  lemma Squares(x: int, z: int)
    ensures (x + z) * (x - z) == x * x - z * z
    ensures (x + z) * (x + z) == x * x + 2 * (x * z) + z * z
    ensures (x - z) * (x - z) == x * x - 2 * (x * z) + z * z
  {
    assert (x + z) * (x - z) == x * (x - z) + z * (x - z);
    assert (x + z) * (x + z) == x * (x + z) + z * (x + z);
    assert (x - z) * (x - z) == x * (x - z) - z * (x - z);
  }

  lemma SquareOfProduct(a: int, b: int)
    ensures (a * a) * (b * b) == (a * b) * (a * b)
  {
    Associate(a * a, b, b);
    Associate(a, a, b);
    Associate(a * b, a, b);
    assert (a * a) * b == a * (a * b) == (a * b) * a;
  }

  lemma Cross(x2: int, z2: int, x3: int, z3: int)
    ensures (x3 - z3) * (x2 + z2) + (x3 + z3) * (x2 - z2) == 2 * (x2 * x3 - z2 * z3)
    ensures (x3 - z3) * (x2 + z2) - (x3 + z3) * (x2 - z2) == 2 * (x3 * z2 - x2 * z3)
  {
    assert (x3 - z3) * (x2 + z2) == x3 * x2 + x3 * z2 - z3 * x2 - z3 * z2;
    assert (x3 + z3) * (x2 - z2) == x3 * x2 - x3 * z2 + z3 * x2 - z3 * z2;
  }

  lemma TwiceSquared(u: int)
    ensures (2 * u) * (2 * u) == 4 * (u * u)
  {
  }

  // The two halves of a step

  /** (x : z) becomes ((x^2 - z^2)^2 : 4xz(x^2 + 486662xz + z^2)). */
  lemma Doubling(x1: nat, s: Pair)
    ensures var x, z, t := s.x2 as int, s.z2 as int, Step(x1, s);
      && Same(t.x2, (x * x - z * z) * (x * x - z * z))
      && Same(t.z2, 4 * (x * z) * (x * x + 486662 * (x * z) + z * z))
  {
    var x, z := s.x2 as int, s.z2 as int;
    var a, b := AddP(s.x2, s.z2), SubP(s.x2, s.z2);
    AddSame(s.x2, s.z2, x, z);
    SubSame(s.x2, s.z2, x, z);
    var aa, bb := MulP(a, a), MulP(b, b);
    MulSame(a, a, x + z, x + z);
    MulSame(b, b, x - z, x - z);
    Squares(x, z);
    SquareOfProduct(x + z, x - z);
    var u, v := (x + z) * (x + z), (x - z) * (x - z);
    MulSame(aa, bb, u, v);
    var e := SubP(aa, bb);
    SubSame(aa, bb, u, v);
    MulSame(121665, e, 121665, u - v);
    AddSame(aa, MulP(121665, e), u, 121665 * (u - v));
    MulSame(e, AddP(aa, MulP(121665, e)), u - v, u + 121665 * (u - v));
  }

  /** Where the difference of the two points has the coordinate x1, (x2 : z2) and (x3 : z3) give
      (4(x2x3 - z2z3)^2 : 4 x1 (x3z2 - x2z3)^2) as their sum. */
  lemma DifferentialAddition(x1: nat, s: Pair)
    ensures var x2, z2, x3, z3, t := s.x2 as int, s.z2 as int, s.x3 as int, s.z3 as int, Step(x1, s);
      && Same(t.x3, 4 * ((x2 * x3 - z2 * z3) * (x2 * x3 - z2 * z3)))
      && Same(t.z3, x1 * (4 * ((x3 * z2 - x2 * z3) * (x3 * z2 - x2 * z3))))
  {
    var x2, z2, x3, z3 := s.x2 as int, s.z2 as int, s.x3 as int, s.z3 as int;
    AddSame(s.x2, s.z2, x2, z2);
    SubSame(s.x2, s.z2, x2, z2);
    AddSame(s.x3, s.z3, x3, z3);
    SubSame(s.x3, s.z3, x3, z3);
    var da := MulP(SubP(s.x3, s.z3), AddP(s.x2, s.z2));
    var cb := MulP(AddP(s.x3, s.z3), SubP(s.x2, s.z2));
    MulSame(SubP(s.x3, s.z3), AddP(s.x2, s.z2), x3 - z3, x2 + z2);
    MulSame(AddP(s.x3, s.z3), SubP(s.x2, s.z2), x3 + z3, x2 - z2);
    Cross(x2, z2, x3, z3);
    var u, v := x2 * x3 - z2 * z3, x3 * z2 - x2 * z3;
    AddSame(da, cb, (x3 - z3) * (x2 + z2), (x3 + z3) * (x2 - z2));
    SubSame(da, cb, (x3 - z3) * (x2 + z2), (x3 + z3) * (x2 - z2));
    MulSame(AddP(da, cb), AddP(da, cb), 2 * u, 2 * u);
    MulSame(SubP(da, cb), SubP(da, cb), 2 * v, 2 * v);
    TwiceSquared(u);
    TwiceSquared(v);
    MulSame(x1, MulP(SubP(da, cb), SubP(da, cb)), x1, 4 * (v * v));
  }
}
