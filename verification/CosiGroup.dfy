/** The signature group of the CoSi package as a parameter: a commutative group with a base point
    whose order divides L, and an encoding that decoding undoes. */
module CosiGroup {
  import opened Bytes

  type Bytes32 = s: seq<byte> | |s| == 32 witness seq(32, _ => 0)

  /** The order of the base point of edwards25519. */
  const L: nat := 0x1000000000000000000000000000000014DEF9DEA2F79CD65812631A5CF5D3ED

  datatype Curve<!G> = Curve(
    zero: G, add: (G, G) -> G, neg: G -> G, base: G,
    enc: G -> Bytes32, dec: Bytes32 -> Option<G>)

  function Mul<G>(c: Curve<G>, k: nat, p: G): G {
    if k == 0 then c.zero else c.add(Mul(c, k - 1, p), p)
  }

  function Sum<G>(c: Curve<G>, ps: seq<G>): G {
    if ps == [] then c.zero else c.add(Sum(c, ps[..|ps| - 1]), ps[|ps| - 1])
  }

  // Each law is a named instance, so that proofs say which instances they use.
  ghost predicate Commutes<G>(c: Curve<G>, p: G, q: G) { c.add(p, q) == c.add(q, p) }
  ghost predicate Associates<G>(c: Curve<G>, p: G, q: G, r: G) { c.add(c.add(p, q), r) == c.add(p, c.add(q, r)) }
  ghost predicate Neutral<G>(c: Curve<G>, p: G) { c.add(p, c.zero) == p && c.add(p, c.neg(p)) == c.zero }
  ghost predicate Decodes<G>(c: Curve<G>, p: G) { c.dec(c.enc(p)) == Some(p) }

  ghost predicate Laws<G(!new)>(c: Curve<G>) {
    && (forall p, q :: Commutes(c, p, q))
    && (forall p, q, r :: Associates(c, p, q, r))
    && (forall p :: Neutral(c, p))
    && (forall p :: Decodes(c, p))
    && Mul(c, L, c.base) == c.zero
  }

  lemma Assoc<G(!new)>(c: Curve<G>, p: G, q: G, r: G)
    requires Laws(c)
    ensures c.add(c.add(p, q), r) == c.add(p, c.add(q, r))
  {
    assert Associates(c, p, q, r);
  }

  lemma Comm<G(!new)>(c: Curve<G>, p: G, q: G)
    requires Laws(c)
    ensures c.add(p, q) == c.add(q, p)
  {
    assert Commutes(c, p, q);
  }

  lemma Zero<G(!new)>(c: Curve<G>, p: G)
    requires Laws(c)
    ensures c.add(p, c.zero) == p && c.add(c.zero, p) == p && c.add(p, c.neg(p)) == c.zero
        && c.add(c.neg(p), p) == c.zero
  {
    assert Neutral(c, p);
    Comm(c, p, c.zero);
    Comm(c, p, c.neg(p));
  }

  lemma Decode<G(!new)>(c: Curve<G>, p: G)
    requires Laws(c)
    ensures c.dec(c.enc(p)) == Some(p)
  {
    assert Decodes(c, p);
  }

  /** (p + q) + (r + s) = (p + r) + (q + s) */
  lemma Interchange<G(!new)>(c: Curve<G>, p: G, q: G, r: G, s: G)
    requires Laws(c)
    ensures c.add(c.add(p, q), c.add(r, s)) == c.add(c.add(p, r), c.add(q, s))
  {
    Assoc(c, p, q, c.add(r, s));
    Assoc(c, q, r, s);
    Comm(c, q, r);
    Assoc(c, r, q, s);
    Assoc(c, p, r, c.add(q, s));
  }

  /** (p + q) + r = (p + r) + q */
  lemma SwapLast<G(!new)>(c: Curve<G>, p: G, q: G, r: G)
    requires Laws(c)
    ensures c.add(c.add(p, q), r) == c.add(c.add(p, r), q)
  {
    Assoc(c, p, q, r);
    Comm(c, q, r);
    Assoc(c, p, r, q);
  }

  /** Adding and then subtracting, and the other way round. */
  lemma AddSub<G(!new)>(c: Curve<G>, p: G, q: G)
    requires Laws(c)
    ensures c.add(c.add(p, q), c.neg(q)) == p && c.add(c.add(p, c.neg(q)), q) == p
  {
    Assoc(c, p, q, c.neg(q));
    Assoc(c, p, c.neg(q), q);
    Zero(c, q);
    Zero(c, p);
  }

  lemma {:induction false} MulAdd<G(!new)>(c: Curve<G>, k: nat, l: nat, p: G)
    requires Laws(c)
    ensures Mul(c, k + l, p) == c.add(Mul(c, k, p), Mul(c, l, p))
    decreases l
  {
    if l == 0 {
      Zero(c, Mul(c, k, p));
    } else {
      MulAdd(c, k, l - 1, p);
      assert k + l - 1 == k + (l - 1);
      Assoc(c, Mul(c, k, p), Mul(c, l - 1, p), p);
    }
  }

  lemma {:induction false} MulSum<G(!new)>(c: Curve<G>, k: nat, p: G, q: G)
    requires Laws(c)
    ensures Mul(c, k, c.add(p, q)) == c.add(Mul(c, k, p), Mul(c, k, q))
    decreases k
  {
    if k == 0 {
      Zero(c, c.zero);
    } else {
      MulSum(c, k - 1, p, q);
      Interchange(c, Mul(c, k - 1, p), Mul(c, k - 1, q), p, q);
    }
  }

  lemma {:induction false} MulZero<G(!new)>(c: Curve<G>, k: nat)
    requires Laws(c)
    ensures Mul(c, k, c.zero) == c.zero
    decreases k
  {
    if k != 0 {
      MulZero(c, k - 1);
      Zero(c, c.zero);
    }
  }

  /** -p is the only inverse of p. */
  lemma NegUnique<G(!new)>(c: Curve<G>, p: G, q: G)
    requires Laws(c) && c.add(p, q) == c.zero
    ensures q == c.neg(p)
  {
    AddSub(c, q, p);
    Comm(c, p, q);
    Zero(c, c.neg(p));
  }

  lemma NegSum<G(!new)>(c: Curve<G>, p: G, q: G)
    requires Laws(c)
    ensures c.neg(c.add(p, q)) == c.add(c.neg(p), c.neg(q))
  {
    Interchange(c, p, q, c.neg(p), c.neg(q));
    Zero(c, p);
    Zero(c, q);
    Zero(c, c.zero);
    NegUnique(c, c.add(p, q), c.add(c.neg(p), c.neg(q)));
  }

  /** k(-p) + kp = 0 */
  lemma MulNeg<G(!new)>(c: Curve<G>, k: nat, p: G)
    requires Laws(c)
    ensures c.add(Mul(c, k, c.neg(p)), Mul(c, k, p)) == c.zero
  {
    MulSum(c, k, c.neg(p), p);
    Zero(c, p);
    MulZero(c, k);
  }

  lemma CancelLeft<G(!new)>(c: Curve<G>, p: G, q: G, r: G)
    requires Laws(c)
    ensures c.add(p, q) == c.add(p, r) <==> q == r
    ensures c.add(q, p) == c.add(r, p) <==> q == r
  {
    Comm(c, p, q);
    Comm(c, p, r);
    AddSub(c, q, p);
    AddSub(c, r, p);
  }

  /** Equal multiples have equal opposites. */
  lemma MulNegEqual<G(!new)>(c: Curve<G>, k: nat, p: G, l: nat, q: G)
    requires Laws(c)
    ensures Mul(c, k, c.neg(p)) == Mul(c, l, c.neg(q)) <==> Mul(c, k, p) == Mul(c, l, q)
  {
    MulNeg(c, k, p);
    MulNeg(c, l, q);
    CancelLeft(c, Mul(c, k, p), Mul(c, k, c.neg(p)), Mul(c, l, c.neg(q)));
    CancelLeft(c, Mul(c, k, c.neg(p)), Mul(c, k, p), Mul(c, l, q));
  }

  lemma {:induction false} MulMul<G(!new)>(c: Curve<G>, k: nat, l: nat, p: G)
    requires Laws(c)
    ensures Mul(c, k * l, p) == Mul(c, k, Mul(c, l, p))
    decreases k
  {
    if k == 0 {
      assert k * l == 0;
    } else {
      MulMul(c, k - 1, l, p);
      assert k * l == (k - 1) * l + l;
      MulAdd(c, (k - 1) * l, l, p);
    }
  }

  /** Multiples of the base point depend on the scalar modulo L only. */
  lemma BaseModL<G(!new)>(c: Curve<G>, k: nat)
    requires Laws(c)
    ensures Mul(c, k % L, c.base) == Mul(c, k, c.base)
  {
    var q, r := k / L, k % L;
    assert k == q * L + r;
    MulAdd(c, q * L, r, c.base);
    MulMul(c, q, L, c.base);
    MulZero(c, q);
    Zero(c, Mul(c, r, c.base));
  }

  // ---- 32-byte little-endian scalars ----

  function ScalarBytes(v: nat, n: nat): (s: seq<byte>)
    ensures |s| == n
  {
    if n == 0 then [] else [v % 256] + ScalarBytes(v / 256, n - 1)
  }

  lemma {:induction false} ScalarRoundTrip(v: nat, n: nat)
    requires v < Pow256(n)
    ensures LittleEndian(ScalarBytes(v, n)) == v
    decreases n
  {
    if n != 0 {
      ScalarRoundTrip(v / 256, n - 1);
      assert ScalarBytes(v, n)[1..] == ScalarBytes(v / 256, n - 1);
    }
  }

  /** The last byte of the encoding is the quotient by the weight of the others. */
  lemma {:induction false} LastByte(v: nat, n: nat)
    requires n >= 1 && v < Pow256(n)
    ensures ScalarBytes(v, n)[n - 1] * Pow256(n - 1) <= v
    decreases n
  {
    if n == 1 {
      assert Pow256(0) == 1;
    } else {
      LastByte(v / 256, n - 1);
      assert ScalarBytes(v, n)[n - 1] == ScalarBytes(v / 256, n - 1)[n - 2];
      assert Pow256(n - 1) == 256 * Pow256(n - 2);
      Shift(ScalarBytes(v, n)[n - 1], Pow256(n - 2), v);
    }
  }

  lemma Shift(b: nat, w: nat, v: nat)
    requires b * w <= v / 256
    ensures b * (256 * w) <= v
  {
    assert b * (256 * w) == 256 * (b * w);
  }
}
