/** A group that meets the laws the CoSi results rest on: the residues modulo L, encoded as 32 little-endian
    bytes. The laws are therefore consistent, and hold of a cyclic group of the right order. */
module CosiResidues {
  import opened Bytes
  import opened CosiGroup
  import opened CosiMask
  import opened Cosi
  import opened Cosigners

  newtype Residue = x: int | 0 <= x < L

  function Plus(p: Residue, q: Residue): Residue { ((p as int + q as int) % L) as Residue }

  function Minus(p: Residue): Residue { ((L - p as int) % L) as Residue }

  function Written(p: Residue): Bytes32 { ScalarBytes(p as int, 32) }

  function Decoded(s: Bytes32): Option<Residue> {
    if LittleEndian(s) < L then Some(LittleEndian(s) as Residue) else None
  }

  function ResidueCurve(): Curve<Residue> { Curve(0, Plus, Minus, 1, Written, Decoded) }

  lemma PlusAssociates(p: Residue, q: Residue, r: Residue)
    ensures Plus(Plus(p, q), r) == Plus(p, Plus(q, r))
  {
    PlusIs(p, q);
    PlusIs(Plus(p, q), r);
    PlusIs(q, r);
    PlusIs(p, Plus(q, r));
  }

  lemma PlusIs(p: Residue, q: Residue)
    ensures Plus(p, q) as int == p as int + q as int - if p as int + q as int < L then 0 else L
  {
  }

  lemma MinusCancels(p: Residue)
    ensures Plus(p, 0) == p && Plus(p, Minus(p)) == 0
  {
  }

  lemma WrittenDecodes(p: Residue)
    ensures Decoded(Written(p)) == Some(p)
  {
    ReducedScalar(p as int);
  }

  lemma {:induction false} MulIsResidue(k: nat)
    ensures Mul(ResidueCurve(), k, 1) as int == k % L
  {
    if k > 0 {
      MulIsResidue(k - 1);
      assert ((k - 1) % L + 1) % L == k % L;
    }
  }

  /** The laws are those of an existing group, so no result that assumes them is empty. */
  lemma ResiduesObeyLaws()
    ensures Laws(ResidueCurve())
  {
    var c := ResidueCurve();
    forall p: Residue, q: Residue, r: Residue
      ensures Associates(c, p, q, r)
    {
      PlusAssociates(p, q, r);
    }
    forall p: Residue
      ensures Neutral(c, p) && Decodes(c, p)
    {
      MinusCancels(p);
      WrittenDecodes(p);
    }
    MulIsResidue(L);
  }

  // ---- a disabled cosigner ----

  /** A hash that returns the first byte of the aggregate key. */
  function KeyByte(s: seq<byte>): nat { if |s| > 32 then s[32] else 0 }

  const TWO_KEYS: seq<Residue> := [1, 1]

  /** Both cosigners commit to zero and answer the challenge 1 with the scalar 1. */
  function TwoCommits(): seq<seq<byte>> { [Written(0), Written(0)] }

  function TwoParts(): seq<seq<byte>> { [ScalarBytes(1, 32), ScalarBytes(1, 32)] }

  /** The mask 2 disables the second of them. */
  lemma SecondDisabled()
    ensures var m := ToBits([2]);
            EnabledSum(ResidueCurve(), TWO_KEYS, m) == 1 && DisabledSum(ResidueCurve(), TWO_KEYS, m) == 1
    ensures Sum(ResidueCurve(), TWO_KEYS) == 2
  {
    var c, m := ResidueCurve(), ToBits([2]);
    assert m == [2] && !Has(2, 0) && Has(2, 1);
    assert !Disabled(m, 0) && Disabled(m, 1);
    assert TWO_KEYS[..1][..0] == [];
    assert EnabledSum(c, TWO_KEYS[..1], m) == c.add(c.zero, 1) == 1;
    assert DisabledSum(c, TWO_KEYS[..1], m) == c.zero;
    assert Sum(c, TWO_KEYS[..1]) == c.add(c.zero, 1) == 1;
  }

  lemma {:induction false} SmallScalar(v: nat, n: nat)
    requires v < 256 && n >= 1
    ensures ScalarBytes(v, n)[0] == v && (n >= 2 ==> ScalarBytes(v, n)[n - 1] == 0)
    decreases n
  {
    if n >= 2 {
      SmallScalar(0, n - 1);
    }
  }

  /** The challenge under a small aggregate key is that key. */
  lemma KeyChallenge(k: Residue, message: seq<byte>)
    requires k < 256
    ensures Challenge(ResidueCurve(), KeyByte, message, Written(0), k) == k as int
  {
    SmallScalar(k as int, 32);
    var s := Written(0) + Written(k) + message;
    assert s[32] == Written(k)[0];
  }

  lemma OneIsOne()
    ensures Mul(ResidueCurve(), 1, Minus(1)) == Minus(1) && Mul(ResidueCurve(), 1, 1) == 1
    ensures LittleEndian(ScalarBytes(1, 32)) == 1 && ScalarBytes(1, 32)[31] == 0
  {
    var c := ResidueCurve();
    assert Mul(c, 1, Minus(1)) == c.add(Mul(c, 0, Minus(1)), Minus(1));
    assert Mul(c, 1, 1) == c.add(Mul(c, 0, 1), 1);
    ReducedScalar(1);
    SmallScalar(1, 32);
  }

  lemma CheckIsZero(part: seq<byte>)
    requires LittleEndian(part) == 1
    ensures CheckPoint(ResidueCurve(), 1, part, 1) == 0
  {
    var c := ResidueCurve();
    OneIsOne();
    MinusCancels(1);
    assert CheckPoint(c, 1, part, 1) == c.add(Mul(c, 1, Minus(1)), Mul(c, 1, 1));
  }

  lemma OnePartPasses(message: seq<byte>, part: seq<byte>)
    requires |part| == 32 && part[31] == 0 && LittleEndian(part) == 1
    ensures Check(ResidueCurve(), KeyByte, message, Written(0), Written(0), part, 1, 1)
  {
    KeyChallenge(1, message);
    CheckIsZero(part);
  }

  lemma ZerosAdd(zeros: seq<Residue>)
    requires zeros == [0, 0]
    ensures Sum(ResidueCurve(), zeros) == 0
  {
    var c := ResidueCurve();
    assert zeros[..1][..0] == [] && Sum(c, zeros[..1]) == c.add(Sum(c, zeros[..1][..0]), 0);
    assert Sum(c, zeros) == c.add(Sum(c, zeros[..1]), 0);
  }

  lemma CommitsAdd<G(!new)>(c: Curve<G>, commits: seq<seq<byte>>, points: seq<G>)
    requires Laws(c) && |commits| == |points|
    requires forall i :: 0 <= i < |commits| ==> commits[i] == c.enc(points[i])
    ensures CommitSum(c, |commits|, commits) == Encoded(c.enc(Sum(c, points)))
  {
    CommitsDecode(c, commits, points);
    assert commits[..|commits|] == commits;
  }

  lemma TwoCommitsAdd()
    ensures CommitSum(ResidueCurve(), 2, TwoCommits()) == Encoded(Written(0))
  {
    var zeros: seq<Residue> := [0, 0];
    ResiduesObeyLaws();
    CommitsAdd(ResidueCurve(), TwoCommits(), zeros);
    ZerosAdd(zeros);
  }

  /** Both parts pass VerifyPart while the second cosigner is disabled. */
  lemma TwoPartsPass(message: seq<byte>)
    ensures PartsPass(ResidueCurve(), KeyByte, TWO_KEYS, message, TwoCommits(), TwoParts(), Written(0),
                      EnabledSum(ResidueCurve(), TWO_KEYS, ToBits([2])))
  {
    SecondDisabled();
    TwoPass(message, 1);
  }

  lemma TwoPass(message: seq<byte>, aggr: Residue)
    requires aggr == 1
    ensures PartsPass(ResidueCurve(), KeyByte, TWO_KEYS, message, TwoCommits(), TwoParts(), Written(0), aggr)
  {
    TwoCommitsAdd();
    OneIsOne();
    OnePartPasses(message, ScalarBytes(1, 32));
  }

  /** Multiples of the aggregate keys 1 and 2 by the challenges 1 and 2. */
  lemma SmallMultiples()
    ensures var c := ResidueCurve(); Mul(c, 1, 1) == 1 && Mul(c, 1, 2) == 2 && Mul(c, 2, 2) == 4
  {
    var c := ResidueCurve();
    assert Mul(c, 1, 1) == c.add(Mul(c, 0, 1), 1);
    assert Mul(c, 1, 2) == c.add(Mul(c, 0, 2), 2);
    assert Mul(c, 2, 2) == c.add(Mul(c, 1, 2), 2);
  }

  /** An empty second key is taken for a copy of the first, so two lists that differ in their first key alone
      give the second signer different keys. */
  lemma EmptyKeyCopies(k: Residue)
    ensures DecodeKeys(ResidueCurve(), ZERO32, [Written(k), []]) == Some([k, k])
  {
    var c, none, noKeys := ResidueCurve(), [], [];
    var first: Bytes32 := Written(k);
    WrittenDecodes(k);
    assert first[..32] == first;
    DecodeOneMore(c, none, noKeys, first, k);
    assert none + [first] == [first] && noKeys + [k] == [k];
    assert [first][..0] == none && BufferAfter(ZERO32, [first]) == first;
    assert CopyInto(first, []) == first;
    DecodeOneMore(c, [first], [k], [], k);
    assert [first] + [[]] == [first, []] && [k] + [k] == [k, k];
  }

  /** And yet no policy makes Verify accept the signature with its mask. */
  lemma MaskedSpoiled(policy: Policy, message: seq<byte>)
    ensures PartsPass(ResidueCurve(), KeyByte, TWO_KEYS, message, TwoCommits(), TwoParts(), Written(0),
                      EnabledSum(ResidueCurve(), TWO_KEYS, ToBits([2])))
    ensures !Accepts(ResidueCurve(), KeyByte, TWO_KEYS, policy, message, Joined(Written(0), TwoParts()) + [2])
  {
    TwoPartsPass(message);
    SecondDisabled();
    ResiduesObeyLaws();
    MaskedSignature(ResidueCurve(), KeyByte, TWO_KEYS, policy, message, TwoCommits(), TwoParts(), Written(0), [2]);
    KeyChallenge(1, message);
    SmallMultiples();
  }

  /** Nor without it, as AggregateSignature returns it. */
  lemma BareSpoiled(policy: Policy, message: seq<byte>)
    ensures PartsPass(ResidueCurve(), KeyByte, TWO_KEYS, message, TwoCommits(), TwoParts(), Written(0),
                      EnabledSum(ResidueCurve(), TWO_KEYS, ToBits([2])))
    ensures !Accepts(ResidueCurve(), KeyByte, TWO_KEYS, policy, message, Joined(Written(0), TwoParts()))
  {
    TwoPartsPass(message);
    SecondDisabled();
    ResiduesObeyLaws();
    BareSignature(ResidueCurve(), KeyByte, TWO_KEYS, policy, message, TwoCommits(), TwoParts(), Written(0),
                  ToBits([2]));
    KeyChallenge(1, message);
    KeyChallenge(2, message);
    SmallMultiples();
  }
}
