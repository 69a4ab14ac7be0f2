/** Collective signing (golang-x-crypto/ed25519/cosi): commits, signature parts, their aggregation and
    their verification. The hash is a parameter. */
module Cosi {
  import opened Bytes
  import opened CosiGroup
  import opened CosiMask

  /** SHA-512, its 64 bytes read as a little-endian integer. */
  type Hash = seq<byte> -> nat

  datatype Policy = Full | Threshold(t: int)

  // ---- verification ----

  function Challenge<G>(c: Curve<G>, hash: Hash, message: seq<byte>, aggR: seq<byte>, aggr: G): nat {
    hash(aggR + c.enc(aggr) + message) % L
  }

  /** The point that must encode to the commit: s*B - h*A. */
  function CheckPoint<G>(c: Curve<G>, h: nat, sigS: seq<byte>, sigA: G): G {
    c.add(Mul(c, h, c.neg(sigA)), Mul(c, LittleEndian(sigS), c.base))
  }

  /** verify: the challenge comes from the aggregates, the checked key from the caller. */
  predicate Check<G>(c: Curve<G>, hash: Hash, message: seq<byte>, aggR: seq<byte>, sigR: seq<byte>, sigS: seq<byte>,
                     aggr: G, sigA: G) {
    && |sigR| == 32 && |sigS| == 32 && sigS[31] < 32
    && c.enc(CheckPoint(c, Challenge(c, hash, message, aggR, aggr), sigS, sigA)) == sigR
  }

  function ToBits(s: seq<byte>): (r: seq<bv8>)
    ensures |r| == |s| && forall i :: 0 <= i < |s| ==> r[i] == s[i] as bv8
  {
    seq<bv8>(|s|, i requires 0 <= i < |s| => s[i] as bv8)
  }

  function ZeroMask(n: nat): (r: seq<bv8>)
    ensures |r| == MaskLength(n) && forall i :: 0 <= i < |r| ==> r[i] == 0
  {
    seq<bv8>(MaskLength(n), _ => 0)
  }

  /** The mask a signature carries; a bare 64-byte signature stands for everyone. */
  function SignatureMask(n: nat, sig: seq<byte>): seq<bv8>
    requires |sig| >= 64
  {
    if |sig| > 64 then ToBits(sig[64..]) else ZeroMask(n)
  }

  function EnabledCount(mask: seq<bv8>, n: nat): (r: nat)
    ensures r <= n
    ensures r == n <==> forall i :: 0 <= i < n ==> !Disabled(mask, i)
  {
    if n == 0 then 0 else EnabledCount(mask, n - 1) + if Disabled(mask, n - 1) then 0 else 1
  }

  predicate PolicyAccepts(policy: Policy, mask: seq<bv8>, n: nat) {
    match policy
    case Full => EnabledCount(mask, n) == n
    case Threshold(t) => EnabledCount(mask, n) >= t
  }

  /** Does the list of keys accept the collective signature under the policy? */
  predicate Accepts<G>(c: Curve<G>, hash: Hash, keys: seq<G>, policy: Policy, message: seq<byte>, sig: seq<byte>) {
    && |sig| >= 64
    && var m := SignatureMask(|keys|, sig);
    var aggr := EnabledSum(c, keys, m);
    PolicyAccepts(policy, m, |keys|) && Check(c, hash, message, sig[..32], sig[..32], sig[32..64], aggr, aggr)
  }

  // ---- signing ----

  const TWO254: nat := 0x4000000000000000000000000000000000000000000000000000000000000000

  /** The scalar a private key expands to: low three bits clear, bit 254 the highest set. */
  function ExpandKey(hash: Hash, privateKey: seq<byte>): nat
    requires |privateKey| >= 32
  {
    var x := hash(privateKey[..32]) % TWO254;
    x - x % 8 + TWO254
  }

  /** The one-time commit to a secret scalar. */
  function CommitTo<G>(c: Curve<G>, r: nat): Bytes32 {
    c.enc(Mul(c, r, c.base))
  }

  /** h*a + r mod L, as 32 little-endian bytes. */
  function Part(h: nat, a: nat, r: nat): (s: seq<byte>)
    ensures |s| == 32
  {
    ScalarBytes((h * a + r) % L, 32)
  }

  class Secret {
    var reduced: nat
    var valid: bool

    /** Commit: reduce 64 random bytes and return the commit beside the secret. */
    constructor (random: nat)
      ensures reduced == random % L && valid
    {
      reduced, valid := random % L, true;
    }
  }

  /** Produce one part and use up the secret; None stands for the panics. */
  method Cosign<G>(c: Curve<G>, hash: Hash, privateKey: seq<byte>, secret: Secret, message: seq<byte>,
                   aggK: seq<byte>, aggR: seq<byte>) returns (s: Option<seq<byte>>)
    modifies secret
    ensures s.None? <==> |privateKey| != 64 || |aggR| != 32 || !old(secret.valid)
    ensures s.Some? ==> s.value == Part(hash(aggR + aggK + message) % L, ExpandKey(hash, privateKey),
                                        old(secret.reduced))
    ensures s.Some? ==> !secret.valid && secret.reduced == 0
    ensures s.None? ==> secret.valid == old(secret.valid) && secret.reduced == old(secret.reduced)
  {
    if |privateKey| != 64 || |aggR| != 32 || !secret.valid {
      return None;
    }
    var a := ExpandKey(hash, privateKey);
    var h := hash(aggR + aggK + message) % L;
    s := Some(ScalarBytes((h * a + secret.reduced) % L, 32));
    secret.reduced := 0;
    secret.valid := false;
  }

  // ---- aggregation ----

  function DecodeCommits<G>(c: Curve<G>, commits: seq<seq<byte>>): (r: Option<seq<G>>)
    ensures r.Some? ==> |r.value| == |commits|
  {
    if commits == [] then Some([])
    else
      var last := commits[|commits| - 1];
      match DecodeCommits(c, commits[..|commits| - 1])
      case None => None
      case Some(ps) =>
        if |last| != 32 then None
        else match c.dec(last) case None => None case Some(p) => Some(ps + [p])
  }

  /** What the aggregation functions return: bytes, nil, or a panic. */
  datatype Aggregated = Encoded(bytes: seq<byte>) | Nil | Panic

  /** AggregateCommit for n cosigners: all commits are added, and the mask is not consulted. A list that is too
      short is read past its end unless an earlier commit is bad. */
  function CommitSum<G>(c: Curve<G>, n: nat, commits: seq<seq<byte>>): Aggregated {
    match DecodeCommits(c, commits[..Min(n, |commits|)])
    case None => Nil
    case Some(ps) => if |commits| < n then Panic else Encoded(c.enc(Sum(c, ps)))
  }

  /** One more commit. */
  lemma DecodeStep<G>(c: Curve<G>, commits: seq<seq<byte>>, i: nat, ps: seq<G>)
    requires i < |commits| && DecodeCommits(c, commits[..i]) == Some(ps)
    ensures DecodeCommits(c, commits[..i + 1]) ==
            if |commits[i]| != 32 || c.dec(commits[i]).None? then None else Some(ps + [c.dec(commits[i]).value])
  {
    assert commits[..i + 1][..i] == commits[..i];
  }

  lemma SumStep<G>(c: Curve<G>, ps: seq<G>, p: G)
    ensures Sum(c, ps + [p]) == c.add(Sum(c, ps), p)
  {
    assert (ps + [p])[..|ps|] == ps;
  }

  /** A commit that does not decode makes the aggregate nil. */
  lemma BadCommit<G>(c: Curve<G>, n: nat, commits: seq<seq<byte>>, i: nat)
    requires i < n && i < |commits| && DecodeCommits(c, commits[..i + 1]).None?
    ensures CommitSum(c, n, commits) == Nil
  {
    var used := commits[..Min(n, |commits|)];
    assert used[..i + 1] == commits[..i + 1];
    Undecodable(c, used, i);
  }

  method AggregateCommit<G>(c: Curve<G>, n: nat, commits: seq<seq<byte>>) returns (r: Aggregated)
    ensures r == CommitSum(c, n, commits)
  {
    var aggR := c.zero;
    ghost var ps: seq<G> := [];
    var i := 0;
    while i < n
      invariant 0 <= i <= n && i <= |commits|
      invariant DecodeCommits(c, commits[..i]) == Some(ps) && aggR == Sum(c, ps)
    {
      if i >= |commits| {
        return Panic;
      }
      DecodeStep(c, commits, i, ps);
      if |commits[i]| != 32 || c.dec(commits[i]).None? {
        BadCommit(c, n, commits, i);
        return Nil;
      }
      var p := c.dec(commits[i]).value;
      SumStep(c, ps, p);
      aggR := c.add(aggR, p);
      ps := ps + [p];
      i := i + 1;
    }
    return Encoded(c.enc(aggR));
  }

  lemma {:induction false} Undecodable<G>(c: Curve<G>, commits: seq<seq<byte>>, i: nat)
    requires i < |commits| && DecodeCommits(c, commits[..i + 1]).None?
    ensures DecodeCommits(c, commits).None?
    decreases |commits|
  {
    if i + 1 < |commits| {
      assert commits[..|commits| - 1][..i + 1] == commits[..i + 1];
      Undecodable(c, commits[..|commits| - 1], i);
    } else {
      assert commits[..i + 1] == commits;
    }
  }

  function ScalarSum(parts: seq<seq<byte>>): nat {
    if parts == [] then 0 else ScalarSum(parts[..|parts| - 1]) + LittleEndian(parts[|parts| - 1])
  }

  /** R, then the sum of the parts modulo L. */
  function Joined(aggR: seq<byte>, parts: seq<seq<byte>>): (sig: seq<byte>)
    ensures |sig| == |aggR| + 32
  {
    aggR + ScalarBytes(ScalarSum(parts) % L, 32)
  }

  /** AggregateSignature for n cosigners: all parts are added modulo L, and the mask is not consulted. */
  function PartSum(n: nat, aggR: seq<byte>, parts: seq<seq<byte>>): Aggregated {
    if |aggR| != 32 then Panic
    else if exists i :: 0 <= i < Min(n, |parts|) && |parts[i]| != 32 then Nil
    else if |parts| < n then Panic
    else Encoded(Joined(aggR, parts[..n]))
  }

  method AggregateSignature(n: nat, aggR: seq<byte>, parts: seq<seq<byte>>) returns (sig: Aggregated)
    ensures sig == PartSum(n, aggR, parts)
  {
    if |aggR| != 32 {
      return Panic;
    }
    var aggS := 0;
    var i := 0;
    while i < n
      invariant 0 <= i <= n && i <= |parts| && forall j :: 0 <= j < i ==> |parts[j]| == 32
      invariant aggS == ScalarSum(parts[..i]) % L
    {
      if i >= |parts| {
        return Panic;
      }
      if |parts[i]| != 32 {
        return Nil;
      }
      ScalarSumStep(parts, i);
      aggS := (aggS * 1 + LittleEndian(parts[i])) % L;
      i := i + 1;
    }
    return Encoded(aggR + ScalarBytes(aggS, 32));
  }

  lemma ScalarSumStep(parts: seq<seq<byte>>, i: nat)
    requires i < |parts|
    ensures (ScalarSum(parts[..i]) % L * 1 + LittleEndian(parts[i])) % L == ScalarSum(parts[..i + 1]) % L
  {
    assert parts[..i + 1][..i] == parts[..i];
    AddReduced(ScalarSum(parts[..i]), LittleEndian(parts[i]));
  }

  lemma AddReduced(a: nat, b: nat)
    ensures (a % L + b) % L == (a + b) % L
  {
  }

  // ---- valid parts make a valid whole ----

  lemma {:induction false} PowDoubles(n: nat)
    ensures Pow256(2 * n) == Pow256(n) * Pow256(n)
  {
    if n != 0 {
      PowDoubles(n - 1);
      assert Pow256(2 * n) == 256 * Pow256(2 * n - 1) && Pow256(2 * n - 1) == 256 * Pow256(2 * (n - 1));
      Square(Pow256(n - 1));
    }
  }

  lemma Square(x: nat)
    ensures (256 * x) * (256 * x) == 256 * (256 * (x * x))
  {
  }

  lemma ReducedScalar(v: nat)
    requires v < L
    ensures LittleEndian(ScalarBytes(v, 32)) == v && ScalarBytes(v, 32)[31] < 32
  {
    PowersOf256();
    ScalarRoundTrip(v, 32);
    LastByte(v, 32);
    HighBits(ScalarBytes(v, 32)[31], Pow256(31), v);
  }

  const TWO248: nat := 0x1_00000000000000_0000000000000000_0000000000000000_0000000000000000

  lemma PowersOf256()
    ensures Pow256(31) == TWO248 && Pow256(32) == 256 * TWO248
  {
    PowDoubles(8);
    PowDoubles(16);
    assert Pow256(8) == TWO64;
    assert Pow256(32) == 256 * Pow256(31);
  }

  lemma HighBits(b: nat, weight: nat, v: nat)
    requires weight == TWO248 && b * weight <= v < L
    ensures b < 32
  {
  }

  /** A part made by Cosign from the secret of its own commit is accepted by VerifyPart. */
  lemma HonestPartAccepted<G(!new)>(c: Curve<G>, hash: Hash, message: seq<byte>, aggR: seq<byte>, aggr: G, a: nat,
                                    r: nat)
    requires Laws(c)
    ensures var h := Challenge(c, hash, message, aggR, aggr);
            Check(c, hash, message, aggR, CommitTo(c, r), Part(h, a, r), aggr, Mul(c, a, c.base))
  {
    HonestPartFor(c, Challenge(c, hash, message, aggR, aggr), a, r);
  }

  lemma HonestPartFor<G(!new)>(c: Curve<G>, h: nat, a: nat, r: nat)
    requires Laws(c)
    ensures Part(h, a, r)[31] < 32 && CheckPoint(c, h, Part(h, a, r), Mul(c, a, c.base)) == Mul(c, r, c.base)
  {
    var A, k := Mul(c, a, c.base), h * a;
    assert Mul(c, k, c.base) == Mul(c, h, A) by { MulMul(c, h, a, c.base); }
    PartOpensCommit(c, h, A, k, r);
    assert Part(h, a, r) == ScalarBytes((k + r) % L, 32);
  }

  /** (k + r)B - hA = rB when kB = hA, with the scalar reduced and encoded. */
  lemma PartOpensCommit<G(!new)>(c: Curve<G>, h: nat, A: G, k: nat, r: nat)
    requires Laws(c) && Mul(c, k, c.base) == Mul(c, h, A)
    ensures var s := ScalarBytes((k + r) % L, 32);
            s[31] < 32 && CheckPoint(c, h, s, A) == Mul(c, r, c.base)
  {
    ReducedScalar((k + r) % L);
    BaseModL(c, k + r);
    MulAdd(c, k, r, c.base);
    Assoc(c, Mul(c, h, c.neg(A)), Mul(c, h, A), Mul(c, r, c.base));
    MulNeg(c, h, A);
    Zero(c, Mul(c, r, c.base));
  }

  /** The point h*(-A) + s*B. */
  ghost function Whole<G>(c: Curve<G>, h: nat, key: G, scalar: nat): G {
    c.add(Mul(c, h, c.neg(key)), Mul(c, scalar, c.base))
  }

  /** One more part: its checked point and the sum of the earlier ones. */
  lemma CheckPointsStep<G(!new)>(c: Curve<G>, h: nat, keys: G, key: G, scalars: nat, scalar: nat)
    requires Laws(c)
    ensures c.add(Whole(c, h, keys, scalars), Whole(c, h, key, scalar))
        == Whole(c, h, c.add(keys, key), scalars + scalar)
  {
    NegSum(c, keys, key);
    MulSum(c, h, c.neg(keys), c.neg(key));
    MulAdd(c, scalars, scalar, c.base);
    Interchange(c, Mul(c, h, c.neg(keys)), Mul(c, scalars, c.base), Mul(c, h, c.neg(key)), Mul(c, scalar, c.base));
  }

  lemma CheckPointsMore<G(!new)>(c: Curve<G>, h: nat, keys: G, scalars: nat, key: G, part: seq<byte>)
    requires Laws(c)
    ensures c.add(Whole(c, h, keys, scalars), CheckPoint(c, h, part, key))
         == Whole(c, h, c.add(keys, key), scalars + LittleEndian(part))
  {
    CheckPointsStep(c, h, keys, key, scalars, LittleEndian(part));
  }

  lemma CheckPointsNone<G(!new)>(c: Curve<G>, h: nat)
    requires Laws(c)
    ensures c.add(Mul(c, h, c.neg(c.zero)), Mul(c, 0, c.base)) == c.zero
  {
    Zero(c, c.zero);
    NegUnique(c, c.zero, c.zero);
    MulZero(c, h);
  }

  ghost predicate PointsOf<G>(c: Curve<G>, h: nat, keys: seq<G>, parts: seq<seq<byte>>, points: seq<G>) {
    && |keys| == |parts| == |points|
    && forall i :: 0 <= i < |keys| ==> points[i] == CheckPoint(c, h, parts[i], keys[i])
  }

  lemma PointsInit<G>(c: Curve<G>, h: nat, keys: seq<G>, parts: seq<seq<byte>>, points: seq<G>, n: nat)
    requires PointsOf(c, h, keys, parts, points) && |keys| == n + 1
    ensures PointsOf(c, h, keys[..n], parts[..n], points[..n]) && points[n] == CheckPoint(c, h, parts[n], keys[n])
    ensures Sum(c, keys) == c.add(Sum(c, keys[..n]), keys[n]) && Sum(c, points) == c.add(Sum(c, points[..n]), points[n])
    ensures ScalarSum(parts) == ScalarSum(parts[..n]) + LittleEndian(parts[n])
  {
  }

  /** The points checked for the single parts add up to the point checked for the whole. */
  lemma {:induction false} CheckPointsAdd<G(!new)>(c: Curve<G>, h: nat, keys: seq<G>, parts: seq<seq<byte>>,
                                                   points: seq<G>)
    requires Laws(c) && PointsOf(c, h, keys, parts, points)
    ensures Sum(c, points) == Whole(c, h, Sum(c, keys), ScalarSum(parts))
    decreases |keys|
  {
    if keys == [] {
      CheckPointsNone(c, h);
    } else {
      var n := |keys| - 1;
      PointsInit(c, h, keys, parts, points, n);
      CheckPointsAdd(c, h, keys[..n], parts[..n], points[..n]);
      CheckPointsMore(c, h, Sum(c, keys[..n]), ScalarSum(parts[..n]), keys[n], parts[n]);
    }
  }

  /** Commits that encode points decode to those points. */
  lemma {:induction false} CommitsDecode<G(!new)>(c: Curve<G>, commits: seq<seq<byte>>, points: seq<G>)
    requires Laws(c) && |commits| == |points|
    requires forall i :: 0 <= i < |commits| ==> commits[i] == c.enc(points[i])
    ensures DecodeCommits(c, commits) == Some(points)
    decreases |commits|
  {
    if commits != [] {
      var n := |commits| - 1;
      CommitsDecode(c, commits[..n], points[..n]);
      Decode(c, points[n]);
      assert points == points[..n] + [points[n]];
    }
  }

  ghost function Points<G>(c: Curve<G>, h: nat, keys: seq<G>, parts: seq<seq<byte>>): (r: seq<G>)
    requires |keys| == |parts|
    ensures |r| == |keys| && forall i :: 0 <= i < |keys| ==> r[i] == CheckPoint(c, h, parts[i], keys[i])
  {
    seq(|keys|, i requires 0 <= i < |keys| => CheckPoint(c, h, parts[i], keys[i]))
  }

  /** Every cosigner's part passes VerifyPart while the aggregate key is aggr, and aggR adds up all commits. */
  ghost predicate PartsPass<G>(c: Curve<G>, hash: Hash, keys: seq<G>, message: seq<byte>, commits: seq<seq<byte>>,
                               parts: seq<seq<byte>>, aggR: seq<byte>, aggr: G) {
    && |commits| == |parts| == |keys|
    && CommitSum(c, |keys|, commits) == Encoded(aggR)
    && forall i :: 0 <= i < |keys| ==> Check(c, hash, message, aggR, commits[i], parts[i], aggr, keys[i])
  }

  /** The aggregate commit is the point h*(-A) + S for the sum A of all keys and the sum S of all parts. */
  lemma PartsAddUp<G(!new)>(c: Curve<G>, hash: Hash, keys: seq<G>, message: seq<byte>, commits: seq<seq<byte>>,
                            parts: seq<seq<byte>>, aggR: seq<byte>, aggr: G)
    requires Laws(c) && PartsPass(c, hash, keys, message, commits, parts, aggR, aggr)
    ensures var h := Challenge(c, hash, message, aggR, aggr);
            aggR == c.enc(c.add(Mul(c, h, c.neg(Sum(c, keys))), Mul(c, ScalarSum(parts), c.base)))
  {
    var h := Challenge(c, hash, message, aggR, aggr);
    var points := Points(c, h, keys, parts);
    forall i | 0 <= i < |commits|
      ensures commits[i] == c.enc(points[i])
    {
      assert Check(c, hash, message, aggR, commits[i], parts[i], aggr, keys[i]);
    }
    CommitsDecode(c, commits, points);
    assert commits[..|keys|] == commits;
    CheckPointsAdd(c, h, keys, parts, points);
  }

  /** The encoding tells points apart. */
  lemma EncodeInjective<G(!new)>(c: Curve<G>, p: G, q: G)
    requires Laws(c)
    ensures c.enc(p) == c.enc(q) <==> p == q
  {
    Decode(c, p);
    Decode(c, q);
  }

  /** The joined signature is accepted for a key A under challenge h2 exactly when h2*A is h times all keys. */
  lemma WholeExact<G(!new)>(c: Curve<G>, hash: Hash, keys: seq<G>, message: seq<byte>, commits: seq<seq<byte>>,
                            parts: seq<seq<byte>>, aggR: seq<byte>, aggr: G, other: G)
    requires Laws(c) && PartsPass(c, hash, keys, message, commits, parts, aggR, aggr)
    ensures var h, h2 := Challenge(c, hash, message, aggR, aggr), Challenge(c, hash, message, aggR, other);
            Check(c, hash, message, aggR, aggR, ScalarBytes(ScalarSum(parts) % L, 32), other, other)
            <==> Mul(c, h2, other) == Mul(c, h, Sum(c, keys))
  {
    var h, h2 := Challenge(c, hash, message, aggR, aggr), Challenge(c, hash, message, aggR, other);
    PartsAddUp(c, hash, keys, message, commits, parts, aggR, aggr);
    var s := Mul(c, ScalarSum(parts), c.base);
    BaseModL(c, ScalarSum(parts));
    ReducedScalar(ScalarSum(parts) % L);
    var p, q := Mul(c, h2, c.neg(other)), Mul(c, h, c.neg(Sum(c, keys)));
    EncodeInjective(c, c.add(p, s), c.add(q, s));
    CancelLeft(c, s, p, q);
    MulNegEqual(c, h2, other, h, Sum(c, keys));
  }

  /** A signature that carries the mask the parts were checked under: it is accepted exactly when the policy
      accepts the mask and the challenge cancels the disabled keys, whose parts were added all the same. */
  lemma MaskedSignature<G(!new)>(c: Curve<G>, hash: Hash, keys: seq<G>, policy: Policy, message: seq<byte>,
                                 commits: seq<seq<byte>>, parts: seq<seq<byte>>, aggR: seq<byte>, mask: seq<byte>)
    requires Laws(c) && mask != []
    requires PartsPass(c, hash, keys, message, commits, parts, aggR, EnabledSum(c, keys, ToBits(mask)))
    ensures var m := ToBits(mask);
            var h := Challenge(c, hash, message, aggR, EnabledSum(c, keys, m));
            Accepts(c, hash, keys, policy, message, Joined(aggR, parts) + mask)
            <==> PolicyAccepts(policy, m, |keys|) && Mul(c, h, DisabledSum(c, keys, m)) == c.zero
  {
    var m := ToBits(mask);
    var e, d := EnabledSum(c, keys, m), DisabledSum(c, keys, m);
    var h := Challenge(c, hash, message, aggR, e);
    JoinedParts(aggR, parts, mask);
    WholeExact(c, hash, keys, message, commits, parts, aggR, e, e);
    SumSplits(c, keys, m);
    MulSum(c, h, e, d);
    Zero(c, Mul(c, h, e));
    CancelLeft(c, Mul(c, h, e), c.zero, Mul(c, h, d));
  }

  lemma JoinedParts(aggR: seq<byte>, parts: seq<seq<byte>>, mask: seq<byte>)
    requires |aggR| == 32
    ensures var sig := Joined(aggR, parts) + mask;
            sig[..32] == aggR && sig[32..64] == ScalarBytes(ScalarSum(parts) % L, 32) && sig[64..] == mask
  {
  }

  /** The bare signature AggregateSignature returns stands for everyone: it is accepted exactly when the policy
      accepts a full committee and the challenge under all keys has the effect of the one the parts answer. */
  lemma BareSignature<G(!new)>(c: Curve<G>, hash: Hash, keys: seq<G>, policy: Policy, message: seq<byte>,
                               commits: seq<seq<byte>>, parts: seq<seq<byte>>, aggR: seq<byte>, m: seq<bv8>)
    requires Laws(c) && PartsPass(c, hash, keys, message, commits, parts, aggR, EnabledSum(c, keys, m))
    ensures var all := Sum(c, keys);
            var h := Challenge(c, hash, message, aggR, EnabledSum(c, keys, m));
            Accepts(c, hash, keys, policy, message, Joined(aggR, parts))
            <==> PolicyAccepts(policy, ZeroMask(|keys|), |keys|)
                 && Mul(c, Challenge(c, hash, message, aggR, all), all) == Mul(c, h, all)
  {
    var all := Sum(c, keys);
    JoinedParts(aggR, parts, []);
    assert Joined(aggR, parts) + [] == Joined(aggR, parts);
    WholeExact(c, hash, keys, message, commits, parts, aggR, EnabledSum(c, keys, m), all);
    NobodyDisabled(|keys|);
    AllEnabledSum(c, keys, ZeroMask(|keys|));
  }

  /** With all cosigners enabled, if every part passes VerifyPart under the aggregate commit, the
      aggregate signature passes Verify. */
  lemma ValidPartsMakeValidWhole<G(!new)>(c: Curve<G>, hash: Hash, keys: seq<G>, message: seq<byte>,
                                          commits: seq<seq<byte>>, parts: seq<seq<byte>>, aggR: seq<byte>)
    requires Laws(c) && PartsPass(c, hash, keys, message, commits, parts, aggR, Sum(c, keys))
    ensures Accepts(c, hash, keys, Full, message, Joined(aggR, parts))
  {
    NobodyDisabled(|keys|);
    AllEnabledSum(c, keys, ZeroMask(|keys|));
    BareSignature(c, hash, keys, Full, message, commits, parts, aggR, ZeroMask(|keys|));
  }

  lemma NobodyDisabled(n: nat)
    ensures forall i :: 0 <= i < n ==> !Disabled(ZeroMask(n), i)
  {
    forall i | 0 <= i < n
      ensures !Disabled(ZeroMask(n), i)
    {
      ZeroByte(i % 8);
    }
  }

  lemma ZeroByte(k: nat)
    requires k < 8
    ensures !Has(0, k)
  {
  }
}
