/** The Cosigners object of golang-x-crypto/ed25519/cosi in the source's own form: a mutable bitmask
    beside a cached aggregate key that every operation must keep in step. */
module Cosigners {
  import opened Bytes
  import opened CosiGroup
  import opened CosiMask
  import opened Cosi

  class Cosigners<G(!new)> {
    const curve: Curve<G>
    const hash: Hash
    const keys: seq<G>
    const mask: array<bv8>
    var aggr: G
    var policy: Policy

    /** The mask has one bit per key and nothing beyond; the cached key is the sum of the enabled ones. */
    ghost predicate Valid()
      reads this, mask
    {
      && Laws(curve)
      && mask.Length == MaskLength(|keys|)
      && (forall i :: |keys| <= i < 8 * mask.Length ==> !Disabled(mask[..], i))
      && aggr == EnabledSum(curve, keys, mask[..])
    }

    /** Everyone enabled. */
    constructor (curve: Curve<G>, hash: Hash, keys: seq<G>, aggr: G)
      requires Laws(curve) && aggr == Sum(curve, keys)
      ensures Valid() && fresh(mask) && this.curve == curve && this.hash == hash && this.keys == keys && policy == Full
      ensures Trims(mask[..], [], |keys|)
    {
      this.curve, this.hash, this.keys, this.aggr, this.policy := curve, hash, keys, aggr, Full;
      var m := new bv8[MaskLength(|keys|)](_ => 0);
      mask := m;
      new;
      forall i | 0 <= i < 8 * mask.Length
        ensures !Disabled(mask[..], i)
      {
        ZeroByte(i % 8);
      }
      AllEnabledSum(curve, keys, mask[..]);
    }

    /** Enable or disable one cosigner, moving its key into or out of the cached sum. */
    method SetMaskBit(signer: nat, disable: bool)
      requires Valid() && signer < |keys|
      modifies this`aggr, mask
      ensures Valid()
      ensures forall j :: 0 <= j < 8 * mask.Length ==>
                Disabled(mask[..], j) == if j == signer then disable else old(Disabled(mask[..], j))
    {
      var byt := signer / 8;
      var disabled := MaskBit(signer);
      if disable && !disabled {
        RewriteByte(mask[byt], signer % 8);
        WriteBit(signer, mask[byt] | Bit(signer % 8), true, curve.add(aggr, curve.neg(keys[signer])));
      }
      if !disable && disabled {
        RewriteByte(mask[byt], signer % 8);
        WriteBit(signer, mask[byt] & !Bit(signer % 8), false, curve.add(aggr, keys[signer]));
      }
    }

    /** Store a mask byte with one bit flipped together with the sum that goes with it. */
    method WriteBit(signer: nat, b: bv8, disable: bool, newAggr: G)
      requires Valid() && signer < |keys| && Disabled(mask[..], signer) != disable
      requires Rewrites(mask[signer / 8], b, signer % 8, disable)
      requires newAggr == if disable then curve.add(aggr, curve.neg(keys[signer])) else curve.add(aggr, keys[signer])
      modifies this`aggr, mask
      ensures Valid()
      ensures forall j :: 0 <= j < 8 * mask.Length ==>
                Disabled(mask[..], j) == if j == signer then disable else old(Disabled(mask[..], j))
    {
      ghost var was := mask[..];
      mask[signer / 8] := b;
      aggr := newAggr;
      Rewritten(was, signer, disable);
      if disable {
        EnabledSumFlip(curve, keys, was, mask[..], signer);
        AddSub(curve, EnabledSum(curve, keys, mask[..]), keys[signer]);
      } else {
        EnabledSumFlip(curve, keys, mask[..], was, signer);
      }
    }

    /** The bits after one byte of the mask has been rewritten. */
    lemma Rewritten(was: seq<bv8>, signer: nat, disable: bool)
      requires |was| == mask.Length && signer / 8 < |was|
      requires mask[..] == was[signer / 8 := mask[signer / 8]]
          && Rewrites(was[signer / 8], mask[signer / 8], signer % 8, disable)
      ensures forall j :: 0 <= j < 8 * mask.Length ==>
                Disabled(mask[..], j) == if j == signer then disable else Disabled(was, j)
    {
      forall j | 0 <= j < 8 * mask.Length
        ensures Disabled(mask[..], j) == if j == signer then disable else Disabled(was, j)
      {
        FlipBit(was, signer, mask[signer / 8], disable, j);
      }
    }

    /** Take over a whole mask; bytes it lacks enable their cosigners, bits past the last key are
        ignored. The result does not depend on the mask held before. */
    method SetMask(m: seq<bv8>)
      requires Valid()
      modifies this`aggr, mask
      ensures Valid() && Trims(mask[..], m, |keys|)
    {
      for i := 0 to |keys|
        invariant Valid()
        invariant SameBits(mask[..], m, i)
      {
        SetMaskBit(i, i / 8 < |m| && m[i / 8] & Bit(i % 8) != 0);
      }
    }

    method CountEnabled() returns (count: nat)
      requires Valid()
      ensures count == EnabledCount(mask[..], |keys|)
    {
      count := 0;
      for i := 0 to |keys|
        invariant count == EnabledCount(mask[..], i)
      {
        if mask[i / 8] & Bit(i % 8) == 0 {
          count := count + 1;
        }
      }
    }

    method MaskBit(signer: nat) returns (disabled: bool)
      requires Valid() && signer < |keys|
      ensures disabled == Disabled(mask[..], signer)
    {
      disabled := mask[signer / 8] & Bit(signer % 8) != 0;
    }

    /** Check one cosigner's part against the aggregates. */
    method VerifyPart(message: seq<byte>, aggR: seq<byte>, signer: nat, indR: seq<byte>, indS: seq<byte>)
        returns (ok: bool)
      requires Valid() && signer < |keys|
      ensures ok == Check(curve, hash, message, aggR, indR, indS, EnabledSum(curve, keys, mask[..]), keys[signer])
    {
      ok := Check(curve, hash, message, aggR, indR, indS, aggr, keys[signer]);
    }

    /** Take over the signature's mask, consult the policy and check the signature. The verdict is a
        function of the keys and the policy alone: earlier masks do not matter. */
    method Verify(message: seq<byte>, sig: seq<byte>) returns (ok: bool)
      requires Valid()
      modifies this`aggr, mask
      ensures Valid()
      ensures ok == Accepts(curve, hash, keys, policy, message, sig)
      ensures |sig| < 64 ==> mask[..] == old(mask[..])
      ensures |sig| >= 64 ==> Trims(mask[..], SignatureMask(|keys|, sig), |keys|)
    {
      if |sig| < 64 {
        return false;
      }
      var m := SignatureMask(|keys|, sig);
      SetMask(m);
      EnabledSumSame(curve, keys, mask[..], m);
      var count := CountEnabled();
      SameCount(mask[..], m, |keys|);
      var acceptable := match policy case Full => count == |keys| case Threshold(t) => count >= t;
      if !acceptable {
        return false;
      }
      ok := Check(curve, hash, message, sig[..32], sig[..32], sig[32..64], aggr, aggr);
    }
  }

  lemma {:induction false} SameCount(m: seq<bv8>, m': seq<bv8>, n: nat)
    requires SameBits(m, m', n)
    ensures EnabledCount(m, n) == EnabledCount(m', n)
  {
    if n != 0 { SameCount(m, m', n - 1); }
  }

  // ---- creating an object ----

  /** Copy a key over the shared 32-byte buffer; a short key leaves the buffer's tail in place. */
  function CopyInto(buf: Bytes32, key: seq<byte>): Bytes32 {
    if |key| >= 32 then key[..32] else key + buf[|key|..]
  }

  /** The buffer after the keys have been copied through it one by one. */
  function BufferAfter(buf: Bytes32, publicKeys: seq<seq<byte>>): Bytes32 {
    if publicKeys == [] then buf
    else CopyInto(BufferAfter(buf, publicKeys[..|publicKeys| - 1]), publicKeys[|publicKeys| - 1])
  }

  function DecodeKeys<G>(c: Curve<G>, buf: Bytes32, publicKeys: seq<seq<byte>>): (r: Option<seq<G>>)
    ensures r.Some? ==> |r.value| == |publicKeys|
  {
    if publicKeys == [] then Some([])
    else
      match (DecodeKeys(c, buf, publicKeys[..|publicKeys| - 1]), c.dec(BufferAfter(buf, publicKeys)))
      case (Some(ks), Some(k)) => Some(ks + [k])
      case _ => None
  }

  lemma {:induction false} BadKey<G>(c: Curve<G>, buf: Bytes32, publicKeys: seq<seq<byte>>, i: nat)
    requires i < |publicKeys| && DecodeKeys(c, buf, publicKeys[..i + 1]).None?
    ensures DecodeKeys(c, buf, publicKeys).None?
    decreases |publicKeys|
  {
    if i + 1 < |publicKeys| {
      assert publicKeys[..|publicKeys| - 1][..i + 1] == publicKeys[..i + 1];
      BadKey(c, buf, publicKeys[..|publicKeys| - 1], i);
    } else {
      assert publicKeys[..i + 1] == publicKeys;
    }
  }

  // ---- which bytes a key is decoded from ----

  /** The bytes decoded for signer i. */
  function KeyBytes(publicKeys: seq<seq<byte>>, i: nat): Bytes32
    requires i < |publicKeys|
  {
    BufferAfter(ZERO32, publicKeys[..i + 1])
  }

  /** Each key of the object is decoded from those bytes. */
  lemma {:induction false} DecodedFrom<G>(c: Curve<G>, publicKeys: seq<seq<byte>>, i: nat)
    requires i < |publicKeys| && DecodeKeys(c, ZERO32, publicKeys).Some?
    ensures c.dec(KeyBytes(publicKeys, i)) == Some(DecodeKeys(c, ZERO32, publicKeys).value[i])
    decreases |publicKeys|
  {
    var init := publicKeys[..|publicKeys| - 1];
    if i + 1 < |publicKeys| {
      DecodedFrom(c, init, i);
      assert init[..i + 1] == publicKeys[..i + 1];
    } else {
      assert publicKeys[..i + 1] == publicKeys;
    }
  }

  lemma LastKeyBytes(before: seq<seq<byte>>, key: seq<byte>)
    ensures KeyBytes(before + [key], |before|) == CopyInto(BufferAfter(ZERO32, before), key)
  {
    assert (before + [key])[..|before| + 1] == before + [key];
    assert (before + [key])[..|before|] == before;
  }

  lemma DecodeOneMore<G>(c: Curve<G>, before: seq<seq<byte>>, ks: seq<G>, key: seq<byte>, k: G)
    requires DecodeKeys(c, ZERO32, before) == Some(ks) && c.dec(CopyInto(BufferAfter(ZERO32, before), key)) == Some(k)
    ensures DecodeKeys(c, ZERO32, before + [key]) == Some(ks + [k])
  {
    assert (before + [key])[..|before|] == before;
  }

  /** i keys, the last of them given. */
  function KeysEnding(i: nat, last: Bytes32): (r: seq<seq<byte>>)
    requires i > 0
    ensures |r| == i && BufferAfter(ZERO32, r) == last
  {
    var r := seq(i - 1, _ => []) + [last];
    assert r[..i - 1] == seq(i - 1, _ => []);
    r
  }

  /** Whatever keys stand before it, signer i's key is decoded from the same bytes: it is the first or it has
      32 bytes of its own. */
  ghost predicate Independent(key: seq<byte>, i: nat) {
    forall a: seq<seq<byte>>, b: seq<seq<byte>> ::
      |a| == i && |b| == i ==> KeyBytes(a + [key], i) == KeyBytes(b + [key], i)
  }

  /** A key shorter than 32 bytes that is not the first is completed with bytes of the keys before it. */
  lemma ShortKeyBorrows(key: seq<byte>, i: nat)
    ensures Independent(key, i) <==> i == 0 || |key| >= 32
  {
    if i == 0 || |key| >= 32 {
      forall a: seq<seq<byte>>, b: seq<seq<byte>> | |a| == i && |b| == i
        ensures KeyBytes(a + [key], i) == KeyBytes(b + [key], i)
      {
        LastKeyBytes(a, key);
        LastKeyBytes(b, key);
        assert i == 0 ==> a == b;
      }
    } else {
      var a, b := KeysEnding(i, seq(32, _ => 1)), KeysEnding(i, seq(32, _ => 2));
      LastKeyBytes(a, key);
      LastKeyBytes(b, key);
      assert KeyBytes(a + [key], i)[31] != KeyBytes(b + [key], i)[31];
    }
  }

  const ZERO32: Bytes32 := [0, 0, 0, 0, 0, 0, 0, 0, 0, 0, 0, 0, 0, 0, 0, 0, 0, 0, 0, 0, 0, 0, 0, 0, 0, 0, 0, 0, 0, 0,
                            0, 0]

  /** Null exactly when a key does not decode; otherwise everyone enabled, then the given mask. */
  method NewCosigners<G(!new)>(c: Curve<G>, hash: Hash, publicKeys: seq<seq<byte>>, mask: Option<seq<bv8>>)
      returns (cos: Cosigners?<G>)
    requires Laws(c)
    ensures cos == null <==> DecodeKeys(c, ZERO32, publicKeys).None?
    ensures cos != null ==>
              && fresh(cos) && fresh(cos.mask) && cos.Valid() && cos.curve == c && cos.hash == hash
              && cos.policy == Full
              && cos.keys == DecodeKeys(c, ZERO32, publicKeys).value
              && Trims(cos.mask[..], if mask.Some? then mask.value else [], |cos.keys|)
  {
    var buf: Bytes32 := ZERO32;
    var keys: seq<G> := [];
    var aggr := c.zero;
    for i := 0 to |publicKeys|
      invariant buf == BufferAfter(ZERO32, publicKeys[..i])
      invariant DecodeKeys(c, ZERO32, publicKeys[..i]) == Some(keys) && aggr == Sum(c, keys)
    {
      buf := CopyInto(buf, publicKeys[i]);
      assert publicKeys[..i + 1][..i] == publicKeys[..i];
      var k := c.dec(buf);
      if k.None? {
        BadKey(c, ZERO32, publicKeys, i);
        return null;
      }
      assert (keys + [k.value])[..|keys|] == keys;
      keys := keys + [k.value];
      aggr := c.add(aggr, k.value);
    }
    assert publicKeys[..|publicKeys|] == publicKeys;
    cos := new Cosigners(c, hash, keys, aggr);
    if mask.Some? {
      cos.SetMask(mask.value);
    }
  }

  /** Two objects over the same keys that hold the same mask bits are in the same state, however they
      got there. */
  lemma CacheDeterminedByMask<G(!new)>(a: Cosigners<G>, b: Cosigners<G>, m: seq<bv8>)
    requires a.Valid() && b.Valid() && a.curve == b.curve && a.keys == b.keys
    requires Trims(a.mask[..], m, |a.keys|) && Trims(b.mask[..], m, |b.keys|)
    ensures a.mask[..] == b.mask[..] && a.aggr == b.aggr
  {
    TrimUnique(a.mask[..], b.mask[..], m, |a.keys|);
  }
}
