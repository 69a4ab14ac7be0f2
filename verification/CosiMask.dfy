/** The participation bitmask of a Cosigners object and the aggregate key it determines
    (golang-x-crypto/ed25519/cosi/cosi.go). */
module CosiMask {
  import opened CosiGroup

  /** 1 << k */
  function Bit(k: nat): bv8
    requires k < 8
  {
    if k == 0 then 1 else if k == 1 then 2 else if k == 2 then 4 else if k == 3 then 8
    else if k == 4 then 16 else if k == 5 then 32 else if k == 6 then 64 else 128
  }

  predicate Has(b: bv8, k: nat)
    requires k < 8
  {
    b & Bit(k) != 0
  }

  lemma SetBits(b: bv8, k: nat, j: nat)
    requires k < 8 && j < 8
    ensures Has(b | Bit(k), j) <==> j == k || Has(b, j)
    ensures Has(b & !Bit(k), j) <==> j != k && Has(b, j)
  {
  }

  lemma BitsDetermine(x: bv8, y: bv8)
    requires forall k :: 0 <= k < 8 ==> Has(x, k) == Has(y, k)
    ensures x == y
  {
    assert Has(x, 0) == Has(y, 0) && Has(x, 1) == Has(y, 1) && Has(x, 2) == Has(y, 2) && Has(x, 3) == Has(y, 3);
    assert Has(x, 4) == Has(y, 4) && Has(x, 5) == Has(y, 5) && Has(x, 6) == Has(y, 6) && Has(x, 7) == Has(y, 7);
  }

  // ---- masks as lists of disabled cosigners ----

  /** Is cosigner i disabled? Missing bytes count as enabled. */
  predicate Disabled(mask: seq<bv8>, i: nat) {
    i / 8 < |mask| && Has(mask[i / 8], i % 8)
  }

  function MaskLength(n: nat): nat { (n + 7) / 8 }

  /** The sum of the keys whose bit is clear. */
  function EnabledSum<G>(c: Curve<G>, keys: seq<G>, mask: seq<bv8>): G {
    if keys == [] then c.zero
    else
      var n := |keys| - 1;
      var rest := EnabledSum(c, keys[..n], mask);
      if Disabled(mask, n) then rest else c.add(rest, keys[n])
  }

  ghost predicate SameBits(m: seq<bv8>, m': seq<bv8>, n: nat) {
    forall i :: 0 <= i < n ==> Disabled(m, i) == Disabled(m', i)
  }

  lemma {:induction false} EnabledSumSame<G>(c: Curve<G>, keys: seq<G>, m: seq<bv8>, m': seq<bv8>)
    requires SameBits(m, m', |keys|)
    ensures EnabledSum(c, keys, m) == EnabledSum(c, keys, m')
    decreases |keys|
  {
    if keys != [] {
      EnabledSumSame(c, keys[..|keys| - 1], m, m');
    }
  }

  lemma {:induction false} AllEnabledSum<G>(c: Curve<G>, keys: seq<G>, mask: seq<bv8>)
    requires forall i :: 0 <= i < |keys| ==> !Disabled(mask, i)
    ensures EnabledSum(c, keys, mask) == Sum(c, keys)
    decreases |keys|
  {
    if keys != [] {
      AllEnabledSum(c, keys[..|keys| - 1], mask);
    }
  }

  /** The sum of the keys whose bit is set. */
  function DisabledSum<G>(c: Curve<G>, keys: seq<G>, mask: seq<bv8>): G {
    if keys == [] then c.zero
    else
      var n := |keys| - 1;
      var rest := DisabledSum(c, keys[..n], mask);
      if Disabled(mask, n) then c.add(rest, keys[n]) else rest
  }

  /** Every key is in one of the two sums. */
  lemma {:induction false} SumSplits<G(!new)>(c: Curve<G>, keys: seq<G>, mask: seq<bv8>)
    requires Laws(c)
    ensures Sum(c, keys) == c.add(EnabledSum(c, keys, mask), DisabledSum(c, keys, mask))
    decreases |keys|
  {
    if keys == [] {
      Zero(c, c.zero);
    } else {
      var n := |keys| - 1;
      SumSplits(c, keys[..n], mask);
      var e, d := EnabledSum(c, keys[..n], mask), DisabledSum(c, keys[..n], mask);
      Assoc(c, e, d, keys[n]);
      SwapLast(c, e, d, keys[n]);
    }
  }

  /** Disabling one cosigner takes exactly its key out of the sum, wherever it stands. */
  lemma {:induction false} EnabledSumFlip<G(!new)>(c: Curve<G>, keys: seq<G>, m: seq<bv8>, m': seq<bv8>, i: nat)
    requires Laws(c) && i < |keys| && !Disabled(m, i) && Disabled(m', i)
    requires forall j :: 0 <= j < |keys| && j != i ==> Disabled(m, j) == Disabled(m', j)
    ensures EnabledSum(c, keys, m) == c.add(EnabledSum(c, keys, m'), keys[i])
    decreases |keys|
  {
    var n := |keys| - 1;
    if i == n {
      EnabledSumSame(c, keys[..n], m, m');
    } else {
      EnabledSumFlip(c, keys[..n], m, m', i);
      SwapLast(c, EnabledSum(c, keys[..n], m'), keys[i], keys[n]);
    }
  }

  /** The mask kept for n cosigners when a caller supplies m: same bits below n, nothing above. */
  ghost predicate Trims(mask: seq<bv8>, m: seq<bv8>, n: nat) {
    && |mask| == MaskLength(n) && SameBits(mask, m, n)
    && forall i :: n <= i < 8 * |mask| ==> !Disabled(mask, i)
  }

  /** Only one mask trims m, so a cached state is the one a fresh object would have. */
  lemma TrimUnique(mask: seq<bv8>, mask': seq<bv8>, m: seq<bv8>, n: nat)
    requires Trims(mask, m, n) && Trims(mask', m, n)
    ensures mask == mask'
  {
    forall b | 0 <= b < |mask|
      ensures mask[b] == mask'[b]
    {
      forall k | 0 <= k < 8
        ensures Has(mask[b], k) == Has(mask'[b], k)
      {
        var i := 8 * b + k;
        assert i / 8 == b && i % 8 == k;
        assert Disabled(mask, i) == Disabled(mask', i);
      }
      BitsDetermine(mask[b], mask'[b]);
    }
  }

  /** b is the byte x with bit k rewritten. */
  ghost predicate Rewrites(x: bv8, b: bv8, k: nat, disable: bool) {
    forall j :: 0 <= j < 8 ==> Has(b, j) == if j == k then disable else Has(x, j)
  }

  lemma RewriteByte(x: bv8, k: nat)
    requires k < 8
    ensures Rewrites(x, x | Bit(k), k, true) && Rewrites(x, x & !Bit(k), k, false)
  {
    forall j | 0 <= j < 8
      ensures Has(x | Bit(k), j) == if j == k then true else Has(x, j)
      ensures Has(x & !Bit(k), j) == if j == k then false else Has(x, j)
    {
      SetBits(x, k, j);
    }
  }

  /** Rewriting one bit of a mask changes that cosigner only. */
  lemma FlipBit(m: seq<bv8>, i: nat, b: bv8, disable: bool, j: nat)
    requires i / 8 < |m| && Rewrites(m[i / 8], b, i % 8, disable)
    ensures Disabled(m[i / 8 := b], j) == if i == j then disable else Disabled(m, j)
  {
    if j / 8 == i / 8 {
      assert i == j <==> i % 8 == j % 8;
      assert Has(b, j % 8) == if j % 8 == i % 8 then disable else Has(m[i / 8], j % 8);
    }
  }
}
