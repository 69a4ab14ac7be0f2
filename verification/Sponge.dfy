/** The pure sponge of sections 4 and 5.1 of FIPS 202, over 25 lanes of 64 bits and an arbitrary permutation,
    and the bookkeeping that lets it be fed and read in pieces. */
module Sponge {
  import opened Bytes
  import opened Bitwise

  const MAX_RATE: nat := 168

  type u64 = x: nat | x < TWO64

  type Lanes = s: seq<u64> | |s| == 25 witness seq(25, _ => 0)

  type Permutation = Lanes -> Lanes

  function Zero(): Lanes { seq(25, _ => 0) }

  // Lanes and bytes, little-endian

  /** Byte j of a lane, counted from the low end. */
  function ByteOf(x: nat, j: nat): byte {
    if j == 0 then x % 256 else ByteOf(x / 256, j - 1)
  }

  lemma {:induction false} LaneBound(b: seq<byte>)
    ensures LittleEndian(b) < Pow2(8 * |b|)
  {
    if b != [] {
      LaneBound(b[1..]);
      Pow2Byte(8 * |b[1..]|);
    }
  }

  lemma Pow2Byte(n: nat)
    ensures Pow2(n + 8) == 256 * Pow2(n)
  {
    assert Pow2(n + 8) == 2 * Pow2(n + 7) && Pow2(n + 7) == 2 * Pow2(n + 6) && Pow2(n + 6) == 2 * Pow2(n + 5);
    assert Pow2(n + 5) == 2 * Pow2(n + 4) && Pow2(n + 4) == 2 * Pow2(n + 3) && Pow2(n + 3) == 2 * Pow2(n + 2);
    assert Pow2(n + 2) == 2 * Pow2(n + 1) && Pow2(n + 1) == 2 * Pow2(n);
  }

  lemma Pow2Lane()
    ensures Pow2(8) == 256 && Pow2(64) == TWO64
  {
    Pow2Byte(0); Pow2Byte(8); Pow2Byte(16); Pow2Byte(24); Pow2Byte(32); Pow2Byte(40); Pow2Byte(48); Pow2Byte(56);
  }

  lemma {:induction false} ByteOfLane(b: seq<byte>, j: nat)
    requires j < |b|
    ensures ByteOf(LittleEndian(b), j) == b[j]
    decreases j
  {
    var low, high := b[0], LittleEndian(b[1..]);
    assert LittleEndian(b) % 256 == low && LittleEndian(b) / 256 == high;
    if j > 0 {
      ByteOfLane(b[1..], j - 1);
    }
  }

  lemma LowHigh(low: int, high: int)
    requires 0 <= low < 256
    ensures (low + 256 * high) % 256 == low && (low + 256 * high) / 256 == high
  {
  }

  lemma XorSplit(x: nat, y: nat)
    ensures Xor(x, y) % 256 == Xor(x % 256, y % 256) && Xor(x, y) / 256 == Xor(x / 256, y / 256)
  {
    Pow2Lane();
    XorJoin(x % 256, y % 256, x / 256, y / 256, 8);
    XorOfBytes(x % 256, y % 256);
    LowHigh(Xor(x % 256, y % 256), Xor(x / 256, y / 256));
  }

  lemma {:induction false} ByteOfXor(x: nat, y: nat, j: nat)
    ensures Xor(x, y) >= 0 && ByteOf(Xor(x, y), j) == Xor(ByteOf(x, j), ByteOf(y, j))
    decreases j
  {
    XorNat(x, y);
    XorSplit(x, y);
    if j > 0 {
      ByteOfXor(x / 256, y / 256, j - 1);
    }
  }

  lemma {:induction false} XorNat(x: nat, y: nat)
    ensures Xor(x, y) >= 0
    decreases x + y
  {
    if x + y > 0 {
      XorNat(x / 2, y / 2);
    }
  }

  /** One lane combined with eight bytes. */
  function XorLane(x: u64, b: seq<byte>): u64
    requires |b| == 8
  {
    LaneBound(b);
    Pow2Lane();
    XorNonNegative(x, LittleEndian(b), 64);
    Xor(x, LittleEndian(b))
  }

  function XorByteOf(x: byte, y: byte): byte {
    XorOfBytes(x, y);
    Xor(x, y)
  }

  // The pure sponge

  predicate RateOk(rate: nat) { 0 < rate <= MAX_RATE && rate % 8 == 0 }

  /** The first n bytes of the state. */
  function FirstBytes(l: Lanes, n: nat): (s: seq<byte>)
    requires n <= 200
    ensures |s| == n
  {
    if n == 0 then [] else FirstBytes(l, n - 1) + [ByteOf(l[(n - 1) / 8], (n - 1) % 8)]
  }

  lemma {:induction false} FirstBytesAt(l: Lanes, n: nat, k: nat)
    requires k < n <= 200
    ensures FirstBytes(l, n)[k] == ByteOf(l[k / 8], k % 8)
    decreases n
  {
    if k < n - 1 {
      FirstBytesAt(l, n - 1, k);
    }
  }

  /** The state as 200 bytes. */
  function StateBytes(l: Lanes): (s: seq<byte>)
    ensures |s| == 200
  {
    FirstBytes(l, 200)
  }

  function XorLanes(l: Lanes, block: seq<byte>): Lanes
    requires |block| <= MAX_RATE && |block| % 8 == 0
  {
    seq<u64>(25, i requires 0 <= i < 25 => if i < |block| / 8 then XorLane(l[i], block[8 * i..8 * i + 8]) else l[i])
  }

  lemma XorByte(l: Lanes, block: seq<byte>, i: nat, j: nat)
    requires |block| <= MAX_RATE && |block| % 8 == 0 && i < |block| / 8 && j < 8
    ensures ByteOf(XorLanes(l, block)[i], j) == XorByteOf(ByteOf(l[i], j), block[8 * i + j])
  {
    var b := block[8 * i..8 * i + 8];
    ByteOfXor(l[i], LittleEndian(b), j);
    ByteOfLane(b, j);
  }

  lemma WholeLanes(k: nat, n: nat)
    requires n % 8 == 0
    ensures k == 8 * (k / 8) + k % 8 && (k / 8 < n / 8 <==> k < n)
  {
  }

  /** Exclusive or by lanes is exclusive or by bytes. */
  lemma XorIsBytewise(l: Lanes, block: seq<byte>, k: nat)
    requires |block| <= MAX_RATE && |block| % 8 == 0 && k < 200
    ensures StateBytes(XorLanes(l, block))[k] == if k < |block| then XorByteOf(StateBytes(l)[k], block[k])
        else StateBytes(l)[k]
  {
    WholeLanes(k, |block|);
    FirstBytesAt(l, 200, k);
    FirstBytesAt(XorLanes(l, block), 200, k);
    if k < |block| {
      XorByte(l, block, k / 8, k % 8);
    } else {
      assert XorLanes(l, block)[k / 8] == l[k / 8];
    }
  }

  function AbsorbBlock(f: Permutation, l: Lanes, block: seq<byte>): Lanes
    requires |block| <= MAX_RATE && |block| % 8 == 0
  {
    f(XorLanes(l, block))
  }

  /** All the full blocks of the data are absorbed; what is left over waits. */
  function Absorb(f: Permutation, rate: nat, l: Lanes, data: seq<byte>): (r: (Lanes, seq<byte>))
    requires RateOk(rate)
    ensures |r.1| < rate
    decreases |data|
  {
    if |data| < rate then (l, data) else Absorb(f, rate, AbsorbBlock(f, l, data[..rate]), data[rate..])
  }

  /** The last block: the domain byte, zeros, and the final bit. */
  function Pad(rate: nat, ds: byte, rest: seq<byte>): (block: seq<byte>)
    requires RateOk(rate) && |rest| < rate
    ensures |block| == rate
  {
    var p := rest + [ds] + seq<byte>(rate - |rest| - 1, _ => 0);
    p[rate - 1 := XorByteOf(p[rate - 1], 128)]
  }

  /** The state after a whole message has been absorbed. */
  function AbsorbMessage(f: Permutation, rate: nat, ds: byte, message: seq<byte>): Lanes
    requires RateOk(rate)
  {
    var (l, rest) := Absorb(f, rate, Zero(), message);
    AbsorbBlock(f, l, Pad(rate, ds, rest))
  }

  function Output(rate: nat, l: Lanes): (s: seq<byte>)
    requires RateOk(rate)
    ensures |s| == rate
  {
    StateBytes(l)[..rate]
  }

  /** The first n bytes squeezed out of a state. */
  function Squeeze(f: Permutation, rate: nat, l: Lanes, n: nat): (s: seq<byte>)
    requires RateOk(rate)
    ensures |s| == n
    decreases n
  {
    if n <= rate then Output(rate, l)[..n] else Output(rate, l) + Squeeze(f, rate, f(l), n - rate)
  }

  /** The sponge function: n bytes of output for a message. */
  function Hash(f: Permutation, rate: nat, ds: byte, message: seq<byte>, n: nat): (s: seq<byte>)
    requires RateOk(rate)
    ensures |s| == n
  {
    Squeeze(f, rate, AbsorbMessage(f, rate, ds, message), n)
  }

  /** The message padded to whole blocks, as the standard states it. */
  function PadMessage(rate: nat, ds: byte, message: seq<byte>): (r: seq<byte>)
    requires RateOk(rate)
    ensures |r| > |message|
    decreases |message|
  {
    if |message| < rate then Pad(rate, ds, message)
    else message[..rate] + PadMessage(rate, ds, message[rate..])
  }

  /** n is a whole number of blocks. */
  predicate Whole(n: nat, rate: nat)
    requires rate > 0
  {
    n == 0 || (n >= rate && Whole(n - rate, rate))
  }

  lemma {:induction false} PadMessageWhole(rate: nat, ds: byte, message: seq<byte>)
    requires RateOk(rate)
    ensures Whole(|PadMessage(rate, ds, message)|, rate)
    decreases |message|
  {
    if |message| >= rate {
      PadMessageWhole(rate, ds, message[rate..]);
    }
  }

  /** Absorbing a message and then its last, padded block is absorbing the padded message. */
  lemma {:induction false} PaddedAbsorb(f: Permutation, rate: nat, ds: byte, l: Lanes, message: seq<byte>)
    requires RateOk(rate)
    ensures var (m, rest) := Absorb(f, rate, l, message);
      Absorb(f, rate, l, PadMessage(rate, ds, message)) == (AbsorbBlock(f, m, Pad(rate, ds, rest)), [])
    decreases |message|
  {
    var p := PadMessage(rate, ds, message);
    if |message| < rate {
      assert p[..rate] == p && p[rate..] == [];
    } else {
      assert p[..rate] == message[..rate] && p[rate..] == PadMessage(rate, ds, message[rate..]);
      PaddedAbsorb(f, rate, ds, AbsorbBlock(f, l, message[..rate]), message[rate..]);
    }
  }

  // Feeding and reading in pieces

  lemma {:induction false} AbsorbConcat(f: Permutation, rate: nat, l: Lanes, a: seq<byte>, b: seq<byte>)
    requires RateOk(rate)
    ensures var (m, rest) := Absorb(f, rate, l, a); Absorb(f, rate, l, a + b) == Absorb(f, rate, m, rest + b)
    decreases |a|
  {
    if |a| >= rate {
      assert (a + b)[..rate] == a[..rate] && (a + b)[rate..] == a[rate..] + b;
      AbsorbConcat(f, rate, AbsorbBlock(f, l, a[..rate]), a[rate..], b);
    }
  }

  /** A state that has given out all but `ready` of its current block. */
  datatype Tap = Tap(lanes: Lanes, ready: seq<byte>)

  predicate TapOk(rate: nat, t: Tap)
    requires RateOk(rate)
  {
    0 < |t.ready| <= rate && t.ready == Output(rate, t.lanes)[rate - |t.ready|..]
  }

  function Advance(f: Permutation, rate: nat, t: Tap, k: nat): (r: Tap)
    requires RateOk(rate) && k <= |t.ready|
  {
    if k < |t.ready| then Tap(t.lanes, t.ready[k..]) else Tap(f(t.lanes), Output(rate, f(t.lanes)))
  }

  /** Reading n bytes: what comes out and the state afterwards. */
  function Draw(f: Permutation, rate: nat, t: Tap, n: nat): (seq<byte>, Tap)
    requires RateOk(rate) && TapOk(rate, t)
    decreases n
  {
    if n == 0 then ([], t) else
    var k := if n < |t.ready| then n else |t.ready|;
    AdvanceOk(f, rate, t, k);
    var (out, last) := Draw(f, rate, Advance(f, rate, t, k), n - k);
    (t.ready[..k] + out, last)
  }

  lemma AdvanceOk(f: Permutation, rate: nat, t: Tap, k: nat)
    requires RateOk(rate) && TapOk(rate, t) && k <= |t.ready|
    ensures TapOk(rate, Advance(f, rate, t, k))
  {
    if k < |t.ready| {
      assert t.ready[k..] == Output(rate, t.lanes)[rate - |t.ready| + k..];
    } else {
      assert Output(rate, f(t.lanes))[0..] == Output(rate, f(t.lanes));
    }
  }

  /** The bytes drawn after k bytes of the current block, with what follows. */
  function Then(x: seq<byte>, r: (seq<byte>, Tap)): (seq<byte>, Tap) { (x + r.0, r.1) }

  lemma ThenThen(x: seq<byte>, y: seq<byte>, r: (seq<byte>, Tap))
    ensures Then(x + y, r) == Then(x, Then(y, r))
  {
    assert x + y + r.0 == x + (y + r.0);
  }

  lemma {:induction false} DrawTapOk(f: Permutation, rate: nat, t: Tap, n: nat)
    requires RateOk(rate) && TapOk(rate, t)
    ensures TapOk(rate, Draw(f, rate, t, n).1)
    decreases n
  {
    if n > 0 {
      var k := if n < |t.ready| then n else |t.ready|;
      AdvanceOk(f, rate, t, k);
      DrawTapOk(f, rate, Advance(f, rate, t, k), n - k);
    }
  }

  /** Two reads in a row give what one read of both lengths gives. */
  lemma {:induction false} DrawConcat(f: Permutation, rate: nat, t: Tap, a: nat, b: nat)
    requires RateOk(rate) && TapOk(rate, t)
    ensures var (x, t1) := Draw(f, rate, t, a);
      TapOk(rate, t1) && Draw(f, rate, t, a + b) == Then(x, Draw(f, rate, t1, b))
    decreases a
  {
    DrawTapOk(f, rate, t, a);
    if a == 0 {
      assert [] + Draw(f, rate, t, b).0 == Draw(f, rate, t, b).0;
    } else if a < |t.ready| {
      DrawWithin(f, rate, t, a, b);
    } else {
      var k := |t.ready|;
      var t0 := Advance(f, rate, t, k);
      AdvanceOk(f, rate, t, k);
      DrawConcat(f, rate, t0, a - k, b);
      var (x, t1) := Draw(f, rate, t0, a - k);
      ThenThen(t.ready[..k], x, Draw(f, rate, t1, b));
    }
  }

  /** Taking a bytes and then c more of the current block. */
  lemma AdvanceTwice(f: Permutation, rate: nat, t: Tap, a: nat, c: nat)
    requires RateOk(rate) && a < |t.ready| && a + c <= |t.ready|
    ensures var t1 := Advance(f, rate, t, a);
      && t1 == Tap(t.lanes, t.ready[a..]) && Advance(f, rate, t, a + c) == Advance(f, rate, t1, c)
      && t.ready[..a + c] == t.ready[..a] + t1.ready[..c]
  {
    assert t.ready[a..][c..] == t.ready[a + c..];
    assert t.ready[..a + c] == t.ready[..a] + t.ready[a..][..c];
  }

  /** A read that ends inside the current block. */
  lemma DrawWithin(f: Permutation, rate: nat, t: Tap, a: nat, b: nat)
    requires RateOk(rate) && TapOk(rate, t) && 0 < a < |t.ready|
    ensures var t1 := Advance(f, rate, t, a);
      && TapOk(rate, t1) && Draw(f, rate, t, a) == (t.ready[..a], t1)
      && Draw(f, rate, t, a + b) == Then(t.ready[..a], Draw(f, rate, t1, b))
  {
    var t1 := Advance(f, rate, t, a);
    AdvanceOk(f, rate, t, a);
    assert t.ready[..a] + [] == t.ready[..a];
    if b > 0 {
      var c := if a + b < |t.ready| then b else |t.ready| - a;
      AdvanceTwice(f, rate, t, a, c);
      AdvanceOk(f, rate, t, a + c);
      ThenThen(t.ready[..a], t1.ready[..c], Draw(f, rate, Advance(f, rate, t, a + c), b - c));
    }
  }

  /** A state whose block has just been filled. */
  function Fresh(rate: nat, l: Lanes): (t: Tap)
    requires RateOk(rate)
    ensures TapOk(rate, t)
  {
    Tap(l, Output(rate, l))
  }

  lemma DrawStep(f: Permutation, rate: nat, t: Tap, n: nat, k: nat)
    requires RateOk(rate) && TapOk(rate, t) && n > 0 && k == (if n < |t.ready| then n else |t.ready|)
    ensures TapOk(rate, Advance(f, rate, t, k))
    ensures Draw(f, rate, t, n) == Then(t.ready[..k], Draw(f, rate, Advance(f, rate, t, k), n - k))
  {
    AdvanceOk(f, rate, t, k);
  }

  lemma DrawBlock(f: Permutation, rate: nat, l: Lanes, n: nat)
    requires RateOk(rate) && n >= rate
    ensures Draw(f, rate, Fresh(rate, l), n) == Then(Output(rate, l), Draw(f, rate, Fresh(rate, f(l)), n - rate))
  {
    var t := Fresh(rate, l);
    DrawStep(f, rate, t, n, rate);
    assert t.ready[..rate] == t.ready;
  }

  lemma DrawPart(f: Permutation, rate: nat, l: Lanes, n: nat)
    requires RateOk(rate) && n < rate
    ensures Draw(f, rate, Fresh(rate, l), n).0 == Output(rate, l)[..n]
  {
    var t := Fresh(rate, l);
    if n > 0 {
      AdvanceOk(f, rate, t, n);
      assert t.ready[..n] + [] == t.ready[..n];
    }
  }

  lemma {:induction false} DrawIsSqueeze(f: Permutation, rate: nat, l: Lanes, n: nat)
    requires RateOk(rate)
    ensures Draw(f, rate, Fresh(rate, l), n).0 == Squeeze(f, rate, l, n)
    decreases n
  {
    if n < rate {
      DrawPart(f, rate, l, n);
    } else {
      DrawBlock(f, rate, l, n);
      if n == rate {
        assert Output(rate, l)[..n] == Output(rate, l) + [];
      } else {
        DrawIsSqueeze(f, rate, f(l), n - rate);
      }
    }
  }

  // Any split of the input and of the output

  function AbsorbParts(f: Permutation, rate: nat, l: Lanes, rest: seq<byte>, parts: seq<seq<byte>>): (Lanes, seq<byte>)
    requires RateOk(rate)
    decreases |parts|
  {
    if parts == [] then (l, rest) else
    var (m, r) := Absorb(f, rate, l, rest + parts[0]);
    AbsorbParts(f, rate, m, r, parts[1..])
  }

  lemma {:induction false} AnySplitOfInput(f: Permutation, rate: nat, l: Lanes, rest: seq<byte>, parts: seq<seq<byte>>)
    requires RateOk(rate) && |rest| < rate
    ensures AbsorbParts(f, rate, l, rest, parts) == Absorb(f, rate, l, rest + Concat(parts))
    decreases |parts|
  {
    if parts == [] {
      assert rest + Concat(parts) == rest;
    } else {
      var (m, r) := Absorb(f, rate, l, rest + parts[0]);
      AnySplitOfInput(f, rate, m, r, parts[1..]);
      AbsorbConcat(f, rate, l, rest + parts[0], Concat(parts[1..]));
      assert rest + parts[0] + Concat(parts[1..]) == rest + Concat(parts);
    }
  }

  function Total(ns: seq<nat>): nat { if ns == [] then 0 else ns[0] + Total(ns[1..]) }

  /** The bytes of a series of reads. */
  function DrawParts(f: Permutation, rate: nat, t: Tap, ns: seq<nat>): seq<byte>
    requires RateOk(rate) && TapOk(rate, t)
    decreases |ns|
  {
    if ns == [] then [] else
    var (x, t1) := Draw(f, rate, t, ns[0]);
    DrawTapOk(f, rate, t, ns[0]);
    x + DrawParts(f, rate, t1, ns[1..])
  }

  lemma {:induction false} AnySplitOfOutput(f: Permutation, rate: nat, t: Tap, ns: seq<nat>)
    requires RateOk(rate) && TapOk(rate, t)
    ensures DrawParts(f, rate, t, ns) == Draw(f, rate, t, Total(ns)).0
    decreases |ns|
  {
    if ns != [] {
      DrawConcat(f, rate, t, ns[0], Total(ns[1..]));
      AnySplitOfOutput(f, rate, Draw(f, rate, t, ns[0]).1, ns[1..]);
    }
  }

  /** However a message is split into writes and the output into reads, the bytes read are those the sponge
      function gives for the whole message and the whole length. */
  lemma StreamingIsHashing(f: Permutation, rate: nat, ds: byte, parts: seq<seq<byte>>, ns: seq<nat>)
    requires RateOk(rate)
    ensures var (l, rest) := AbsorbParts(f, rate, Zero(), [], parts);
      && |rest| < rate
      && DrawParts(f, rate, Fresh(rate, AbsorbBlock(f, l, Pad(rate, ds, rest))), ns)
          == Hash(f, rate, ds, Concat(parts), Total(ns))
  {
    AnySplitOfInput(f, rate, Zero(), [], parts);
    assert [] + Concat(parts) == Concat(parts);
    var s := AbsorbMessage(f, rate, ds, Concat(parts));
    ReadsAreSqueezed(f, rate, s, ns);
  }

  lemma ReadsAreSqueezed(f: Permutation, rate: nat, s: Lanes, ns: seq<nat>)
    requires RateOk(rate)
    ensures DrawParts(f, rate, Fresh(rate, s), ns) == Squeeze(f, rate, s, Total(ns))
  {
    AnySplitOfOutput(f, rate, Fresh(rate, s), ns);
    DrawIsSqueeze(f, rate, s, Total(ns));
  }
}
