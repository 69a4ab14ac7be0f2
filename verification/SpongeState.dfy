/** The buffered sponge of golang-x-crypto/sha3/sha3.go and xor_generic.go: lanes and a byte buffer changed in
    place, proved to compute the pure sponge of the bytes written so far. */
module SpongeState {
  import opened Bytes
  import opened Sponge

  lemma ThenNothing(r: (seq<byte>, Tap))
    ensures Then([], r) == r
  {
    assert [] + r.0 == r.0;
  }

  /** k more bytes drawn are k fewer to draw. */
  lemma DrawOn(f: Permutation, rate: nat, t: Tap, n: nat, k: nat, out: seq<byte>)
    requires RateOk(rate) && TapOk(rate, t) && n > 0 && k == (if n < |t.ready| then n else |t.ready|)
    ensures var t1 := Advance(f, rate, t, k);
      TapOk(rate, t1) && Then(out + t.ready[..k], Draw(f, rate, t1, n - k)) == Then(out, Draw(f, rate, t, n))
  {
    DrawStep(f, rate, t, n, k);
    ThenThen(out, t.ready[..k], Draw(f, rate, Advance(f, rate, t, k), n - k));
  }

  /** Where clone places the buffer of a squeezing state: it takes the capacity, counted to the end of the
      168-byte storage, for the bytes left in the block. None is a slice bound below zero. */
  function CloneStart(rate: nat, lo: nat): (r: Option<nat>)
    requires RateOk(rate) && lo < rate
    ensures r.Some? ==> r.value <= lo
  {
    var start := rate - (MAX_RATE - lo);
    if start < 0 then None else Some(start)
  }

  /** Only at the largest rate is a squeezing state cloned faithfully. */
  lemma SqueezingCloneExact(rate: nat)
    requires RateOk(rate)
    ensures (forall lo: nat :: lo < rate ==> CloneStart(rate, lo) == Some(lo)) <==> rate == MAX_RATE
  {
    assert CloneStart(rate, 0) == Some(0) ==> rate == MAX_RATE;
  }

  class State {
    const f: Permutation
    const rate: nat
    const ds: byte
    const outputLen: nat
    const a: array<u64>
    const storage: array<byte>
    var lo: nat
    var hi: nat
    var squeezing: bool
    ghost var message: seq<byte>

    ghost predicate Shape()
      reads this`lo, this`hi
    {
      a.Length == 25 && storage.Length == MAX_RATE && RateOk(rate) && lo <= hi <= rate
    }

    /** The storage holds the current block of output, not yet read from lo on. */
    ghost predicate Squeezed()
      requires Shape()
      reads this`lo, this`hi, a, storage
    {
      lo < hi == rate && storage[..rate] == Output(rate, a[..]) && TapOk(rate, Left())
    }

    /** Absorbing: the lanes and the buffer are those of the message so far. Squeezing: the buffer is what
        has not been read of the current block. */
    ghost predicate Valid()
      reads this, a, storage
    {
      && Shape()
      && (!squeezing ==> lo == 0 && (a[..], storage[..hi]) == Absorb(f, rate, Zero(), message))
      && (squeezing ==> Squeezed())
    }

    ghost function Left(): Tap
      requires Shape()
      reads this`lo, this`hi, a, storage
    {
      Tap(a[..], storage[lo..hi])
    }

    ghost function Absorbed(): Lanes
      requires RateOk(rate)
      reads this`message
    {
      AbsorbMessage(f, rate, ds, message)
    }

    constructor (f: Permutation, rate: nat, ds: byte, outputLen: nat)
      requires RateOk(rate)
      ensures Valid() && fresh(a) && fresh(storage) && !squeezing && message == []
      ensures this.f == f && this.rate == rate && this.ds == ds && this.outputLen == outputLen
    {
      this.f, this.rate, this.ds, this.outputLen := f, rate, ds, outputLen;
      a := new u64[25](_ => 0);
      storage := new byte[168](_ => 0);
      lo, hi, squeezing, message := 0, 0, false, [];
      new;
      assert a[..] == Zero();
    }

    /** xorInGeneric. */
    method XorIn(block: seq<byte>)
      requires a.Length == 25 && |block| <= MAX_RATE && |block| % 8 == 0
      modifies a
      ensures a[..] == XorLanes(old(a[..]), block)
    {
      var n := |block| / 8;
      for i := 0 to n
        invariant forall j :: 0 <= j < i ==> a[j] == XorLane(old(a[j]), block[8 * j..8 * j + 8])
        invariant forall j :: i <= j < 25 ==> a[j] == old(a[j])
      {
        a[i] := XorLane(a[i], block[8 * i..8 * i + 8]);
      }
    }

    method Keccak()
      requires a.Length == 25
      modifies a
      ensures a[..] == f(old(a[..]))
    {
      var next := f(a[..]);
      for i := 0 to 25
        invariant a[..i] == next[..i]
      {
        a[i] := next[i];
      }
      assert a[..] == a[..25] && next == next[..25];
    }

    /** copyOutGeneric. */
    method CopyOut()
      requires a.Length == 25 && storage.Length == MAX_RATE && RateOk(rate)
      modifies storage
      ensures storage[..rate] == Output(rate, a[..])
    {
      var i := 0;
      while 8 * i < rate
        invariant 8 * i <= rate
        invariant forall k :: 0 <= k < 8 * i ==> storage[k] == ByteOf(a[k / 8], k % 8)
      {
        for j := 0 to 8
          invariant forall k :: 0 <= k < 8 * i + j ==> storage[k] == ByteOf(a[k / 8], k % 8)
        {
          assert (8 * i + j) / 8 == i && (8 * i + j) % 8 == j;
          storage[8 * i + j] := ByteOf(a[i], j);
        }
        i := i + 1;
      }
      forall k | 0 <= k < rate
        ensures storage[k] == Output(rate, a[..])[k]
      {
        FirstBytesAt(a[..], 200, k);
      }
    }

    method Append(bytes: seq<byte>)
      requires storage.Length == MAX_RATE && hi + |bytes| <= MAX_RATE
      modifies this`hi, storage
      ensures hi == old(hi) + |bytes| && storage[..hi] == old(storage[..hi]) + bytes
    {
      for i := 0 to |bytes|
        invariant hi == old(hi)
        invariant storage[..hi + i] == old(storage[..hi]) + bytes[..i]
      {
        storage[hi + i] := bytes[i];
        assert storage[..hi + i + 1] == storage[..hi + i] + [bytes[i]];
      }
      hi := hi + |bytes|;
    }

    /** permute while absorbing: the full buffer goes into the state. */
    method AbsorbBuffer()
      requires Shape() && hi == rate && lo == 0
      modifies this`hi, a
      ensures hi == 0 && a[..] == AbsorbBlock(f, old(a[..]), old(storage[..rate]))
    {
      XorIn(storage[..hi]);
      hi := 0;
      Keccak();
    }

    /** permute while squeezing: the next block of output. */
    method Refill()
      requires Shape()
      modifies this`lo, this`hi, a, storage
      ensures lo == 0 && hi == rate && a[..] == f(old(a[..])) && storage[..rate] == Output(rate, a[..])
    {
      Keccak();
      lo, hi := 0, rate;
      CopyOut();
    }

    /** One turn of Write's loop takes k bytes, over the fast path or the buffer. */
    method AbsorbSome(p: seq<byte>) returns (k: nat)
      requires Shape() && lo == 0 && hi < rate && p != []
      modifies this`hi, a, storage
      ensures Shape() && lo == 0 && hi < rate && 0 < k <= |p|
      ensures Absorb(f, rate, a[..], storage[..hi] + p[k..]) == Absorb(f, rate, old(a[..]), old(storage[..hi]) + p)
    {
      ghost var l, all := a[..], storage[..hi] + p;
      if hi == 0 && |p| >= rate {
        assert all[..rate] == p[..rate] && all[rate..] == p[rate..] && storage[..0] + p[rate..] == p[rate..];
        XorIn(p[..rate]);
        Keccak();
        k := rate;
      } else {
        k := if rate - hi > |p| then |p| else rate - hi;
        Append(p[..k]);
        assert storage[..hi] + p[k..] == all;
        if hi == rate {
          assert all[..rate] == storage[..rate] && all[rate..] == p[k..];
          AbsorbBuffer();
          assert storage[..0] + p[k..] == p[k..];
        }
      }
    }

    /** Absorb more of the message; refused with a panic once output has been read. */
    method Write(p: seq<byte>) returns (ok: bool)
      requires Valid()
      modifies this`hi, this`message, a, storage
      ensures Valid() && ok == !squeezing && message == if ok then old(message) + p else old(message)
    {
      if squeezing {
        return false;
      }
      ghost var start := (a[..], storage[..hi]);
      AbsorbConcat(f, rate, Zero(), message, p);
      var n := 0;
      assert p[0..] == p;
      while n < |p|
        invariant n <= |p| && Shape() && lo == 0 && hi < rate && !squeezing && message == old(message)
        invariant Absorb(f, rate, a[..], storage[..hi] + p[n..]) == Absorb(f, rate, Zero(), message + p)
        decreases |p| - n
      {
        var k := AbsorbSome(p[n..]);
        assert p[n..][k..] == p[n + k..];
        n := n + k;
      }
      assert storage[..hi] + p[n..] == storage[..hi];
      message := message + p;
      return true;
    }

    /** The domain byte, zeros up to the rate, and the final bit. */
    method FillPadding()
      requires Shape() && lo == 0 && hi < rate
      modifies this`hi, storage
      ensures hi == rate && storage[..rate] == Pad(rate, ds, old(storage[..hi]))
    {
      ghost var rest := storage[..hi];
      Append([ds]);
      var zerosStart := hi;
      hi := rate;
      for i := zerosStart to rate
        invariant hi == rate && storage[..zerosStart] == rest + [ds]
        invariant forall j :: zerosStart <= j < i ==> storage[j] == 0
      {
        storage[i] := 0;
      }
      assert storage[..rate] == rest + [ds] + seq<byte>(rate - |rest| - 1, _ => 0);
      ghost var filled := storage[..rate];
      storage[rate - 1] := XorByteOf(storage[rate - 1], 128);
      assert storage[..rate] == filled[rate - 1 := XorByteOf(filled[rate - 1], 128)];
    }

    /** From absorbing to squeezing: the whole message is in the state. */
    method PadAndPermute()
      requires Valid() && !squeezing
      modifies this`lo, this`hi, this`squeezing, a, storage
      ensures Valid() && squeezing && Left() == Fresh(rate, Absorbed())
    {
      FillPadding();
      AbsorbBuffer();
      squeezing := true;
      hi := rate;
      CopyOut();
      assert a[..] == Absorbed();
      assert storage[0..hi] == storage[..rate];
    }

    /** One turn of Read's loop: copy what is ready, and permute when it runs dry. */
    method Take(n: nat) returns (out: seq<byte>)
      requires Shape() && Squeezed() && n > 0
      modifies this`lo, this`hi, a, storage
      ensures Shape() && Squeezed()
      ensures |out| == (if n < old(hi - lo) then n else old(hi - lo)) && out == old(storage[lo..hi])[..|out|]
      ensures Left() == Advance(f, rate, old(Left()), |out|)
    {
      var k := if n < hi - lo then n else hi - lo;
      out := storage[lo..lo + k];
      assert storage[lo..hi][k..] == storage[lo + k..hi];
      lo := lo + k;
      if lo == hi {
        Refill();
        assert storage[0..rate] == storage[..rate];
      }
    }

    method DrawBytes(n: nat) returns (out: seq<byte>)
      requires Shape() && Squeezed()
      modifies this`lo, this`hi, a, storage
      ensures Shape() && Squeezed()
      ensures (out, Left()) == Draw(f, rate, old(Left()), n)
    {
      out := [];
      var left: nat := n;
      ThenNothing(Draw(f, rate, Left(), n));
      while left > 0
        invariant Shape() && Squeezed() && left <= n
        invariant Then(out, Draw(f, rate, Left(), left)) == Draw(f, rate, old(Left()), n)
        decreases left
      {
        ghost var t := Left();
        var chunk := Take(left);
        DrawOn(f, rate, t, left, |chunk|, out);
        out := out + chunk;
        left := left - |chunk|;
      }
      assert out + [] == out;
    }

    /** The next n bytes of the output of everything written; the first read ends the message. */
    method Read(n: nat) returns (out: seq<byte>)
      requires Valid()
      modifies this`lo, this`hi, this`squeezing, a, storage
      ensures Valid() && squeezing
      ensures old(squeezing) ==> (out, Left()) == Draw(f, rate, old(Left()), n)
      ensures !old(squeezing) ==> (out, Left()) == Draw(f, rate, Fresh(rate, Absorbed()), n)
    {
      if !squeezing {
        PadAndPermute();
      }
      out := DrawBytes(n);
    }

    /** Copy lanes and storage; the position is left to the caller. */
    method CopyTo(c: State)
      requires a.Length == 25 && storage.Length == MAX_RATE && c.a.Length == 25 && c.storage.Length == MAX_RATE
      requires c.a != a && c.storage != storage
      modifies c.a, c.storage
      ensures c.a[..] == a[..] && c.storage[..] == storage[..]
    {
      for i := 0 to 25
        invariant c.a[..i] == a[..i]
      {
        c.a[i] := a[i];
      }
      for i := 0 to MAX_RATE
        invariant c.a[..] == a[..] && c.storage[..i] == storage[..i]
      {
        c.storage[i] := storage[i];
      }
      assert c.storage[..] == c.storage[..MAX_RATE] && storage[..] == storage[..MAX_RATE];
    }

    /** A copy. That of a squeezing state is placed by CloneStart: null stands for the panic on a bound below
        zero, and otherwise the copy reads on from that position of the current block. */
    method Clone() returns (c: State?)
      requires Valid()
      ensures c == null <==> squeezing && CloneStart(rate, lo).None?
      ensures c != null ==>
                && c.Valid() && c.squeezing == squeezing && c.message == message
                && fresh(c) && fresh(c.a) && fresh(c.storage)
                && c.f == f && c.rate == rate && c.ds == ds && c.outputLen == outputLen
      ensures c != null && squeezing ==>
                c.lo == CloneStart(rate, lo).value && c.Left() == Tap(a[..], Output(rate, a[..])[c.lo..])
    {
      if squeezing && rate < MAX_RATE - lo {
        return null;
      }
      c := new State(f, rate, ds, outputLen);
      CopyTo(c);
      c.squeezing, c.message := squeezing, message;
      if !squeezing {
        c.lo, c.hi := 0, hi;
        assert c.storage[..hi] == c.storage[..][..hi] == storage[..hi];
      } else {
        c.lo, c.hi := rate - (MAX_RATE - lo), rate;
        assert c.storage[..rate] == c.storage[..][..rate] == storage[..rate];
        assert c.storage[c.lo..c.hi] == c.storage[..rate][c.lo..];
      }
    }

    /** The digest appended to `prefix`; the state is left as it was, so absorbing can go on. After a read it
        is what a copy reads on with, and a panic when there is none. */
    method Sum(prefix: seq<byte>) returns (digest: Option<seq<byte>>)
      requires Valid()
      ensures !squeezing ==> digest == Some(prefix + Hash(f, rate, ds, message, outputLen))
      ensures squeezing ==>
                match CloneStart(rate, lo)
                case None => digest == None
                case Some(start) =>
                  && TapOk(rate, Tap(a[..], Output(rate, a[..])[start..]))
                  && digest == Some(prefix + Draw(f, rate, Tap(a[..], Output(rate, a[..])[start..]), outputLen).0)
    {
      var dup := Clone();
      if dup == null {
        return None;
      }
      ghost var start := if squeezing then dup.Left() else Fresh(rate, Absorbed());
      assert squeezing ==> start == Tap(a[..], Output(rate, a[..])[CloneStart(rate, lo).value..]);
      var hash := dup.Read(outputLen);
      DrawIsSqueeze(f, rate, Absorbed(), outputLen);
      digest := Some(prefix + hash);
    }

    method Reset()
      requires Shape()
      modifies this`lo, this`hi, this`squeezing, this`message, a
      ensures Valid() && !squeezing && message == []
    {
      for i := 0 to 25
        invariant forall j :: 0 <= j < i ==> a[j] == 0
      {
        a[i] := 0;
      }
      lo, hi, squeezing, message := 0, 0, false, [];
      assert a[..] == Zero();
    }
  }
}
