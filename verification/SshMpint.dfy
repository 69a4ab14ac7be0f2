/** The mpint of section 5 of RFC 4251 (golang-x-crypto/ssh/messages.go: parseInt, intLength, marshalInt). */
module SshMpint {
  import opened Bytes

  function Inverted(s: seq<byte>): (r: seq<byte>)
    ensures |r| == |s| && forall i :: 0 <= i < |s| ==> r[i] == 255 - s[i]
  {
    seq<byte>(|s|, i requires 0 <= i < |s| => 255 - s[i])
  }

  function BitLen(n: nat): nat {
    if n == 0 then 0 else 1 + BitLen(n / 2)
  }

  /** n when non-negative, and otherwise the number whose inverted bytes denote n: -n - 1. */
  function Magnitude(n: int): nat { if n < 0 then -n - 1 else n }

  /** The shortest non-empty byte string of m whose top bit is clear. */
  function Padded(m: nat): (s: seq<byte>)
    ensures s != []
  {
    var b := ToBytes(m);
    if b == [] || b[0] >= 128 then [0] + b else b
  }

  /** The contents of an mpint: two's complement, zero as the empty string. */
  function Contents(n: int): seq<byte> {
    if n == 0 then [] else if n < 0 then Inverted(Padded(Magnitude(n))) else Padded(n)
  }

  function ParseContents(c: seq<byte>): int {
    if c != [] && c[0] >= 128 then -(FromBytes(Inverted(c)) as int + 1) else FromBytes(c)
  }

  function IntLength(n: int): nat {
    if n == 0 then 4 else
    var bits := BitLen(Magnitude(n));
    4 + (if bits % 8 == 0 then 1 else 0) + (bits + 7) / 8
  }

  // Round trip

  lemma FromBytesZero(s: seq<byte>)
    ensures FromBytes([0] + s) == FromBytes(s)
    decreases |s|
  {
    if s == [] {
      assert [0] + s == [0];
      assert FromBytes([0]) == FromBytes([0][..0]) * 256;
    } else {
      FromBytesZero(s[..|s| - 1]);
      assert ([0] + s)[..|s|] == [0] + s[..|s| - 1];
    }
  }

  lemma PaddedDenotes(m: nat)
    ensures FromBytes(Padded(m)) == m && Padded(m)[0] < 128
  {
    FromToBytes(m);
    ToBytesMinimal(m);
    FromBytesZero(ToBytes(m));
  }

  lemma InvertTwice(s: seq<byte>)
    ensures Inverted(Inverted(s)) == s
  {
  }

  lemma MpintRoundTrip(n: int)
    ensures ParseContents(Contents(n)) == n
  {
    PaddedDenotes(Magnitude(n));
    InvertTwice(Padded(Magnitude(n)));
  }

  // Length

  lemma BitLenByte(m: nat)
    ensures 0 < m < 256 ==> 1 <= BitLen(m) <= 8 && (BitLen(m) == 8 <==> m >= 128)
    ensures m >= 256 ==> BitLen(m) == 8 + BitLen(m / 256)
  {
    var a := m / 2; var b := a / 2; var c := b / 2; var d := c / 2;
    var e := d / 2; var f := e / 2; var g := f / 2; var h := g / 2;
    assert BitLen(m) == (if m == 0 then 0 else 1 + BitLen(a)) && BitLen(a) == (if a == 0 then 0 else 1 + BitLen(b));
    assert BitLen(b) == (if b == 0 then 0 else 1 + BitLen(c)) && BitLen(c) == (if c == 0 then 0 else 1 + BitLen(d));
    assert BitLen(d) == (if d == 0 then 0 else 1 + BitLen(e)) && BitLen(e) == (if e == 0 then 0 else 1 + BitLen(f));
    assert BitLen(f) == (if f == 0 then 0 else 1 + BitLen(g)) && BitLen(g) == (if g == 0 then 0 else 1 + BitLen(h));
    assert h == m / 256;
  }

  lemma {:induction false} ToBytesLength(m: nat)
    requires m > 0
    ensures |ToBytes(m)| == (BitLen(m) + 7) / 8
    ensures ToBytes(m) != [] && (ToBytes(m)[0] >= 128 <==> BitLen(m) % 8 == 0)
  {
    BitLenByte(m);
    ToBytesMinimal(m);
    if m < 256 {
      assert ToBytes(m / 256) == [];
      assert ToBytes(m) == [m];
    } else {
      ToBytesLength(m / 256);
      assert ToBytes(m)[0] == ToBytes(m / 256)[0];
    }
  }

  /** intLength is exact. */
  lemma IntLengthExact(n: int)
    ensures 4 + |Contents(n)| == IntLength(n)
  {
    var m := Magnitude(n);
    if m > 0 {
      ToBytesLength(m);
    } else {
      assert ToBytes(m) == [];
    }
  }

  // Minimality

  lemma {:induction false} Pow256Monotone(a: nat, b: nat)
    requires a <= b
    ensures 1 <= Pow256(a) <= Pow256(b)
    decreases b
  {
    if b > 0 {
      if a < b { Pow256Monotone(a, b - 1); } else { Pow256Monotone(a - 1, b - 1); }
    }
  }

  /** A byte string denotes a number between its first byte's share and the next one's. */
  lemma {:induction false} FromBytesRange(s: seq<byte>)
    requires s != []
    ensures s[0] as int * Pow256(|s| - 1) <= FromBytes(s) < (s[0] as int + 1) * Pow256(|s| - 1)
  {
    if |s| == 1 {
      assert s[..0] == [];
      assert FromBytes(s) == FromBytes(s[..0]) * 256 + s[0];
    } else {
      var p := s[..|s| - 1];
      FromBytesRange(p);
      var w := Pow256(|s| - 2);
      assert FromBytes(p) + 1 <= (s[0] as int + 1) * w;
      assert s[0] as int * (256 * w) == 256 * (s[0] as int * w);
      assert (s[0] as int + 1) * (256 * w) == 256 * ((s[0] as int + 1) * w);
    }
  }

  lemma {:induction false} FromBytesInjective(s: seq<byte>, t: seq<byte>)
    requires |s| == |t| && FromBytes(s) == FromBytes(t)
    ensures s == t
  {
    if s != [] {
      var n := |s| - 1;
      FromBytesInjective(s[..n], t[..n]);
      assert s == s[..n] + [s[n]] && t == t[..n] + [t[n]];
    }
  }

  lemma MulMonotone(a: nat, b: nat, w: nat)
    requires a <= b
    ensures a * w <= b * w
  {
  }

  lemma Below(c: seq<byte>, k: nat)
    requires c != [] && c[0] < k
    ensures FromBytes(c) < k * Pow256(|c| - 1)
  {
    FromBytesRange(c);
    MulMonotone(c[0] as int + 1, k, Pow256(|c| - 1));
  }

  lemma AtLeast(b: seq<byte>, k: nat)
    requires b != [] && k <= b[0]
    ensures k * Pow256(|b| - 1) <= FromBytes(b)
  {
    FromBytesRange(b);
    MulMonotone(k, b[0], Pow256(|b| - 1));
  }

  lemma ShorterIsLess(c: seq<byte>, b: seq<byte>)
    requires c != [] && |c| < |b| && b[0] > 0
    ensures FromBytes(c) < FromBytes(b)
  {
    Below(c, 256);
    AtLeast(b, 1);
    Pow256Monotone(|c|, |b| - 1);
  }

  lemma ClearIsLess(c: seq<byte>, b: seq<byte>)
    requires c != [] && |c| <= |b| && c[0] < 128 <= b[0]
    ensures FromBytes(c) < FromBytes(b)
  {
    Below(c, 128);
    AtLeast(b, 128);
    Pow256Monotone(|c| - 1, |b| - 1);
  }

  /** Of all non-empty byte strings with a clear top bit that denote m, Padded(m) is the shortest. */
  lemma PaddedShortest(m: nat, c: seq<byte>)
    requires c != [] && c[0] < 128 && FromBytes(c) == m
    ensures |Padded(m)| <= |c| && (|c| == |Padded(m)| ==> c == Padded(m))
  {
    PaddedDenotes(m);
    ToBytesMinimal(m);
    FromToBytes(m);
    var b := ToBytes(m);
    if b != [] && |c| < |b| {
      ShorterIsLess(c, b);
    } else if b != [] && b[0] >= 128 && |c| <= |b| {
      ClearIsLess(c, b);
    } else if |c| == |Padded(m)| {
      FromBytesInjective(c, Padded(m));
    }
  }

  /** The contents of an mpint are the unique shortest two's-complement form. */
  lemma MpintShortest(n: int, c: seq<byte>)
    requires ParseContents(c) == n
    ensures |Contents(n)| <= |c| && (|c| == |Contents(n)| ==> c == Contents(n))
  {
    if n < 0 {
      PaddedShortest(Magnitude(n), Inverted(c));
      InvertTwice(c);
    } else if n > 0 {
      PaddedShortest(n, c);
    } else if c != [] && c[0] >= 128 {
      assert false;
    }
  }

  /** The two's-complement bytes, and the padding byte when they need one. */
  method TwosComplement(n: int) returns (pad: seq<byte>, bytes: seq<byte>)
    ensures pad + bytes == Contents(n)
  {
    bytes, pad := [], [];
    if n < 0 {
      bytes := Inverted(ToBytes(-n - 1));
      if |bytes| == 0 || bytes[0] < 128 {
        pad := [255];
      }
    } else if n > 0 {
      bytes := ToBytes(n);
      if |bytes| > 0 && bytes[0] >= 128 {
        pad := [0];
      }
    }
    PadSplits(n, pad, bytes);
  }

  /** s with the bytes from `at` on replaced. */
  function Overwritten(s: seq<byte>, at: nat, bytes: seq<byte>): seq<byte>
    requires at + |bytes| <= |s|
  {
    s[..at] + bytes + s[at + |bytes|..]
  }

  /** Two copies, one after the other or the second before the first, are one copy of both. */
  lemma CopiedAfter(s: seq<byte>, at: nat, a: seq<byte>, b: seq<byte>)
    requires at + |a| + |b| <= |s|
    ensures Overwritten(Overwritten(s, at, a), at + |a|, b) == Overwritten(s, at, a + b)
  {
  }

  lemma CopiedBefore(s: seq<byte>, at: nat, a: seq<byte>, b: seq<byte>)
    requires at + |a| + |b| <= |s|
    ensures Overwritten(Overwritten(s, at + |a|, b), at, a) == Overwritten(s, at, a + b)
  {
  }

  method WriteContents(to: array<byte>, at: nat, n: int) returns (end: nat)
    requires at + |Contents(n)| <= to.Length
    modifies to
    ensures end == at + |Contents(n)| && to[..] == Overwritten(old(to[..]), at, Contents(n))
  {
    var pad, bytes := TwosComplement(n);
    CopiedAfter(to[..], at, pad, bytes);
    CopyInto(to, at, pad);
    CopyInto(to, at + |pad|, bytes);
    end := at + |pad| + |bytes|;
  }

  /** marshalInt: fill the buffer from `at` with the length and the contents, and leave the rest of it. */
  method MarshalInt(to: array<byte>, at: nat, n: int) returns (end: nat)
    requires at + |LengthPrefixed(Contents(n))| <= to.Length
    modifies to
    ensures end == at + IntLength(n)
    ensures to[..] == Overwritten(old(to[..]), at, LengthPrefixed(Contents(n)))
  {
    IntLengthExact(n);
    CopiedBefore(to[..], at, U32(|Contents(n)|), Contents(n));
    end := WriteContents(to, at + 4, n);
    CopyInto(to, at, U32(end - at - 4));
  }

  lemma PadSplits(n: int, pad: seq<byte>, bytes: seq<byte>)
    requires bytes == if n < 0 then Inverted(ToBytes(-n - 1)) else if n > 0 then ToBytes(n) else []
    requires pad == if n < 0 && (bytes == [] || bytes[0] < 128) then [255] else if n > 0 && bytes != []
        && bytes[0] >= 128 then [0] else []
    ensures pad + bytes == Contents(n)
  {
    ToBytesMinimal(Magnitude(n));
  }

  method CopyInto(to: array<byte>, at: nat, bytes: seq<byte>)
    requires at + |bytes| <= to.Length
    modifies to
    ensures to[..] == Overwritten(old(to[..]), at, bytes)
  {
    for i := 0 to |bytes|
      invariant forall j :: 0 <= j < i ==> to[at + j] == bytes[j]
      invariant forall j :: 0 <= j < to.Length && !(at <= j < at + i) ==> to[j] == old(to[j])
    {
      to[at + i] := bytes[i];
    }
  }

  /** parseInt's inversion loop. */
  method ParseInt(contents: seq<byte>) returns (n: int)
    ensures n == ParseContents(contents)
  {
    if |contents| > 0 && contents[0] >= 128 {
      var notBytes: seq<byte> := [];
      for i := 0 to |contents|
        invariant |notBytes| == i && forall j :: 0 <= j < i ==> notBytes[j] == 255 - contents[j]
      {
        notBytes := notBytes + [255 - contents[i]];
      }
      assert notBytes == Inverted(contents);
      n := -(FromBytes(notBytes) as int + 1);
    } else {
      n := FromBytes(contents);
    }
  }
}
