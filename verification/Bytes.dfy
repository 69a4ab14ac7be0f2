/** Byte strings and the fixed-width and variable-width big-endian integers that
    every wire format of the repository is built from. */
module Bytes {
  type byte = x: int | 0 <= x < 256

  const TWO32: nat := 0x1_0000_0000
  const TWO64: nat := 0x1_0000_0000_0000_0000

  datatype Option<+T> = None | Some(value: T)

  function Min(a: nat, b: nat): (r: nat)
    ensures r <= a && r <= b && (r == a || r == b)
  {
    if a < b then a else b
  }

  function Concat(parts: seq<seq<byte>>): seq<byte> {
    if parts == [] then [] else parts[0] + Concat(parts[1..])
  }

  function Pow256(n: nat): nat { if n == 0 then 1 else 256 * Pow256(n - 1) }

  /** The integer a big-endian byte string denotes (`big.Int.SetBytes`). */
  function FromBytes(s: seq<byte>): nat {
    if s == [] then 0 else FromBytes(s[..|s| - 1]) * 256 + s[|s| - 1]
  }

  /** The shortest big-endian byte string of an integer (`big.Int.Bytes`). */
  function ToBytes(v: nat): seq<byte> {
    if v == 0 then [] else ToBytes(v / 256) + [v % 256]
  }

  /** The integer a little-endian byte string denotes. */
  function LittleEndian(s: seq<byte>): nat {
    if s == [] then 0 else s[0] + 256 * LittleEndian(s[1..])
  }

  lemma {:induction false} FromToBytes(v: nat)
    ensures FromBytes(ToBytes(v)) == v
  {
    if v != 0 {
      FromToBytes(v / 256);
      assert ToBytes(v)[..|ToBytes(v)| - 1] == ToBytes(v / 256);
    }
  }

  /** `ToBytes` never starts with a zero byte, so it is the shortest form. */
  lemma {:induction false} ToBytesMinimal(v: nat)
    ensures v == 0 <==> ToBytes(v) == []
    ensures v != 0 ==> ToBytes(v)[0] != 0
  {
    if v != 0 {
      ToBytesMinimal(v / 256);
      if v / 256 == 0 {
        assert ToBytes(v) == [v % 256];
      } else {
        assert ToBytes(v)[0] == ToBytes(v / 256)[0];
      }
    }
  }

  /** Four big-endian bytes of `v` truncated to 32 bits. */
  function U32(v: nat): (s: seq<byte>)
    ensures |s| == 4
  {
    [v / 0x100_0000 % 256, v / 0x1_0000 % 256, v / 0x100 % 256, v % 256]
  }

  function U16(v: nat): (s: seq<byte>)
    ensures |s| == 2
  {
    [v / 0x100 % 256, v % 256]
  }

  function ReadU32(s: seq<byte>): (v: nat)
    requires |s| >= 4
    ensures v < TWO32
  {
    s[0] as int * 0x100_0000 + s[1] as int * 0x1_0000 + s[2] as int * 0x100 + s[3]
  }

  lemma U32RoundTrip(v: nat, rest: seq<byte>)
    requires v < TWO32
    ensures ReadU32(U32(v) + rest) == v
    ensures (U32(v) + rest)[4..] == rest
  {
    var a, b, c := v / 0x100_0000, v / 0x1_0000, v / 0x100;
    assert v == c * 256 + v % 256;
    assert c == b * 256 + c % 256;
    assert b == a * 256 + b % 256;
  }

  /** A length-prefixed byte string; the length field wraps at 32 bits. */
  function LengthPrefixed(s: seq<byte>): (r: seq<byte>)
    ensures |r| == 4 + |s|
  {
    U32(|s|) + s
  }

  lemma Regroup(a: seq<byte>, b: seq<byte>, c: seq<byte>)
    ensures a + b + c == a + (b + c)
  {
  }
}
