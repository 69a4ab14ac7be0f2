/** The byte layout of an OTR data message (golang-x-crypto/otr/otr.go): the get and append
    helpers, the message itself and the eight-byte counter. */
module OtrCodec {
  import opened Bytes

  /** A parsed field and the input that follows it; None is the helpers' `ok == false`. */
  type Parsed<T> = Option<(T, seq<byte>)>

  function GetU8(s: seq<byte>): Parsed<byte> {
    if |s| < 1 then None else Some((s[0], s[1..]))
  }

  function GetU32(s: seq<byte>): Parsed<nat> {
    if |s| < 4 then None else Some((ReadU32(s), s[4..]))
  }

  function GetNBytes(s: seq<byte>, n: nat): Parsed<seq<byte>> {
    if |s| < n then None else Some((s[..n], s[n..]))
  }

  /** The remaining length is compared after truncation to 32 bits. */
  function GetData(s: seq<byte>): Parsed<seq<byte>> {
    match GetU32(s)
    case None => None
    case Some((l, rest)) => if |rest| % TWO32 < l then None else Some((rest[..l], rest[l..]))
  }

  function GetMPI(s: seq<byte>): Parsed<nat> {
    match GetData(s)
    case None => None
    case Some((d, rest)) => Some((FromBytes(d), rest))
  }

  function AppendMPI(v: nat): seq<byte> {
    LengthPrefixed(ToBytes(v))
  }

  datatype DataMessage = DataMessage(
    flags: byte, senderKeyId: nat, recipientKeyId: nat, nextDH: nat, counter: seq<byte>,
    encrypted: seq<byte>, mac: seq<byte>, oldMACs: seq<byte>)

  /** The fields in clear: flags, the two key ids and the sender's next public value. */
  function HeadPart(m: DataMessage): seq<byte> {
    [m.flags] + (U32(m.senderKeyId) + (U32(m.recipientKeyId) + AppendMPI(m.nextDH)))
  }

  /** The part of the message, after the three-byte header, that the MAC covers. */
  function MacedPart(m: DataMessage): seq<byte> {
    HeadPart(m) + (m.counter + LengthPrefixed(m.encrypted))
  }

  function Serialize(m: DataMessage): seq<byte> {
    MacedPart(m) + (m.mac + LengthPrefixed(m.oldMACs))
  }

  function ParseHead(wire: seq<byte>): Parsed<(byte, nat, nat, nat)> {
    match GetU8(wire) case None => None case Some((flags, s1)) =>
    match GetU32(s1) case None => None case Some((senderKeyId, s2)) =>
    match GetU32(s2) case None => None case Some((recipientKeyId, s3)) =>
    match GetMPI(s3) case None => None case Some((nextDH, s4)) =>
      Some(((flags, senderKeyId, recipientKeyId, nextDH), s4))
  }

  function ParseBody(s: seq<byte>): Parsed<(seq<byte>, seq<byte>)> {
    match GetNBytes(s, 8) case None => None case Some((counter, s1)) =>
    match GetData(s1) case None => None case Some((encrypted, s2)) =>
      Some(((counter, encrypted), s2))
  }

  function ParseTrailer(s: seq<byte>): Parsed<(seq<byte>, seq<byte>)> {
    match GetNBytes(s, 20) case None => None case Some((mac, s1)) =>
    match GetData(s1) case None => None case Some((oldMACs, s2)) =>
      Some(((mac, oldMACs), s2))
  }

  /** The field parse at the start of processData, with the bytes the MAC is checked over. */
  function Parse(wire: seq<byte>): Option<(DataMessage, seq<byte>)> {
    match ParseHead(wire) case None => None case Some((h, s1)) =>
    match ParseBody(s1) case None => None case Some((b, s2)) =>
    match ParseTrailer(s2) case None => None case Some((t, s3)) =>
    if |s3| > 0 || |s2| > |wire| then None else
      Some((DataMessage(h.0, h.1, h.2, h.3, b.0, b.1, t.0, t.1), wire[..|wire| - |s2|]))
  }

  ghost predicate WellFormed(m: DataMessage) {
    && m.senderKeyId < TWO32 && m.recipientKeyId < TWO32
    && |m.counter| == 8 && |m.mac| == 20
    && |Serialize(m)| < TWO32
  }

  lemma GetDataRoundTrip(d: seq<byte>, rest: seq<byte>)
    requires |d| + |rest| < TWO32
    ensures GetData(LengthPrefixed(d) + rest) == Some((d, rest))
  {
    var s := LengthPrefixed(d) + rest;
    assert s == U32(|d|) + (d + rest);
    U32RoundTrip(|d|, d + rest);
  }

  lemma GetMPIRoundTrip(v: nat, rest: seq<byte>)
    requires |ToBytes(v)| + |rest| < TWO32
    ensures GetMPI(AppendMPI(v) + rest) == Some((v, rest))
  {
    GetDataRoundTrip(ToBytes(v), rest);
    FromToBytes(v);
  }

  lemma ParseHeadRoundTrip(m: DataMessage, rest: seq<byte>)
    requires m.senderKeyId < TWO32 && m.recipientKeyId < TWO32
    requires |ToBytes(m.nextDH)| + |rest| < TWO32
    ensures ParseHead(HeadPart(m) + rest) ==
            Some(((m.flags, m.senderKeyId, m.recipientKeyId, m.nextDH), rest))
  {
    var s3 := AppendMPI(m.nextDH) + rest;
    var s2 := U32(m.recipientKeyId) + s3;
    var s1 := U32(m.senderKeyId) + s2;
    assert HeadPart(m) + rest == [m.flags] + s1;
    assert ([m.flags] + s1)[1..] == s1;
    U32RoundTrip(m.senderKeyId, s2);
    U32RoundTrip(m.recipientKeyId, s3);
    GetMPIRoundTrip(m.nextDH, rest);
  }

  lemma ParseBodyRoundTrip(m: DataMessage, rest: seq<byte>)
    requires |m.counter| == 8 && |m.encrypted| + |rest| < TWO32
    ensures ParseBody((m.counter + LengthPrefixed(m.encrypted)) + rest) ==
            Some(((m.counter, m.encrypted), rest))
  {
    var s1 := LengthPrefixed(m.encrypted) + rest;
    var s := (m.counter + LengthPrefixed(m.encrypted)) + rest;
    assert s == m.counter + s1;
    assert s[..8] == m.counter && s[8..] == s1;
    GetDataRoundTrip(m.encrypted, rest);
  }

  lemma ParseTrailerRoundTrip(m: DataMessage)
    requires |m.mac| == 20 && |m.oldMACs| < TWO32
    ensures ParseTrailer(m.mac + LengthPrefixed(m.oldMACs)) == Some(((m.mac, m.oldMACs), []))
  {
    var s1 := LengthPrefixed(m.oldMACs);
    var s := m.mac + s1;
    assert s[..20] == m.mac && s[20..] == s1;
    assert s1 == s1 + [];
    GetDataRoundTrip(m.oldMACs, []);
  }

  /** Parsing undoes serialising, and the receiver MACs exactly the bytes the sender MACed. */
  lemma ParseSerialize(m: DataMessage)
    requires WellFormed(m)
    ensures Parse(Serialize(m)) == Some((m, MacedPart(m)))
  {
    var wire := Serialize(m);
    var s2 := m.mac + LengthPrefixed(m.oldMACs);
    var body := m.counter + LengthPrefixed(m.encrypted);
    assert wire == HeadPart(m) + (body + s2);
    assert wire == MacedPart(m) + s2;
    ParseHeadRoundTrip(m, body + s2);
    ParseBodyRoundTrip(m, s2);
    ParseTrailerRoundTrip(m);
    assert wire[..|wire| - |s2|] == MacedPart(m);
  }

  // ---- the eight-byte big-endian counter ----

  /** `bytes.Compare(s, t) < 0` on equally long strings */
  predicate LexLess(s: seq<byte>, t: seq<byte>)
    requires |s| == |t|
  {
    s != [] && (s[0] < t[0] || (s[0] == t[0] && LexLess(s[1..], t[1..])))
  }

  lemma {:induction false} FromBytesFront(x: byte, s: seq<byte>)
    ensures FromBytes([x] + s) == x * Pow256(|s|) + FromBytes(s)
    ensures FromBytes(s) < Pow256(|s|)
  {
    var t := [x] + s;
    if s == [] {
      assert t[..0] == [];
    } else {
      var init, last := s[..|s| - 1], s[|s| - 1];
      FromBytesFront(x, init);
      assert t[..|t| - 1] == [x] + init;
      assert 256 * (x * Pow256(|init|)) == x * Pow256(|s|);
    }
  }

  lemma HighByteDecides(x: int, u: nat, y: int, v: nat, w: nat)
    requires u < w && v < w
    ensures x * w + u < y * w + v <==> x < y || (x == y && u < v)
  {
    if x < y {
      StepsApart(x, y, w);
    } else if y < x {
      StepsApart(y, x, w);
    }
  }

  lemma StepsApart(x: int, y: int, w: nat)
    requires x < y
    ensures x * w + w <= y * w
  {
    var d := y - x - 1;
    assert y * w == x * w + w + d * w by { assert y == x + 1 + d; }
    assert d * w >= 0;
  }

  /** The byte comparison in processData is the numeric order of the counters. */
  lemma {:induction false} LexLessIsNumeric(s: seq<byte>, t: seq<byte>)
    requires |s| == |t|
    ensures LexLess(s, t) <==> FromBytes(s) < FromBytes(t)
  {
    if s != [] {
      LexLessIsNumeric(s[1..], t[1..]);
      assert s == [s[0]] + s[1..] && t == [t[0]] + t[1..];
      FromBytesFront(s[0], s[1..]);
      FromBytesFront(t[0], t[1..]);
      HighByteDecides(s[0], FromBytes(s[1..]), t[0], FromBytes(t[1..]), Pow256(|s| - 1));
    }
  }

  /** What incCounter leaves in the array. */
  function Incremented(s: seq<byte>): (r: seq<byte>)
    ensures |r| == |s|
  {
    if s == [] then []
    else
      var init, last := s[..|s| - 1], s[|s| - 1];
      if last == 255 then Incremented(init) + [0] else init + [last + 1]
  }

  /** Incrementing adds one and wraps to zero only from the all-ones counter. */
  lemma {:induction false} IncrementedValue(s: seq<byte>)
    ensures FromBytes(Incremented(s)) ==
            if FromBytes(s) + 1 == Pow256(|s|) then 0 else FromBytes(s) + 1
    ensures FromBytes(s) < Pow256(|s|)
  {
    if s != [] {
      var init, last := s[..|s| - 1], s[|s| - 1];
      IncrementedValue(init);
      assert Incremented(s)[..|s| - 1] == if last == 255 then Incremented(init) else init;
    }
  }

  method IncCounter(counter: array<byte>)
    modifies counter
    ensures counter[..] == Incremented(old(counter[..]))
  {
    ghost var was := counter[..];
    assert was[..counter.Length] == was;
    var i := counter.Length;
    while i > 0
      invariant 0 <= i <= counter.Length
      invariant counter[..i] == was[..i]
      invariant Incremented(was) == Incremented(was[..i]) + counter[i..]
    {
      i := i - 1;
      ghost var tail := counter[i + 1..];
      assert was[..i + 1][..i] == was[..i] && was[..i + 1][i] == counter[i];
      if counter[i] == 255 {
        counter[i] := 0;
        assert counter[i..] == [0] + tail;
        assert Incremented(was[..i + 1]) == Incremented(was[..i]) + [0];
      } else {
        counter[i] := counter[i] + 1;
        assert Incremented(was[..i + 1]) == was[..i] + [counter[i]];
        assert counter[..] == counter[..i] + [counter[i]] + tail;
        return;
      }
    }
    assert counter[..] == counter[0..];
  }
}
