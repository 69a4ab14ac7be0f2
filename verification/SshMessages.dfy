/** The SSH message codec (golang-x-crypto/ssh/messages.go): a struct is a list of fields whose kinds and tags
    the reflection in the source reads off its type. */
module SshMessages {
  import opened Bytes
  import M = SshMpint

  datatype Kind = KBool | KArray(n: nat) | KU8 | KU32 | KU64 | KString | KBytes | KRest | KNames | KInt

  datatype Field =
    | Bool(b: bool) | Array(elements: seq<byte>) | U8(u8: nat) | U32(u32: nat) | U64(u64: nat)
    | String(text: seq<byte>) | ByteString(bytes: seq<byte>) | Rest(rest: seq<byte>)
    | Names(names: seq<seq<byte>>) | Int(n: int)

  function KindOf(f: Field): Kind {
    match f
    case Bool(_) => KBool
    case Array(a) => KArray(|a|)
    case U8(_) => KU8
    case U32(_) => KU32
    case U64(_) => KU64
    case String(_) => KString
    case ByteString(_) => KBytes
    case Rest(_) => KRest
    case Names(_) => KNames
    case Int(_) => KInt
  }

  function Kinds(fs: seq<Field>): seq<Kind> {
    if fs == [] then [] else [KindOf(fs[0])] + Kinds(fs[1..])
  }

  datatype Error = ParseFailed | UnexpectedType | ShortRead | FieldError

  datatype Parsed<T> = Good(value: T, rest: seq<byte>) | Short

  datatype Result = Ok(fields: seq<Field>) | Err(error: Error)

  // Strings and name lists

  /** parseString: the source compares the 32-bit length of what is left. */
  function ParseString(data: seq<byte>): Parsed<seq<byte>> {
    if |data| < 4 then Short else
    var length := ReadU32(data);
    if (|data| - 4) % TWO32 < length then Short else
    Good(data[4..4 + length], data[4 + length..])
  }

  const COMMA: byte := 44

  /** The names, with a comma before every one but the first. */
  function Commas(names: seq<seq<byte>>): seq<byte> {
    if names == [] then [] else if |names| == 1 then names[0] else names[0] + [COMMA] + Commas(names[1..])
  }

  /** bytes.Split at every comma. */
  function Split(s: seq<byte>): (parts: seq<seq<byte>>)
    ensures parts != []
  {
    if s == [] then [[]]
    else if s[0] == COMMA then [[]] + Split(s[1..])
    else var parts := Split(s[1..]); [[s[0]] + parts[0]] + parts[1..]
  }

  function ParseNames(contents: seq<byte>): seq<seq<byte>> {
    if contents == [] then [] else Split(contents)
  }

  predicate CommaFree(s: seq<byte>) { forall i :: 0 <= i < |s| ==> s[i] != COMMA }

  /** A list survives exactly when no name has a comma in it and it is not one empty name. */
  predicate NamesOk(names: seq<seq<byte>>) {
    (forall i :: 0 <= i < |names| ==> CommaFree(names[i])) && names != [[]]
  }

  lemma {:induction false} SplitFirst(a: seq<byte>, rest: seq<byte>)
    requires CommaFree(a)
    ensures Split(a) == [a]
    ensures Split(a + [COMMA] + rest) == [a] + Split(rest)
    decreases |a|
  {
    if a == [] {
      assert a + [COMMA] + rest == [COMMA] + rest;
    } else {
      SplitFirst(a[1..], rest);
      assert (a + [COMMA] + rest)[1..] == a[1..] + [COMMA] + rest;
      assert [a[0]] + a[1..] == a;
    }
  }

  lemma {:induction false} SplitCommas(names: seq<seq<byte>>)
    requires names != [] && forall i :: 0 <= i < |names| ==> CommaFree(names[i])
    ensures Split(Commas(names)) == names
    decreases |names|
  {
    SplitFirst(names[0], if |names| == 1 then [] else Commas(names[1..]));
    if |names| > 1 {
      SplitCommas(names[1..]);
    } else {
      assert names == [names[0]];
    }
  }

  lemma {:induction false} SplitCommaFree(s: seq<byte>)
    ensures forall i :: 0 <= i < |Split(s)| ==> CommaFree(Split(s)[i])
    decreases |s|
  {
    if s != [] {
      SplitCommaFree(s[1..]);
    }
  }

  lemma NonEmptyCommas(names: seq<seq<byte>>)
    requires names != [] && names != [[]]
    ensures Commas(names) != []
  {
    if |names| == 1 {
      assert names == [names[0]];
    }
  }

  lemma NameListExact(names: seq<seq<byte>>)
    ensures ParseNames(Commas(names)) == names <==> NamesOk(names)
  {
    if NamesOk(names) && names != [] {
      NonEmptyCommas(names);
      SplitCommas(names);
    }
    if ParseNames(Commas(names)) == names && Commas(names) != [] {
      SplitCommaFree(Commas(names));
    }
  }

  // Fields

  function U64Bytes(v: nat): (s: seq<byte>)
    ensures |s| == 8
  {
    Bytes.U32(v / TWO32 % TWO32) + Bytes.U32(v % TWO32)
  }

  function Encode(f: Field): seq<byte> {
    match f
    case Bool(b) => [if b then 1 else 0]
    case Array(a) => a
    case U8(v) => [v % 256]
    case U32(v) => Bytes.U32(v)
    case U64(v) => U64Bytes(v)
    case String(s) => LengthPrefixed(s)
    case ByteString(s) => LengthPrefixed(s)
    case Rest(s) => s
    case Names(ns) => LengthPrefixed(Commas(ns))
    case Int(n) => LengthPrefixed(M.Contents(n))
  }

  function DecodeString(k: Kind, data: seq<byte>): Parsed<Field>
    requires k.KString? || k.KBytes? || k.KNames? || k.KInt?
  {
    var p := ParseString(data);
    if p.Short? then Short else
    match k
    case KString => Good(String(p.value), p.rest)
    case KBytes => Good(ByteString(p.value), p.rest)
    case KNames => Good(Names(ParseNames(p.value)), p.rest)
    case KInt => Good(Int(M.ParseContents(p.value)), p.rest)
  }

  function Decode(k: Kind, data: seq<byte>): Parsed<Field> {
    match k
    case KBool => if |data| < 1 then Short else Good(Bool(data[0] != 0), data[1..])
    case KArray(n) => if |data| < n then Short else Good(Array(data[..n]), data[n..])
    case KU8 => if |data| < 1 then Short else Good(U8(data[0]), data[1..])
    case KU32 => if |data| < 4 then Short else Good(U32(ReadU32(data)), data[4..])
    case KU64 => if |data| < 8 then Short else Good(U64(ReadU32(data) * TWO32 + ReadU32(data[4..])), data[8..])
    case KRest => Good(Rest(data), [])
    case _ => DecodeString(k, data)
  }

  /** What the source's types and length fields can carry. */
  predicate Representable(f: Field) {
    match f
    case U8(v) => v < 256
    case U32(v) => v < TWO32
    case U64(v) => v < TWO64
    case Names(ns) => NamesOk(ns)
    case _ => true
  }

  lemma ParseStringUndoes(s: seq<byte>, rest: seq<byte>)
    requires |s| + |rest| < TWO32
    ensures ParseString(LengthPrefixed(s) + rest) == Good(s, rest)
  {
    var data := LengthPrefixed(s) + rest;
    assert data == Bytes.U32(|s|) + (s + rest);
    U32RoundTrip(|s|, s + rest);
  }

  lemma U64RoundTrip(v: nat, rest: seq<byte>)
    requires v < TWO64
    ensures Decode(KU64, U64Bytes(v) + rest) == Good(U64(v), rest)
  {
    var hi, lo := v / TWO32, v % TWO32;
    assert hi < TWO32 && hi % TWO32 == hi && v == hi * TWO32 + lo;
    var data := U64Bytes(v) + rest;
    TwoWords(hi, lo, rest);
    assert data == Bytes.U32(hi) + Bytes.U32(lo) + rest;
  }

  lemma TwoWords(hi: nat, lo: nat, rest: seq<byte>)
    requires hi < TWO32 && lo < TWO32
    ensures var data := Bytes.U32(hi) + Bytes.U32(lo) + rest;
      ReadU32(data) == hi && ReadU32(data[4..]) == lo && data[8..] == rest
  {
    var data := Bytes.U32(hi) + Bytes.U32(lo) + rest;
    assert data == Bytes.U32(hi) + (Bytes.U32(lo) + rest);
    U32RoundTrip(hi, Bytes.U32(lo) + rest);
    U32RoundTrip(lo, rest);
  }

  predicate HasLength(f: Field) { f.String? || f.ByteString? || f.Names? || f.Int? }

  /** The bytes behind the length field of a field. */
  function Payload(f: Field): seq<byte>
    requires HasLength(f)
  {
    match f
    case String(s) => s
    case ByteString(s) => s
    case Names(ns) => Commas(ns)
    case Int(n) => M.Contents(n)
  }

  /** The payload of a field is interpreted as the field. */
  lemma PayloadMeans(f: Field)
    requires Representable(f) && HasLength(f)
    ensures var p := Payload(f);
      match KindOf(f)
      case KNames => Names(ParseNames(p)) == f
      case KInt => Int(M.ParseContents(p)) == f
      case KString => String(p) == f
      case _ => ByteString(p) == f
  {
    if f.Names? {
      NameListExact(f.names);
    } else if f.Int? {
      M.MpintRoundTrip(f.n);
    }
  }

  lemma PrefixedRoundTrip(f: Field, rest: seq<byte>)
    requires Representable(f) && HasLength(f) && |Encode(f)| + |rest| < TWO32
    ensures Decode(KindOf(f), Encode(f) + rest) == Good(f, rest)
  {
    assert Encode(f) == LengthPrefixed(Payload(f));
    ParseStringUndoes(Payload(f), rest);
    PayloadMeans(f);
    assert Decode(KindOf(f), Encode(f) + rest) == DecodeString(KindOf(f), Encode(f) + rest);
  }

  lemma FixedRoundTrip(f: Field, rest: seq<byte>)
    requires Representable(f) && !HasLength(f) && !f.Rest? && !f.U64?
    ensures Decode(KindOf(f), Encode(f) + rest) == Good(f, rest)
  {
    if f.U32? {
      U32RoundTrip(f.u32, rest);
    } else if f.Array? {
      assert (f.elements + rest)[..|f.elements|] == f.elements;
    }
  }

  lemma FieldRoundTrip(f: Field, rest: seq<byte>)
    requires Representable(f) && !f.Rest? && |Encode(f)| + |rest| < TWO32
    ensures Decode(KindOf(f), Encode(f) + rest) == Good(f, rest)
  {
    if HasLength(f) {
      PrefixedRoundTrip(f, rest);
    } else if f.U64? {
      U64RoundTrip(f.u64, rest);
    } else {
      FixedRoundTrip(f, rest);
    }
  }

  // Messages

  function EncodeAll(fs: seq<Field>): seq<byte> {
    if fs == [] then [] else Encode(fs[0]) + EncodeAll(fs[1..])
  }

  function DecodeAll(ks: seq<Kind>, data: seq<byte>): Result {
    if ks == [] then (if data == [] then Ok([]) else Err(ParseFailed)) else
    var p := Decode(ks[0], data);
    if p.Short? then Err(if ks[0].KString? then FieldError else ShortRead) else
    var r := DecodeAll(ks[1..], p.rest);
    if r.Err? then r else Ok([p.value] + r.fields)
  }

  /** Marshal: the first type tag, then the fields. */
  function Marshal(tags: seq<byte>, fs: seq<Field>): seq<byte> {
    (if tags == [] then [] else [tags[0]]) + EncodeAll(fs)
  }

  predicate GoodType(tags: seq<byte>, b: byte) { b > 0 && b in tags }

  function Unmarshal(tags: seq<byte>, ks: seq<Kind>, data: seq<byte>): Result {
    if data == [] then Err(ParseFailed)
    else if tags == [] then DecodeAll(ks, data)
    else if !GoodType(tags, data[0]) then Err(UnexpectedType)
    else DecodeAll(ks, data[1..])
  }

  predicate RestLast(fs: seq<Field>) { forall i :: 0 <= i < |fs| - 1 ==> !fs[i].Rest? }

  predicate AllRepresentable(fs: seq<Field>) { forall i :: 0 <= i < |fs| ==> Representable(fs[i]) }

  lemma DecodeFirst(ks: seq<Kind>, data: seq<byte>, f: Field, rest: seq<byte>, fs: seq<Field>)
    requires ks != [] && Decode(ks[0], data) == Good(f, rest) && DecodeAll(ks[1..], rest) == Ok(fs)
    ensures DecodeAll(ks, data) == Ok([f] + fs)
  {
  }

  lemma DecodeFieldFirst(f: Field, more: seq<Field>)
    requires Representable(f) && |Encode(f) + EncodeAll(more)| < TWO32 && (f.Rest? ==> more == [])
    ensures Decode(KindOf(f), Encode(f) + EncodeAll(more)) == Good(f, EncodeAll(more))
  {
    if f.Rest? {
      assert Encode(f) + [] == Encode(f);
    } else {
      FieldRoundTrip(f, EncodeAll(more));
    }
  }

  lemma {:induction false} FieldsRoundTrip(fs: seq<Field>)
    requires AllRepresentable(fs) && RestLast(fs) && |EncodeAll(fs)| < TWO32
    ensures DecodeAll(Kinds(fs), EncodeAll(fs)) == Ok(fs)
    decreases |fs|
  {
    if fs != [] {
      var f, more := fs[0], fs[1..];
      assert fs == [f] + more && EncodeAll(fs) == Encode(f) + EncodeAll(more);
      FieldsRoundTrip(more);
      DecodeFieldFirst(f, more);
      assert Kinds(fs)[0] == KindOf(f) && Kinds(fs)[1..] == Kinds(more);
      DecodeFirst(Kinds(fs), EncodeAll(fs), f, EncodeAll(more), more);
    }
  }

  /** Unmarshal undoes Marshal for every layout with "rest" last. */
  lemma MessageRoundTrip(tags: seq<byte>, fs: seq<Field>)
    requires AllRepresentable(fs) && RestLast(fs) && |EncodeAll(fs)| < TWO32
    requires Marshal(tags, fs) != [] && (tags != [] ==> tags[0] > 0)
    ensures Unmarshal(tags, Kinds(fs), Marshal(tags, fs)) == Ok(fs)
  {
    FieldsRoundTrip(fs);
    if tags == [] {
      assert Marshal(tags, fs) == EncodeAll(fs);
    } else {
      assert Marshal(tags, fs)[1..] == EncodeAll(fs);
    }
  }

  // The loops

  method AppendField(buf: seq<byte>, f: Field) returns (out: seq<byte>)
    ensures out == buf + Encode(f)
  {
    if f.Names? {
      out := AppendNames(buf, f.names);
    } else if f.Int? {
      out := AppendInt(buf, f.n);
    } else {
      out := buf + Encode(f);
    }
  }

  method MarshalStruct(tags: seq<byte>, fs: seq<Field>) returns (out: seq<byte>)
    ensures out == Marshal(tags, fs)
  {
    out := if |tags| > 0 then [tags[0]] else [];
    for i := 0 to |fs|
      invariant out + EncodeAll(fs[i..]) == Marshal(tags, fs)
    {
      EncodeNext(out, fs, i);
      out := AppendField(out, fs[i]);
    }
    assert EncodeAll(fs[|fs|..]) == [];
  }

  lemma EncodeNext(out: seq<byte>, fs: seq<Field>, i: nat)
    requires i < |fs|
    ensures out + EncodeAll(fs[i..]) == out + Encode(fs[i]) + EncodeAll(fs[i + 1..])
  {
    assert fs[i..][1..] == fs[i + 1..];
  }

  lemma {:induction false} CommasAppend(ns: seq<seq<byte>>, n: seq<byte>)
    requires ns != []
    ensures Commas(ns + [n]) == Commas(ns) + [COMMA] + n
    decreases |ns|
  {
    if |ns| > 1 {
      CommasAppend(ns[1..], n);
      assert (ns + [n])[1..] == ns[1..] + [n];
    } else {
      assert (ns + [n])[1..] == [n];
    }
  }

  /** The length is written as zero first and overwritten once the names are in place. */
  method AppendNames(buf: seq<byte>, ns: seq<seq<byte>>) returns (out: seq<byte>)
    ensures out == buf + Encode(Names(ns))
  {
    var offset := |buf|;
    out := buf + Bytes.U32(0);
    for j := 0 to |ns|
      invariant out == buf + Bytes.U32(0) + Commas(ns[..j])
    {
      if j != 0 {
        CommasAppend(ns[..j], ns[j]);
        out := out + [COMMA];
      }
      out := out + ns[j];
      assert ns[..j + 1] == ns[..j] + [ns[j]];
    }
    assert ns[..|ns|] == ns;
    if |ns| > 0 {
      out := out[..offset] + Bytes.U32(|out| - offset - 4) + out[offset + 4..];
    }
  }

  method AppendInt(buf: seq<byte>, n: int) returns (out: seq<byte>)
    ensures out == buf + Encode(Int(n))
  {
    var to := new byte[M.IntLength(n)](_ => 0);
    M.IntLengthExact(n);
    ghost var was := to[..];
    var _ := M.MarshalInt(to, 0, n);
    AllOverwritten(was, LengthPrefixed(M.Contents(n)));
    out := buf + to[..];
  }

  lemma AllOverwritten(was: seq<byte>, bytes: seq<byte>)
    requires |was| == |bytes|
    ensures M.Overwritten(was, 0, bytes) == bytes
  {
  }

  lemma {:induction false} DecodeAllAppend(done: seq<Field>, ks: seq<Kind>, data: seq<byte>, r: Result)
    requires r == DecodeAll(ks, data)
    ensures ks != [] && Decode(ks[0], data).Good? ==>
      var p := Decode(ks[0], data);
      Prefixed(done, r) == Prefixed(done + [p.value], DecodeAll(ks[1..], p.rest))
  {
    if ks != [] && Decode(ks[0], data).Good? {
      var p := Decode(ks[0], data);
      var q := DecodeAll(ks[1..], p.rest);
      if q.Ok? {
        assert done + ([p.value] + q.fields) == done + [p.value] + q.fields;
      }
    }
  }

  function Prefixed(done: seq<Field>, r: Result): Result {
    if r.Err? then r else Ok(done + r.fields)
  }

  method UnmarshalInto(tags: seq<byte>, ks: seq<Kind>, packet: seq<byte>) returns (r: Result)
    ensures r == Unmarshal(tags, ks, packet)
  {
    var data := packet;
    if |data| == 0 {
      return Err(ParseFailed);
    }
    if |tags| > 0 {
      var good := false;
      for i := 0 to |tags|
        invariant good == GoodType(tags[..i], data[0])
      {
        if tags[i] > 0 && data[0] == tags[i] {
          good := true;
        }
        assert tags[..i + 1] == tags[..i] + [tags[i]];
      }
      assert tags[..|tags|] == tags;
      if !good {
        return Err(UnexpectedType);
      }
      data := data[1..];
    }
    var fields: seq<Field> := [];
    for i := 0 to |ks|
      invariant Prefixed(fields, DecodeAll(ks[i..], data)) == Unmarshal(tags, ks, packet)
    {
      var p := Decode(ks[i], data);
      assert ks[i..][1..] == ks[i + 1..];
      DecodeAllAppend(fields, ks[i..], data, DecodeAll(ks[i..], data));
      if p.Short? {
        return Err(if ks[i].KString? then FieldError else ShortRead);
      }
      fields, data := fields + [p.value], p.rest;
    }
    if |data| != 0 {
      return Err(ParseFailed);
    }
    assert fields + [] == fields;
    r := Ok(fields);
  }
}
