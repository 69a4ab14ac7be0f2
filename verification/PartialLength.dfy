/** OpenPGP packet headers and partial body lengths (golang-x-crypto/openpgp/packet/packet.go; section 4.2 of
    RFC 4880). A source is the list of bytes still unread in it; each read says how many bytes the source
    is willing to give at once. */
module PartialLength {
  import opened Bytes

  function Power(k: nat): (r: nat)
    ensures r >= 1
  {
    if k == 0 then 1 else 2 * Power(k - 1)
  }

  // Writing

  /** The largest power of two, at most 2^14, that is not more than n. */
  function ChunkPower(n: nat, from: nat): (k: nat)
    requires n >= 1
    ensures k <= from && Power(k) <= n && (k == from || n < Power(k + 1))
  {
    if n >= Power(from) then from else ChunkPower(n, from - 1)
  }

  /** The chunks one Write cuts its argument into. */
  function Chunks(p: seq<byte>): (chunks: seq<seq<byte>>)
    ensures forall i :: 0 <= i < |chunks| ==> IsChunk(chunks[i])
    decreases |p|
  {
    if p == [] then [] else
    var l := Power(ChunkPower(|p|, 14));
    FirstChunk(p);
    [p[..l]] + Chunks(p[l..])
  }

  /** The exponent of a chunk's length. */
  function PowerOf(c: seq<byte>): (k: nat)
    ensures k <= 14
  {
    if c == [] then 0 else ChunkPower(|c|, 14)
  }

  predicate IsChunk(c: seq<byte>) { |c| == Power(PowerOf(c)) }

  lemma {:induction false} PowerGrows(a: nat, b: nat)
    requires a < b
    ensures Power(a) < Power(b)
    decreases b
  {
    if a + 1 < b { PowerGrows(a, b - 1); }
  }

  lemma {:induction false} PowerOfPower(k: nat, from: nat)
    requires k <= from
    ensures ChunkPower(Power(k), from) == k
    decreases from
  {
    if k < from {
      PowerGrows(k, from);
      PowerOfPower(k, from - 1);
    }
  }

  /** The first chunk of a write is one. */
  lemma FirstChunk(p: seq<byte>)
    requires p != []
    ensures IsChunk(p[..Power(ChunkPower(|p|, 14))])
  {
    PowerOfPower(ChunkPower(|p|, 14), 14);
  }

  lemma Assoc(a: seq<byte>, b: seq<byte>, c: seq<byte>, d: seq<byte>)
    ensures a + b + c + d == a + (b + (c + d))
  {
  }

  /** A chunk on the wire: its partial length octet and its bytes. */
  function Frame(c: seq<byte>): seq<byte> { [224 + PowerOf(c)] + c }

  function Framed(chunks: seq<seq<byte>>): seq<byte> {
    if chunks == [] then [] else Frame(chunks[0]) + Framed(chunks[1..])
  }

  lemma {:induction false} ChunksAre(p: seq<byte>)
    ensures Concat(Chunks(p)) == p
    decreases |p|
  {
    if p != [] {
      var l := Power(ChunkPower(|p|, 14));
      ChunksAre(p[l..]);
      assert p[..l] + p[l..] == p;
    }
  }

  // Reading

  datatype Error = EndOfFile | UnexpectedEof | Structural

  datatype Length = Length(n: nat, partial: bool, rest: seq<byte>) | Failed(error: Error, n: nat)

  /** readLength; readFull turns a missing byte into an unexpected end. A failure leaves the source empty, and
      reports the part of the length that was known. */
  function ReadLength(s: seq<byte>): (r: Length)
    ensures r.Length? ==> |r.rest| < |s|
  {
    if |s| < 1 then Failed(UnexpectedEof, 0)
    else if s[0] < 192 then Length(s[0], false, s[1..])
    else if s[0] < 224 then
      var high := (s[0] as int - 192) * 256;
      if |s| < 2 then Failed(UnexpectedEof, high) else Length(high + s[1] + 192, false, s[2..])
    else if s[0] < 255 then Length(Power(s[0] as int % 32), true, s[1..])
    else if |s| < 5 then Failed(UnexpectedEof, 0)
    else Length(ReadU32(s[1..]), false, s[5..])
  }

  /** The reader a header announces: a span of known length, partial lengths, or all that is left. */
  datatype Contents = Span(n: nat) | Partial(remaining: nat, more: bool) | Unbounded

  datatype Header = Header(tag: nat, contents: Contents, rest: seq<byte>) | NoHeader(error: Error)

  function OldHeader(b: byte, s: seq<byte>): Header {
    var tag, kind := b as int % 64 / 4, b as int % 4;
    if kind == 3 then Header(tag, Unbounded, s) else
    var size := Power(kind);
    if |s| < size then NoHeader(UnexpectedEof) else Header(tag, Span(FromBytes(s[..size])), s[size..])
  }

  function ReadHeader(s: seq<byte>): Header {
    if |s| < 1 then NoHeader(EndOfFile)
    else if s[0] < 128 then NoHeader(Structural)
    else if s[0] < 192 then OldHeader(s[0], s[1..])
    else
      var l := ReadLength(s[1..]);
      if l.Failed? then NoHeader(l.error)
      else Header(s[0] as int % 64, if l.partial then Partial(l.n, true) else Span(l.n), l.rest)
  }

  /** A packet being read: its contents reader and its source. */
  datatype Reader = Reader(contents: Contents, source: seq<byte>)

  datatype ReadResult = ReadResult(bytes: seq<byte>, error: Option<Error>, next: Reader)

  /** The source gives at most `grant` of the bytes asked for; an exhausted one reports its end, and an eager one
      does so together with its last bytes. */
  function SourceRead(s: seq<byte>, n: nat, grant: nat, eager: bool): (seq<byte>, Option<Error>) {
    var bytes := s[..Min(Min(n, |s|), grant)];
    if n > 0 && s == [] then ([], Some(EndOfFile))
    else (bytes, if eager && bytes == s && s != [] then Some(EndOfFile) else None)
  }

  function Give(c: Contents, s: seq<byte>, want: nat, grant: nat, eager: bool): ReadResult
    requires c.Span? ==> want <= c.n
    requires c.Partial? ==> want <= c.remaining
  {
    var (bytes, err) := SourceRead(s, want, grant, eager);
    var k := |bytes|;
    var left :=
      match c {
        case Span(n) => Span(n - k)
        case Partial(r, m) => Partial(r - k, m)
        case Unbounded => Unbounded
      };
    var err2 := if err == Some(EndOfFile) && ((c.Span? && left.n > 0) || (c.Partial? && k < want))
        then Some(UnexpectedEof) else err;
    ReadResult(bytes, err2, Reader(left, s[k..]))
  }

  /** Read of the three contents readers, with a buffer of `size` bytes. */
  function Read(r: Reader, size: nat, grant: nat, eager: bool): ReadResult
    decreases |r.source|
  {
    match r.contents
    case Unbounded => Give(Unbounded, r.source, size, grant, eager)
    case Span(n) => if n == 0 then ReadResult([], Some(EndOfFile), r)
        else Give(r.contents, r.source, Min(size, n), grant, eager)
    case Partial(remaining, more) =>
      if remaining > 0 then Give(r.contents, r.source, Min(size, remaining), grant, eager)
      else if !more then ReadResult([], Some(EndOfFile), r)
      else
        var l := ReadLength(r.source);
        if l.Failed? then ReadResult([], Some(l.error), Reader(Partial(l.n, false), []))
        else Read(Reader(Partial(l.n, l.partial), l.rest), size, grant, eager)
  }

  // Round trip

  /** `r` still has the bytes `cur` of a chunk and then `chunks` to give, and `tail` follows the packet. */
  ghost predicate Holds(r: Reader, cur: seq<byte>, chunks: seq<seq<byte>>, tail: seq<byte>) {
    && (forall i :: 0 <= i < |chunks| ==> IsChunk(chunks[i]))
    && r.contents == Partial(|cur|, true)
    && r.source == cur + (Framed(chunks) + [0] + tail)
  }

  /** The packet has been read to its end. */
  predicate AtEnd(r: Reader, tail: seq<byte>) {
    r.source == tail && (r.contents == Span(0) || r.contents == Partial(0, false))
  }

  /** The bytes `left` remain to be read before `tail`. */
  ghost predicate Ready(r: Reader, left: seq<byte>, tail: seq<byte>) {
    || (left == [] && AtEnd(r, tail))
    || exists cur: seq<byte>, chunks :: Holds(r, cur, chunks, tail) && left == cur + Concat(chunks)
  }

  lemma ReadPartialOctet(k: nat, rest: seq<byte>)
    requires k <= 14
    ensures ReadLength([224 + k] + rest) == Length(Power(k), true, rest)
  {
    assert (224 + k) % 32 == k;
  }

  lemma FramedStep(chunks: seq<seq<byte>>, more: seq<byte>)
    requires chunks != []
    ensures Framed(chunks) + more == [224 + PowerOf(chunks[0])] + (chunks[0] + (Framed(chunks[1..]) + more))
  {
    Assoc([224 + PowerOf(chunks[0])], chunks[0], Framed(chunks[1..]), more);
  }

  /** A partial length octet announces exactly the chunk that follows it. */
  lemma ReadChunkLength(chunks: seq<seq<byte>>, more: seq<byte>)
    requires chunks != [] && IsChunk(chunks[0])
    ensures ReadLength(Framed(chunks) + more) == Length(|chunks[0]|, true, chunks[0] + (Framed(chunks[1..]) + more))
  {
    FramedStep(chunks, more);
    ReadPartialOctet(PowerOf(chunks[0]), chunks[0] + (Framed(chunks[1..]) + more));
  }

  /** One read from inside a chunk. */
  lemma ReadInChunk(r: Reader, cur: seq<byte>, chunks: seq<seq<byte>>, tail: seq<byte>, size: nat, grant: nat,
                    eager: bool)
    requires Holds(r, cur, chunks, tail) && cur != []
    ensures var res := Read(r, size, grant, eager);
      && res.error == None && |res.bytes| == Min(Min(size, |cur|), grant)
      && res.bytes == cur[..|res.bytes|]
      && Holds(res.next, cur[|res.bytes|..], chunks, tail)
  {
    var k := Min(Min(size, |cur|), grant);
    var f := Framed(chunks) + [0] + tail;
    assert r.source == cur + f;
    assert (cur + f)[..k] == cur[..k];
    assert (cur + f)[k..] == cur[k..] + f;
  }

  /** A reader between chunks that finds a length goes on with it. */
  lemma ReadLengthFirst(r: Reader, l: Length, size: nat, grant: nat, eager: bool)
    requires r.contents == Partial(0, true) && ReadLength(r.source) == l && l.Length?
    ensures Read(r, size, grant, eager) == Read(Reader(Partial(l.n, l.partial), l.rest), size, grant, eager)
  {
  }

  lemma ChunkNotEmpty(c: seq<byte>)
    requires IsChunk(c)
    ensures c != []
  {
    assert Power(PowerOf(c)) >= 1;
  }

  /** One read at the end of a chunk: the next chunk's length is read first. */
  lemma ReadAtBoundary(r: Reader, chunks: seq<seq<byte>>, tail: seq<byte>, size: nat, grant: nat, eager: bool)
    requires Holds(r, [], chunks, tail) && chunks != []
    ensures var r2 := Reader(Partial(|chunks[0]|, true), chunks[0] + (Framed(chunks[1..]) + [0] + tail));
      && Read(r, size, grant, eager) == Read(r2, size, grant, eager)
      && Holds(r2, chunks[0], chunks[1..], tail) && chunks[0] != []
  {
    Regroup(Framed(chunks), [0], tail);
    Regroup(Framed(chunks[1..]), [0], tail);
    assert r.source == Framed(chunks) + ([0] + tail);
    ReadChunkLength(chunks, [0] + tail);
    ReadLengthFirst(r, Length(|chunks[0]|, true, chunks[0] + (Framed(chunks[1..]) + [0] + tail)), size, grant, eager);
    HoldsNext(r, chunks, tail);
  }

  lemma HoldsNext(r: Reader, chunks: seq<seq<byte>>, tail: seq<byte>)
    requires Holds(r, [], chunks, tail) && chunks != []
    ensures chunks[0] != []
    ensures var r2 := Reader(Partial(|chunks[0]|, true), chunks[0] + (Framed(chunks[1..]) + [0] + tail));
      Holds(r2, chunks[0], chunks[1..], tail)
  {
    ChunkNotEmpty(chunks[0]);
    assert forall i :: 0 <= i < |chunks[1..]| ==> chunks[1..][i] == chunks[i + 1];
  }

  lemma ReadAtEnd(r: Reader, tail: seq<byte>, size: nat, grant: nat, eager: bool)
    requires Holds(r, [], [], tail)
    ensures Read(r, size, grant, eager) == ReadResult([], Some(EndOfFile), Reader(Partial(0, false), tail))
  {
    assert r.source == [0] + tail;
    assert ReadLength(r.source) == Length(0, false, tail);
  }

  /** What one read of a packet with `left` to give may return. */
  ghost predicate GoodRead(res: ReadResult, left: seq<byte>, tail: seq<byte>, size: nat, grant: nat) {
    if left == [] then res.bytes == [] && res.error == Some(EndOfFile) && AtEnd(res.next, tail)
    else
      && res.error == None && |res.bytes| <= |left| && res.bytes == left[..|res.bytes|]
      && Ready(res.next, left[|res.bytes|..], tail)
      && (size > 0 && grant > 0 ==> res.bytes != [])
  }

  lemma ReadHoldsInChunk(r: Reader, cur: seq<byte>, chunks: seq<seq<byte>>, tail: seq<byte>, size: nat, grant: nat,
                         eager: bool)
    requires Holds(r, cur, chunks, tail) && cur != []
    ensures GoodRead(Read(r, size, grant, eager), cur + Concat(chunks), tail, size, grant)
  {
    var left := cur + Concat(chunks);
    var res := Read(r, size, grant, eager);
    var k := |res.bytes|;
    ReadInChunk(r, cur, chunks, tail, size, grant, eager);
    assert left[..k] == cur[..k] && left[k..] == cur[k..] + Concat(chunks);
  }

  lemma ReadHolds(r: Reader, cur: seq<byte>, chunks: seq<seq<byte>>, tail: seq<byte>, size: nat, grant: nat,
                  eager: bool)
    requires Holds(r, cur, chunks, tail)
    ensures GoodRead(Read(r, size, grant, eager), cur + Concat(chunks), tail, size, grant)
  {
    if cur != [] {
      ReadHoldsInChunk(r, cur, chunks, tail, size, grant, eager);
    } else if chunks == [] {
      ReadAtEnd(r, tail, size, grant, eager);
    } else {
      ReadAtBoundary(r, chunks, tail, size, grant, eager);
      var r2 := Reader(Partial(|chunks[0]|, true), chunks[0] + (Framed(chunks[1..]) + [0] + tail));
      ReadHoldsInChunk(r2, chunks[0], chunks[1..], tail, size, grant, eager);
      assert cur + Concat(chunks) == chunks[0] + Concat(chunks[1..]);
    }
  }

  /** Any read of a packet with bytes left returns a prefix of them and never fails; with none left it reports
      the end and leaves exactly what follows the packet. */
  lemma ReadReady(r: Reader, left: seq<byte>, tail: seq<byte>, size: nat, grant: nat, eager: bool)
    requires Ready(r, left, tail)
    ensures GoodRead(Read(r, size, grant, eager), left, tail, size, grant)
  {
    if !(left == [] && AtEnd(r, tail)) {
      var cur: seq<byte>, chunks :| Holds(r, cur, chunks, tail) && left == cur + Concat(chunks);
      ReadHolds(r, cur, chunks, tail, size, grant, eager);
    }
  }

  datatype Request = Request(size: nat, grant: nat, eager: bool)

  /** A sequence of reads: all the bytes returned, up to and with the first error. */
  function ReadAll(r: Reader, reqs: seq<Request>): ReadResult
    decreases |reqs|
  {
    if reqs == [] then ReadResult([], None, r) else
    var res := Read(r, reqs[0].size, reqs[0].grant, reqs[0].eager);
    if res.error.Some? then res else
    var more := ReadAll(res.next, reqs[1..]);
    more.(bytes := res.bytes + more.bytes)
  }

  predicate Willing(reqs: seq<Request>) {
    forall i :: 0 <= i < |reqs| ==> reqs[i].size > 0 && reqs[i].grant > 0
  }

  /** What a sequence of reads may return: a prefix, and on an error everything, the end and the source at the
      tail; enough willing reads reach the end. */
  ghost predicate GoodReads(res: ReadResult, left: seq<byte>, tail: seq<byte>, reqs: seq<Request>) {
    && |res.bytes| <= |left| && res.bytes == left[..|res.bytes|]
    && (res.error == None || (res.error == Some(EndOfFile) && res.bytes == left && res.next.source == tail))
    && (|reqs| > |left| && Willing(reqs) ==> res.error.Some?)
  }

  lemma PrefixJoins(left: seq<byte>, a: seq<byte>, b: seq<byte>)
    requires |a| + |b| <= |left| && a == left[..|a|] && b == left[|a|..][..|b|]
    ensures a + b == left[..|a| + |b|]
  {
  }

  lemma GoodReadsStep(bytes: seq<byte>, more: ReadResult, left: seq<byte>, tail: seq<byte>, reqs: seq<Request>)
    requires reqs != [] && |bytes| <= |left| && bytes == left[..|bytes|]
    requires reqs[0].size > 0 && reqs[0].grant > 0 ==> bytes != []
    requires GoodReads(more, left[|bytes|..], tail, reqs[1..])
    ensures GoodReads(more.(bytes := bytes + more.bytes), left, tail, reqs)
  {
    PrefixJoins(left, bytes, more.bytes);
    if Willing(reqs) {
      assert Willing(reqs[1..]) && reqs[0].size > 0;
    }
  }

  lemma {:induction false} ReadAllReady(r: Reader, left: seq<byte>, tail: seq<byte>, reqs: seq<Request>)
    requires Ready(r, left, tail)
    ensures GoodReads(ReadAll(r, reqs), left, tail, reqs)
    decreases |reqs|
  {
    if reqs != [] {
      ReadReady(r, left, tail, reqs[0].size, reqs[0].grant, reqs[0].eager);
      var res := Read(r, reqs[0].size, reqs[0].grant, reqs[0].eager);
      if left != [] {
        ReadAllReady(res.next, left[|res.bytes|..], tail, reqs[1..]);
        GoodReadsStep(res.bytes, ReadAll(res.next, reqs[1..]), left, tail, reqs);
      }
    }
  }

  /** The chunks of several writes. */
  function AllChunks(writes: seq<seq<byte>>): (chunks: seq<seq<byte>>)
    ensures forall i :: 0 <= i < |chunks| ==> IsChunk(chunks[i])
  {
    if writes == [] then [] else Chunks(writes[0]) + AllChunks(writes[1..])
  }

  lemma {:induction false} ConcatAppend(a: seq<seq<byte>>, b: seq<seq<byte>>)
    ensures Concat(a + b) == Concat(a) + Concat(b)
  {
    if a == [] {
      assert a + b == b;
    } else {
      ConcatAppend(a[1..], b);
      assert (a + b)[1..] == a[1..] + b;
    }
  }

  lemma {:induction false} AllChunksAre(writes: seq<seq<byte>>)
    ensures Concat(AllChunks(writes)) == Concat(writes)
    decreases |writes|
  {
    if writes != [] {
      ChunksAre(writes[0]);
      AllChunksAre(writes[1..]);
      ConcatAppend(Chunks(writes[0]), AllChunks(writes[1..]));
    }
  }

  /** serializeStreamHeader, the writes, and Close. */
  function StreamPacket(tag: nat, chunks: seq<seq<byte>>): seq<byte>
    requires tag < 64
  {
    [192 + tag] + Framed(chunks) + [0]
  }

  /** readHeader on a stream packet: its tag, and a reader with all its bytes left. */
  lemma HeaderOfStream(tag: nat, chunks: seq<seq<byte>>, tail: seq<byte>)
    requires tag < 64 && forall i :: 0 <= i < |chunks| ==> IsChunk(chunks[i])
    ensures var h := ReadHeader(StreamPacket(tag, chunks) + tail);
      h.Header? && h.tag == tag && Ready(Reader(h.contents, h.rest), Concat(chunks), tail)
  {
    StreamStart(tag, chunks, tail);
    FirstLength(chunks, tail);
    NewHeader(StreamPacket(tag, chunks) + tail, Framed(chunks) + ([0] + tail));
  }

  lemma NewHeader(s: seq<byte>, rest: seq<byte>)
    requires s != [] && s[0] >= 192 && s[1..] == rest && ReadLength(rest).Length?
    ensures var l := ReadLength(rest);
      ReadHeader(s) == Header(s[0] as int % 64, ContentsOf(l), l.rest)
  {
  }

  /** The reader readHeader makes of a length. */
  function ContentsOf(l: Length): Contents
    requires l.Length?
  {
    if l.partial then Partial(l.n, true) else Span(l.n)
  }

  lemma EmptyStream(tail: seq<byte>)
    ensures ReadLength([0] + tail) == Length(0, false, tail) && Ready(Reader(Span(0), tail), [], tail)
  {
    assert AtEnd(Reader(Span(0), tail), tail);
  }

  lemma ReadyFirst(chunks: seq<seq<byte>>, tail: seq<byte>)
    requires chunks != [] && forall i :: 0 <= i < |chunks| ==> IsChunk(chunks[i])
    ensures Ready(Reader(Partial(|chunks[0]|, true), chunks[0] + (Framed(chunks[1..]) + ([0] + tail))),
                  Concat(chunks), tail)
  {
    HoldsFirst(chunks, tail);
    assert Concat(chunks) == chunks[0] + Concat(chunks[1..]);
  }

  /** The first length octet of a stream: zero for an empty one, else that of the first chunk. */
  lemma FirstLength(chunks: seq<seq<byte>>, tail: seq<byte>)
    requires forall i :: 0 <= i < |chunks| ==> IsChunk(chunks[i])
    ensures var l := ReadLength(Framed(chunks) + ([0] + tail));
      l.Length? && Ready(Reader(ContentsOf(l), l.rest), Concat(chunks), tail)
  {
    if chunks == [] {
      EmptyStream(tail);
      assert Framed(chunks) + ([0] + tail) == [0] + tail;
    } else {
      ReadChunkLength(chunks, [0] + tail);
      ReadyFirst(chunks, tail);
    }
  }

  lemma TagOctet(tag: nat, rest: seq<byte>)
    requires tag < 64
    ensures var s: seq<byte> := [192 + tag] + rest; s[0] == 192 + tag && s[0] as int % 64 == tag && s[1..] == rest
  {
  }

  lemma StreamStart(tag: nat, chunks: seq<seq<byte>>, tail: seq<byte>)
    requires tag < 64
    ensures var s := StreamPacket(tag, chunks) + tail;
      s[0] == 192 + tag && s[0] as int % 64 == tag && s[1..] == Framed(chunks) + ([0] + tail)
  {
    Assoc([192 + tag], Framed(chunks), [0], tail);
    TagOctet(tag, Framed(chunks) + ([0] + tail));
  }

  lemma HoldsFirst(chunks: seq<seq<byte>>, tail: seq<byte>)
    requires chunks != [] && forall i :: 0 <= i < |chunks| ==> IsChunk(chunks[i])
    ensures Holds(Reader(Partial(|chunks[0]|, true), chunks[0] + (Framed(chunks[1..]) + ([0] + tail))), chunks[0],
                  chunks[1..], tail)
  {
    assert Framed(chunks[1..]) + ([0] + tail) == Framed(chunks[1..]) + [0] + tail;
  }

  /** Whatever the split into writes and whatever the sizes of the reads, the bytes written come back in order,
      then the end of file, and the source is left at the first byte after the packet. */
  lemma PartialLengthRoundTrip(tag: nat, writes: seq<seq<byte>>, tail: seq<byte>, reqs: seq<Request>)
    requires tag < 64
    ensures var h := ReadHeader(StreamPacket(tag, AllChunks(writes)) + tail);
      && h.Header? && h.tag == tag
      && GoodReads(ReadAll(Reader(h.contents, h.rest), reqs), Concat(writes), tail, reqs)
  {
    AllChunksAre(writes);
    HeaderOfStream(tag, AllChunks(writes), tail);
    var h := ReadHeader(StreamPacket(tag, AllChunks(writes)) + tail);
    ReadAllReady(Reader(h.contents, h.rest), Concat(writes), tail, reqs);
  }

  // Headers of known length

  /** serializeHeader: one, two or five length octets; the last form keeps 32 bits of the length. */
  function SerializeHeader(tag: nat, length: nat): seq<byte>
    requires tag < 64
  {
    if length < 192 then [192 + tag, length]
    else if length < 8384 then [192 + tag, 192 + (length - 192) / 256, (length - 192) % 256]
    else [192 + tag, 255] + U32(length)
  }

  /** A header of known length is read back, and exactly the lengths below 2^32 survive. */
  lemma HeaderRoundTrip(tag: nat, length: nat, body: seq<byte>)
    requires tag < 64
    ensures ReadHeader(SerializeHeader(tag, length) + body) == Header(tag, Span(length), body) <==> length < TWO32
  {
    var s := SerializeHeader(tag, length) + body;
    assert (192 + tag) % 64 == tag;
    if length < 192 {
      assert s[2..] == body && s[1..][1..] == body;
    } else if length < 8384 {
      assert s[1..][2..] == body;
    } else {
      assert s[1..][1..] == U32(length) + body && s[1..][5..] == body;
      if length < TWO32 {
        U32RoundTrip(length, body);
      }
    }
  }

  // The objects

  /** Unsigned decrement: below zero it wraps. */
  function Decrement(power: nat): nat { if power == 0 then TWO64 - 1 else power - 1 }

  /** The writer's inner loop counts an unsigned power down; a chunk is found before the count can wrap. */
  method FindPower(n: nat) returns (power: nat)
    requires n >= 1
    ensures power == ChunkPower(n, 14)
  {
    power := 14;
    while power < 32
      invariant power <= 14 && ChunkPower(n, power) == ChunkPower(n, 14)
      decreases power
    {
      if n >= Power(power) {
        return;
      }
      power := Decrement(power);
    }
  }

  lemma FramedMore(chunks: seq<seq<byte>>, frame: seq<byte>, rest: seq<seq<byte>>)
    requires chunks != [] && frame == Frame(chunks[0]) && rest == chunks[1..]
    ensures Framed(chunks) == frame + Framed(rest)
  {
  }

  lemma {:induction false} FramedConcat(a: seq<seq<byte>>, b: seq<seq<byte>>)
    ensures Framed(a + b) == Framed(a) + Framed(b)
    decreases |a|
  {
    if a == [] {
      assert a + b == b;
    } else {
      FramedConcat(a[1..], b);
      FramedMore(a + b, Frame(a[0]), a[1..] + b);
      FramedMore(a, Frame(a[0]), a[1..]);
      Regroup(Frame(a[0]), Framed(a[1..]), Framed(b));
    }
  }

  lemma {:induction false} AllChunksAppend(writes: seq<seq<byte>>, p: seq<byte>)
    ensures AllChunks(writes + [p]) == AllChunks(writes) + Chunks(p)
    decreases |writes|
  {
    var all := writes + [p];
    if writes == [] {
      assert all[0] == p && all[1..] == [];
    } else {
      AllChunksAppend(writes[1..], p);
      assert all[0] == writes[0] && all[1..] == writes[1..] + [p];
      var a, b, c := Chunks(writes[0]), AllChunks(writes[1..]), Chunks(p);
      assert a + (b + c) == a + b + c;
    }
  }

  lemma FramedChunks(p: seq<byte>, l: nat)
    requires p != [] && l == Power(ChunkPower(|p|, 14))
    ensures Framed(Chunks(p)) == [224 + ChunkPower(|p|, 14)] + (p[..l] + Framed(Chunks(p[l..])))
  {
    var c := p[..l];
    PowerOfPower(ChunkPower(|p|, 14), 14);
    assert Chunks(p) == [c] + Chunks(p[l..]);
    FramedStep(Chunks(p), []);
    var r := Framed(Chunks(p)[1..]);
    assert r + [] == r && Framed(Chunks(p)) + [] == Framed(Chunks(p));
  }

  lemma WritesGrow(start: seq<byte>, writes: seq<seq<byte>>, p: seq<byte>)
    ensures start + Framed(AllChunks(writes)) + Framed(Chunks(p)) == start + Framed(AllChunks(writes + [p]))
  {
    AllChunksAppend(writes, p);
    FramedConcat(AllChunks(writes), Chunks(p));
    Regroup(start, Framed(AllChunks(writes)), Framed(Chunks(p)));
  }

  /** serializeStreamHeader and the partialLengthWriter it returns; `writes` records the calls to Write. */
  class StreamWriter {
    const tag: nat
    var out: seq<byte>
    ghost var writes: seq<seq<byte>>

    ghost predicate Valid()
      reads this
    {
      tag < 64 && out == [192 + tag] + Framed(AllChunks(writes))
    }

    constructor (tag: nat)
      requires tag < 64
      ensures Valid() && writes == [] && this.tag == tag
    {
      this.tag := tag;
      out := [192 + tag];
      writes := [];
    }

    method AppendChunks(p: seq<byte>)
      modifies this`out
      ensures out == old(out) + Framed(Chunks(p))
    {
      var rest := p;
      while |rest| > 0
        invariant out + Framed(Chunks(rest)) == old(out) + Framed(Chunks(p))
        decreases |rest|
      {
        var power := FindPower(|rest|);
        var l := Power(power);
        FramedChunks(rest, l);
        Assoc(out, [224 + power], rest[..l], Framed(Chunks(rest[l..])));
        out := out + [224 + power];
        out := out + rest[..l];
        rest := rest[l..];
      }
      assert out + [] == out;
    }

    method Write(p: seq<byte>)
      requires Valid()
      modifies this
      ensures Valid() && writes == old(writes) + [p]
    {
      AppendChunks(p);
      WritesGrow([192 + tag], writes, p);
      writes := writes + [p];
    }

    method Close()
      requires Valid()
      modifies this`out
      ensures out == StreamPacket(tag, AllChunks(writes))
    {
      out := out + [0];
    }
  }

  class PartialLengthReader {
    var source: seq<byte>
    var remaining: nat
    var isPartial: bool

    ghost function View(): Reader
      reads this
    {
      Reader(Partial(remaining, isPartial), source)
    }

    constructor (source: seq<byte>, remaining: nat, isPartial: bool)
      ensures View() == Reader(Partial(remaining, isPartial), source)
    {
      this.source, this.remaining, this.isPartial := source, remaining, isPartial;
    }

    method ReadInto(size: nat, grant: nat, eager: bool) returns (bytes: seq<byte>, err: Option<Error>)
      modifies this
      ensures ReadResult(bytes, err, View()) == Read(old(View()), size, grant, eager)
    {
      while remaining == 0
        invariant Read(View(), size, grant, eager) == Read(old(View()), size, grant, eager)
        decreases |source|, isPartial
      {
        if !isPartial {
          return [], Some(EndOfFile);
        }
        var l := ReadLength(source);
        if l.Failed? {
          source, remaining, isPartial := [], l.n, false;
          return [], Some(l.error);
        }
        source, remaining, isPartial := l.rest, l.n, l.partial;
      }
      var toRead := Min(size, remaining);
      var given := SourceRead(source, toRead, grant, eager);
      bytes, err := given.0, given.1;
      source := source[|bytes|..];
      remaining := remaining - |bytes|;
      if |bytes| < toRead && err == Some(EndOfFile) {
        err := Some(UnexpectedEof);
      }
    }
  }
}
