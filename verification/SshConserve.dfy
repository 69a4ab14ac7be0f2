/** Window conservation and in-order delivery on an SSH channel, over every run of SshFlow's system. */
module SshConserve {
  import opened Bytes
  import opened SshFlow

  function Sum(s: seq<nat>): nat {
    if s == [] then 0 else s[0] + Sum(s[1..])
  }

  function ChunkBytes(g: seq<Chunk>): nat {
    if g == [] then 0 else |g[0].bytes| + ChunkBytes(g[1..])
  }

  function DataBytes(w: seq<Packet>): nat {
    if w == [] then 0 else (if w[0].Data? then |w[0].bytes| else 0) + DataBytes(w[1..])
  }

  /** What a packet adds to its receiver's remote window. */
  function Grant(p: Packet): nat {
    if p.Adjust? then p.n else if p.Confirm? then p.window else 0
  }

  function GrantBytes(w: seq<Packet>): nat {
    if w == [] then 0 else Grant(w[0]) + GrantBytes(w[1..])
  }

  /** The bytes of stream c among the chunks, and on the wire. */
  function ChunkStream(g: seq<Chunk>, c: nat): seq<byte> {
    if g == [] then [] else (if g[0].code == c then g[0].bytes else []) + ChunkStream(g[1..], c)
  }

  function PacketStream(p: Packet, c: nat): seq<byte> {
    if p.Data? && p.code == c then p.bytes else []
  }

  function WireStream(w: seq<Packet>, c: nat): seq<byte> {
    if w == [] then [] else PacketStream(w[0], c) + WireStream(w[1..], c)
  }

  predicate Distinct(g: seq<Chunk>) {
    forall i, j :: 0 <= i < j < |g| ==> g[i].code != g[j].code
  }

  /** The initial window an undecided acceptor has still to announce. */
  function Owed(e: Endpoint): nat {
    if e.inbound && !e.decided then WINDOW else 0
  }

  // Appending to and removing from the counted lists

  lemma {:induction false} SumAppend(s: seq<nat>, n: nat)
    ensures Sum(s + [n]) == Sum(s) + n
  {
    if s == [] { assert [n][1..] == []; } else {
      SumAppend(s[1..], n);
      assert (s + [n])[1..] == s[1..] + [n];
    }
  }

  lemma {:induction false} SumWithout(s: seq<nat>, i: nat)
    requires i < |s|
    ensures Sum(Without(s, i)) + s[i] == Sum(s)
  {
    if i == 0 { assert Without(s, 0) == s[1..]; } else {
      SumWithout(s[1..], i - 1);
      assert Without(s, i)[1..] == Without(s[1..], i - 1);
    }
  }

  lemma {:induction false} ChunkBytesAppend(g: seq<Chunk>, ch: Chunk)
    ensures ChunkBytes(g + [ch]) == ChunkBytes(g) + |ch.bytes|
  {
    if g == [] { assert [ch][1..] == []; } else {
      ChunkBytesAppend(g[1..], ch);
      assert (g + [ch])[1..] == g[1..] + [ch];
    }
  }

  lemma {:induction false} ChunkAppend(g: seq<Chunk>, ch: Chunk, c: nat)
    ensures ChunkStream(g + [ch], c) == ChunkStream(g, c) + if ch.code == c then ch.bytes else []
  {
    if g == [] { assert [ch][1..] == []; } else {
      ChunkAppend(g[1..], ch, c);
      assert (g + [ch])[1..] == g[1..] + [ch];
      var head, last := if g[0].code == c then g[0].bytes else [], if ch.code == c then ch.bytes else [];
      Regroup(head, ChunkStream(g[1..], c), last);
    }
  }

  lemma {:induction false} NoChunk(g: seq<Chunk>, c: nat)
    requires !Granted(g, c)
    ensures ChunkStream(g, c) == []
  {
    if g != [] {
      assert g[0].code != c;
      assert forall i :: 0 <= i < |g[1..]| ==> g[1..][i] == g[i + 1];
      NoChunk(g[1..], c);
    }
  }

  lemma {:induction false} ChunkWithout(g: seq<Chunk>, i: nat, c: nat)
    requires i < |g| && Distinct(g)
    ensures ChunkBytes(Without(g, i)) + |g[i].bytes| == ChunkBytes(g)
    ensures g[i].code == c ==> ChunkStream(g, c) == g[i].bytes && ChunkStream(Without(g, i), c) == []
    ensures g[i].code != c ==> ChunkStream(Without(g, i), c) == ChunkStream(g, c)
  {
    if i == 0 {
      assert Without(g, 0) == g[1..];
      if g[0].code == c {
        NoChunk(g[1..], c);
      }
    } else {
      ChunkWithout(g[1..], i - 1, c);
      assert Without(g, i)[1..] == Without(g[1..], i - 1);
      assert g[1..][i - 1] == g[i] && g[0].code != g[i].code;
    }
  }

  lemma {:induction false} WireCounts(w: seq<Packet>, p: Packet)
    ensures DataBytes(w + [p]) == DataBytes(w) + DataBytes([p])
    ensures GrantBytes(w + [p]) == GrantBytes(w) + GrantBytes([p])
  {
    if w == [] {
      assert w + [p] == [p];
    } else {
      WireCounts(w[1..], p);
      assert (w + [p])[1..] == w[1..] + [p];
    }
  }

  lemma {:induction false} WireAppend(w: seq<Packet>, p: Packet, c: nat)
    ensures WireStream(w + [p], c) == WireStream(w, c) + WireStream([p], c)
  {
    var all := w + [p];
    if w == [] {
      assert all == [p];
    } else {
      WireAppend(w[1..], p, c);
      assert all[1..] == w[1..] + [p] && all[0] == w[0];
      Regroup(PacketStream(w[0], c), WireStream(w[1..], c), WireStream([p], c));
    }
  }

  lemma OnePacket(p: Packet, c: nat)
    ensures DataBytes([p]) == if p.Data? then |p.bytes| else 0
    ensures GrantBytes([p]) == Grant(p)
    ensures WireStream([p], c) == PacketStream(p, c)
  {
    assert [p][1..] == [];
  }

  // The invariant of one direction: s sends data to r over sr, r sends grants to s over rs

  ghost predicate SenderWindow(s: Endpoint, r: Endpoint, sr: seq<Packet>, rs: seq<Packet>) {
    s.tx.win + ChunkBytes(s.tx.granted) + s.tx.lost + DataBytes(sr)
      + GrantBytes(rs) + Sum(r.rx.credited) + r.rx.lost + Owed(r) == r.rx.window
  }

  ghost predicate ReceiverWindow(r: Receiver) {
    r.window + |r.plain| + |r.stderr| + Sum(r.read) + r.discarded == WINDOW
  }

  function Code(ext: bool): nat { if ext then 1 else 0 }

  function Returned(r: Receiver, ext: bool): seq<byte> { if ext then r.stderrReturned else r.plainReturned }

  function Buffered(r: Receiver, ext: bool): seq<byte> { if ext then r.stderr else r.plain }

  /** Every byte of the stream that has left the sender, in order. */
  function Sent(r: Receiver, sr: seq<Packet>, ext: bool): seq<byte> {
    Returned(r, ext) + Buffered(r, ext) + WireStream(sr, Code(ext))
  }

  /** The bytes sent so far, against what was offered. */
  ghost predicate StreamOk(s: Endpoint, sent: seq<byte>, c: nat) {
    if s.sentClose then sent <= Get(s.tx.offered, c)
    else sent + (ChunkStream(s.tx.granted, c) + Get(s.tx.remaining, c)) == Get(s.tx.offered, c)
  }

  predicate SmallPackets(w: seq<Packet>) {
    forall i :: 0 <= i < |w| && w[i].Data? ==> |w[i].bytes| <= MAX_PACKET
  }

  ghost predicate Shapes(s: Endpoint, sr: seq<Packet>) {
    && Distinct(s.tx.granted)
    && (forall i :: 0 <= i < |s.tx.granted| ==> |s.tx.granted[i].bytes| <= MAX_PACKET)
    && SmallPackets(sr)
    && s.tx.maxRemote <= MAX_PACKET
    && (s.tx.winClosed ==> s.sentClose)
    && (s.tx.lost + s.rx.lost > 0 ==> s.sentClose)
  }

  /** End of file is signalled only after the sender closed its side. */
  ghost predicate Ending(s: Endpoint, r: Endpoint, sr: seq<Packet>) {
    !s.tx.sentEof && !s.sentClose ==> !r.rx.eof && forall i :: 0 <= i < |sr| ==> !sr[i].Eof?
  }

  /** Close is the last packet of a direction, and the channel is removed only on reading it. */
  ghost predicate Closing(s: Endpoint, r: Endpoint, sr: seq<Packet>) {
    && (forall i :: 0 <= i < |sr| - 1 ==> !sr[i].Close?)
    && (r.removed ==> sr == [] && s.sentClose)
    && (!r.removed ==> (s.sentClose <==> sr != [] && sr[|sr| - 1].Close?))
    && (r.removed ==> r.sentClose)
  }

  /** The confirmation is sent once, first, and read once; nothing moves towards an undecided acceptor. */
  ghost predicate Opening(y: System) {
    && !y.a.inbound && y.b.inbound
    && (forall i :: 1 <= i < |y.ba| ==> !y.ba[i].Confirm?)
    && (forall i :: 0 <= i < |y.ab| ==> !y.ab[i].Confirm?)
    && (y.ba != [] && y.ba[0].Confirm? ==> !y.a.decided && y.ba[0] == Confirm(WINDOW, MAX_PACKET))
    && (y.a.decided ==> y.b.decided)
    && (!y.a.decided ==> y.ab == [] && Quiet(y.a))
    && (!y.a.decided && y.b.decided ==> y.ba != [] && y.ba[0].Confirm?)
    && (!y.b.decided ==> y.ba == [] && Quiet(y.b) && y.b.rx.window == WINDOW)
    && y.a.rx.maxIncoming == MAX_PACKET
    && (y.b.decided ==> y.b.rx.maxIncoming == MAX_PACKET)
  }

  /** An undecided endpoint has sent nothing, read nothing and closed nothing. */
  predicate Quiet(e: Endpoint) {
    && !e.sentClose && !e.removed && e.tx.granted == [] && e.tx.remaining == map[]
    && e.rx.read == [] && e.rx.credited == []
  }

  ghost predicate Direction(s: Endpoint, r: Endpoint, sr: seq<Packet>, rs: seq<Packet>) {
    && SenderWindow(s, r, sr, rs)
    && ReceiverWindow(r.rx)
    && StreamOk(s, Sent(r.rx, sr, false), 0) && StreamOk(s, Sent(r.rx, sr, true), 1)
    && Shapes(s, sr)
    && Closing(s, r, sr)
    && Ending(s, r, sr)
  }

  // The two directions of a system: from a to b, or back

  function Sending(y: System, fromA: bool): Endpoint { if fromA then y.a else y.b }

  function Receiving(y: System, fromA: bool): Endpoint { if fromA then y.b else y.a }

  function Wire(y: System, fromA: bool): seq<Packet> { if fromA then y.ab else y.ba }

  ghost predicate Inv(y: System) {
    && Direction(y.a, y.b, y.ab, y.ba)
    && Direction(y.b, y.a, y.ba, y.ab)
    && Opening(y)
  }

  lemma StartDirection(s: Endpoint, r: Endpoint, owed: nat)
    requires owed <= WINDOW && s.tx == Sender(WINDOW - owed, false, s.tx.maxRemote, false, map[], map[], [], 0)
        && s.tx.maxRemote <= MAX_PACKET
    requires r.rx == Receiver(WINDOW, r.rx.maxIncoming, [], [], false, [], [], [], [], 0, 0) && s.rx.lost == 0
    requires !s.sentClose && !r.removed && Owed(r) == owed
    ensures Direction(s, r, [], [])
  {
    assert Sent(r.rx, [], false) == [] && Sent(r.rx, [], true) == [];
  }

  lemma StartOk()
    ensures Inv(Start())
  {
    var y := Start();
    StartDirection(y.a, y.b, WINDOW);
    StartDirection(y.b, y.a, 0);
    assert Opening(y);
  }

  function OutStream(out: seq<Packet>, c: nat): seq<byte> {
    if out == [] then [] else PacketStream(out[0], c)
  }

  function OutBytes(out: seq<Packet>): nat {
    if out != [] && out[0].Data? then |out[0].bytes| else 0
  }

  /** What posting `out` on the wire adds to the sums and the streams. */
  lemma PostedCounts(w: seq<Packet>, out: seq<Packet>)
    requires |out| <= 1
    ensures DataBytes(w + out) == DataBytes(w) + OutBytes(out)
    ensures GrantBytes(w + out) == GrantBytes(w) + OutGrant(out)
  {
    if out == [] {
      assert w + out == w;
    } else {
      assert out == [out[0]];
      WireCounts(w, out[0]);
      OnePacket(out[0], 0);
    }
  }

  lemma PostedSent(r: Receiver, w: seq<Packet>, out: seq<Packet>, ext: bool)
    requires |out| <= 1
    ensures Sent(r, w + out, ext) == Sent(r, w, ext) + OutStream(out, Code(ext))
  {
    var c := Code(ext);
    assert WireStream(w + out, c) == WireStream(w, c) + OutStream(out, c) by {
      if out == [] {
        assert w + out == w;
      } else {
        assert out == [out[0]];
        WireAppend(w, out[0], c);
        OnePacket(out[0], c);
      }
    }
  }

  lemma PostedSmall(sr: seq<Packet>, out: seq<Packet>)
    requires SmallPackets(sr) && |out| <= 1 && (out != [] && out[0].Data? ==> |out[0].bytes| <= MAX_PACKET)
    ensures SmallPackets(sr + out)
  {
  }

  /** Posting keeps packets small and the close last. */
  lemma PostedShape(s: Endpoint, s2: Endpoint, r: Endpoint, sr: seq<Packet>, out: seq<Packet>)
    requires Closing(s, r, sr) && SmallPackets(sr) && |out| <= 1
    requires s.sentClose ==> out == [] && s2.sentClose
    requires !s.sentClose ==> (s2.sentClose <==> out != [] && out[0].Close?)
    requires out != [] && out[0].Data? ==> |out[0].bytes| <= MAX_PACKET
    ensures Closing(s2, r, sr + out) && SmallPackets(sr + out)
  {
    PostedSmall(sr, out);
    if out == [] {
      assert sr + out == sr;
    }
  }

  /** The parts of an endpoint that the streams it sends depend on. */
  lemma StreamFrame(s: Endpoint, s2: Endpoint, sent: seq<byte>, c: nat)
    requires StreamOk(s, sent, c)
    requires s2.tx.offered == s.tx.offered && s2.tx.granted == s.tx.granted && s2.tx.remaining == s.tx.remaining
    requires s.sentClose ==> s2.sentClose
    ensures StreamOk(s2, sent, c)
  {
  }

  lemma OfferStream(s: Endpoint, sent: seq<byte>, c: nat, data: seq<byte>, d: nat)
    requires StreamOk(s, sent, d)
    ensures StreamOk(Act(s, Offer(c, data)).0, sent, d)
  {
    if Idle(s.tx, c) {
      NoChunk(s.tx.granted, c);
    }
  }

  lemma ReserveStream(s: Endpoint, sent: seq<byte>, c: nat, d: nat)
    requires StreamOk(s, sent, d) && (s.tx.winClosed ==> s.sentClose)
    ensures StreamOk(DoReserve(s, c), sent, d)
  {
    var s2 := DoReserve(s, c);
    if s2 != s && !s.tx.winClosed {
      var data := Get(s.tx.remaining, c);
      var k := PacketSize(s.tx, data);
      ChunkAppend(s.tx.granted, Chunk(c, data[..k]), d);
      NoChunk(s.tx.granted, c);
    }
  }

  /** A chunk of stream d that leaves is the only one of its stream. */
  lemma ChunkLeaves(s: Sender, sent: seq<byte>, i: nat, d: nat)
    requires i < |s.granted| && Distinct(s.granted)
    ensures var ch := s.granted[i];
      var gone := if ch.code == d then ch.bytes else [];
      sent + (ChunkStream(s.granted, d) + Get(s.remaining, d)) ==
      (sent + gone) + (ChunkStream(Without(s.granted, i), d) + Get(s.remaining, d))
  {
    ChunkWithout(s.granted, i, d);
    var ch := s.granted[i];
    if ch.code == d {
      Regroup(sent, ch.bytes, Get(s.remaining, d));
      assert [] + Get(s.remaining, d) == Get(s.remaining, d);
    } else {
      assert sent + [] == sent;
    }
  }

  lemma TransmitStream(s: Endpoint, sent: seq<byte>, i: nat, d: nat)
    requires StreamOk(s, sent, d) && Distinct(s.tx.granted)
    ensures StreamOk(DoTransmit(s, i).0, sent + OutStream(DoTransmit(s, i).1, d), d)
  {
    assert sent + [] == sent;
    if i < |s.tx.granted| && !s.sentClose {
      ChunkLeaves(s.tx, sent, i, d);
    }
  }

  lemma ActStream(s: Endpoint, sent: seq<byte>, a: Action, d: nat)
    requires StreamOk(s, sent, d) && Distinct(s.tx.granted) && (s.tx.winClosed ==> s.sentClose)
    ensures StreamOk(Act(s, a).0, sent + OutStream(Act(s, a).1, d), d)
  {
    assert sent + [] == sent;
    match a
    case Offer(c, data) => OfferStream(s, sent, c, data, d);
    case Reserve(c) => ReserveStream(s, sent, c, d);
    case Transmit(i) => TransmitStream(s, sent, i, d);
    case _ => StreamFrame(s, Act(s, a).0, sent, d);
  }

  lemma ReserveWindow(s: Endpoint, c: nat)
    ensures var t := DoReserve(s, c).tx;
      t.win + ChunkBytes(t.granted) + t.lost == s.tx.win + ChunkBytes(s.tx.granted) + s.tx.lost
  {
    var data := Get(s.tx.remaining, c);
    var k := PacketSize(s.tx, data);
    if k <= |data| {
      ChunkBytesAppend(s.tx.granted, Chunk(c, data[..k]));
    }
  }

  lemma TransmitWindow(s: Endpoint, i: nat)
    requires Distinct(s.tx.granted)
    ensures var (s2, out) := DoTransmit(s, i);
      s2.tx.win + ChunkBytes(s2.tx.granted) + s2.tx.lost + OutBytes(out)
          == s.tx.win + ChunkBytes(s.tx.granted) + s.tx.lost
  {
    if i < |s.tx.granted| {
      ChunkWithout(s.tx.granted, i, 0);
    }
  }

  /** Reservations and transmissions move bytes from the window to the granted packets to the wire. */
  lemma ActSenderWindow(s: Endpoint, a: Action)
    requires Distinct(s.tx.granted)
    ensures var (s2, out) := Act(s, a);
      s2.tx.win + ChunkBytes(s2.tx.granted) + s2.tx.lost + OutBytes(out)
          == s.tx.win + ChunkBytes(s.tx.granted) + s.tx.lost
  {
    match a
    case Reserve(c) => ReserveWindow(s, c);
    case Transmit(i) => TransmitWindow(s, i);
    case _ =>
      assert Act(s, a).0.tx.granted == s.tx.granted;
  }

  lemma ReserveShapes(s: Endpoint, sr: seq<Packet>, c: nat)
    requires Shapes(s, sr)
    ensures Shapes(DoReserve(s, c), sr)
  {
  }

  lemma TransmitShapes(s: Endpoint, sr: seq<Packet>, i: nat)
    requires Shapes(s, sr)
    ensures Shapes(DoTransmit(s, i).0, sr)
  {
    if i < |s.tx.granted| {
      var g := Without(s.tx.granted, i);
      assert forall j :: 0 <= j < |g| ==> g[j] == s.tx.granted[if j < i then j else j + 1];
    }
  }

  /** writePacket lets at most one packet out, none after a close. */
  lemma ActPosts(s: Endpoint, sr: seq<Packet>, a: Action)
    requires Shapes(s, sr)
    ensures var (s2, out) := Act(s, a);
      && Shapes(s2, sr) && |out| <= 1
      && (s.sentClose ==> out == [] && s2.sentClose)
      && (!s.sentClose ==> (s2.sentClose <==> out != [] && out[0].Close?))
      && (out != [] && out[0].Data? ==> |out[0].bytes| <= MAX_PACKET)
  {
    match a
    case Reserve(c) => ReserveShapes(s, sr, c);
    case Transmit(i) => TransmitShapes(s, sr, i);
    case _ =>
  }

  lemma ActShapes(s: Endpoint, r: Endpoint, sr: seq<Packet>, a: Action)
    requires Shapes(s, sr) && Closing(s, r, sr)
    ensures var (s2, out) := Act(s, a); Shapes(s2, sr + out) && Closing(s2, r, sr + out)
  {
    var (s2, out) := Act(s, a);
    ActPosts(s, sr, a);
    PostedShape(s, s2, r, sr, out);
  }

  lemma ActEnding(s: Endpoint, r: Endpoint, sr: seq<Packet>, a: Action)
    requires Ending(s, r, sr)
    ensures var (s2, out) := Act(s, a); Ending(s2, r, sr + out)
  {
  }

  lemma ActAsSender(s: Endpoint, r: Endpoint, sr: seq<Packet>, rs: seq<Packet>, a: Action)
    requires Direction(s, r, sr, rs)
    ensures var (s2, out) := Act(s, a); Direction(s2, r, sr + out, rs)
  {
    var (s2, out) := Act(s, a);
    ActShapes(s, r, sr, a);
    ActEnding(s, r, sr, a);
    assert SenderWindow(s2, r, sr + out, rs) by {
      ActSenderWindow(s, a);
      PostedCounts(sr, out);
    }
    ActStream(s, Sent(r.rx, sr, false), a, 0);
    ActStream(s, Sent(r.rx, sr, true), a, 1);
    PostedSent(r.rx, sr, out, false);
    PostedSent(r.rx, sr, out, true);
  }

  // The receiving half of an action

  /** What the receiver has credited, sent or lost of its window. */
  function Given(r: Endpoint): nat { Sum(r.rx.credited) + r.rx.lost + Owed(r) }

  lemma ReadWindow(r: Endpoint, ext: bool, size: nat)
    requires ReceiverWindow(r.rx)
    ensures var r2 := DoRead(r, ext, size);
      ReceiverWindow(r2.rx) && Given(r2) == Given(r) && r2.rx.window == r.rx.window
  {
    SumAppend(r.rx.read, Min(size, |Buffered(r.rx, ext)|));
  }

  lemma CreditWindow(r: Endpoint, i: nat)
    requires ReceiverWindow(r.rx)
    ensures var r2 := DoCredit(r, i); ReceiverWindow(r2.rx) && Given(r2) + r.rx.window == Given(r) + r2.rx.window
  {
    if i < |r.rx.read| {
      SumWithout(r.rx.read, i);
      SumAppend(r.rx.credited, r.rx.read[i]);
    }
  }

  function OutGrant(out: seq<Packet>): nat { if out == [] then 0 else Grant(out[0]) }

  lemma AdjustWindow(r: Endpoint, i: nat)
    requires ReceiverWindow(r.rx)
    ensures var (r2, out) := DoSendAdjust(r, i);
      ReceiverWindow(r2.rx) && OutGrant(out) + Given(r2) == Given(r) && r2.rx.window == r.rx.window
  {
    if i < |r.rx.credited| {
      SumWithout(r.rx.credited, i);
    }
  }

  /** Read, Credit and SendAdjust move a size along: buffer, read, credited, wire. */
  lemma ActReceiverWindow(r: Endpoint, a: Action)
    requires ReceiverWindow(r.rx) && (r.inbound && !r.decided ==> !r.sentClose && r.rx.window == WINDOW)
    ensures var (r2, out) := Act(r, a);
      ReceiverWindow(r2.rx) && OutGrant(out) + Given(r2) + r.rx.window == Given(r) + r2.rx.window
  {
    match a
    case Read(ext, size) => ReadWindow(r, ext, size);
    case Credit(i) => CreditWindow(r, i);
    case SendAdjust(i) => AdjustWindow(r, i);
    case Reserve(c) => assert DoReserve(r, c).rx == r.rx;
    case Transmit(i) => assert DoTransmit(r, i).0.rx == r.rx;
    case _ =>
  }

  lemma ReadReceived(r: Endpoint, sr: seq<Packet>, take: bool, size: nat, ext: bool)
    ensures Sent(DoRead(r, take, size).rx, sr, ext) == Sent(r.rx, sr, ext)
  {
    var r2 := DoRead(r, take, size);
    var buf := Buffered(r.rx, take);
    var k := Min(size, |buf|);
    assert buf[..k] + buf[k..] == buf;
    Regroup(Returned(r.rx, take), buf[..k], buf[k..]);
    assert Returned(r2.rx, ext) + Buffered(r2.rx, ext) == Returned(r.rx, ext) + Buffered(r.rx, ext);
  }

  lemma ActReceived(r: Endpoint, sr: seq<Packet>, a: Action, ext: bool)
    ensures Sent(Act(r, a).0.rx, sr, ext) == Sent(r.rx, sr, ext)
  {
    var r2 := Act(r, a).0;
    if a.Read? {
      ReadReceived(r, sr, a.ext, a.size, ext);
    } else {
      assert Returned(r2.rx, ext) == Returned(r.rx, ext) && Buffered(r2.rx, ext) == Buffered(r.rx, ext);
    }
  }

  lemma ActAsReceiver(s: Endpoint, r: Endpoint, sr: seq<Packet>, rs: seq<Packet>, a: Action)
    requires Direction(s, r, sr, rs) && (r.inbound && !r.decided ==> !r.sentClose && r.rx.window == WINDOW)
    ensures var (r2, out) := Act(r, a); Direction(s, r2, sr, rs + out)
  {
    var (r2, out) := Act(r, a);
    assert SenderWindow(s, r2, sr, rs + out) && ReceiverWindow(r2.rx) by {
      ActReceiverWindow(r, a);
      PostedCounts(rs, out);
    }
    ActReceived(r, sr, a, false);
    ActReceived(r, sr, a, true);
    ActKeepsEnds(s, r, sr, a);
  }

  lemma ActKeepsEnds(s: Endpoint, r: Endpoint, sr: seq<Packet>, a: Action)
    requires Closing(s, r, sr) && Ending(s, r, sr)
    ensures Closing(s, Act(r, a).0, sr) && Ending(s, Act(r, a).0, sr)
  {
    var r2 := Act(r, a).0;
    assert r2.removed == r.removed && (r.sentClose ==> r2.sentClose) && r2.rx.eof == r.rx.eof;
  }

  // Deliveries

  lemma DataBuffered(r: Receiver, c: nat, bytes: seq<byte>, ext: bool)
    requires HandleData(r, c, bytes).Accepted?
    ensures var r2 := HandleData(r, c, bytes).r;
      && Returned(r2, ext) == Returned(r, ext)
      && Buffered(r2, ext) == Buffered(r, ext) + PacketStream(Data(c, bytes), Code(ext))
  {
    assert Buffered(r, ext) + [] == Buffered(r, ext);
  }

  lemma HandleBuffered(r: Endpoint, p: Packet, ext: bool)
    requires Handle(r, p).Handled?
    ensures var r2 := Handle(r, p).e.rx;
      Returned(r2, ext) == Returned(r.rx, ext) && Buffered(r2, ext) == Buffered(r.rx, ext) + PacketStream(p, Code(ext))
  {
    if p.Data? {
      DataBuffered(r.rx, p.code, p.bytes, ext);
    } else {
      assert Buffered(r.rx, ext) + [] == Buffered(r.rx, ext);
    }
  }

  lemma HandleReceived(r: Endpoint, sr: seq<Packet>, ext: bool)
    requires sr != [] && Handle(r, sr[0]).Handled?
    ensures Sent(Handle(r, sr[0]).e.rx, sr[1..], ext) == Sent(r.rx, sr, ext)
  {
    var c := Code(ext);
    HandleBuffered(r, sr[0], ext);
    SentShifts(Returned(r.rx, ext), Buffered(r.rx, ext), PacketStream(sr[0], c), WireStream(sr[1..], c));
  }

  lemma SentShifts(a: seq<byte>, b: seq<byte>, c: seq<byte>, d: seq<byte>)
    ensures a + (b + c) + d == a + b + (c + d)
  {
  }

  lemma DataWindow(r: Receiver, c: nat, bytes: seq<byte>)
    requires ReceiverWindow(r) && HandleData(r, c, bytes).Accepted?
    ensures var r2 := HandleData(r, c, bytes).r;
      ReceiverWindow(r2) && r2.credited == r.credited && r2.lost == r.lost && r2.window + |bytes| == r.window
  {
  }

  lemma HandleReceiverWindow(r: Endpoint, p: Packet)
    requires ReceiverWindow(r.rx) && Handle(r, p).Handled?
    ensures var r2 := Handle(r, p).e.rx;
      && ReceiverWindow(r2) && r2.credited == r.rx.credited && r2.lost == r.rx.lost
      && r2.window + (if p.Data? then |p.bytes| else 0) == r.rx.window
  {
    if p.Data? {
      DataWindow(r.rx, p.code, p.bytes);
    }
  }

  lemma HandleClosing(s: Endpoint, r: Endpoint, sr: seq<Packet>)
    requires Closing(s, r, sr) && sr != [] && Handle(r, sr[0]).Handled?
    ensures Closing(s, Handle(r, sr[0]).e, sr[1..])
  {
  }

  lemma HandleGives(r: Endpoint, p: Packet)
    requires Handle(r, p).Handled?
    ensures var h := Handle(r, p); Owed(h.e) == Owed(r) && |h.out| <= 1 && OutGrant(h.out) == 0
  {
  }

  /** A delivered data packet moves from the wire into the receiver; a close adds no grant. */
  lemma DataLeavesWire(s: Endpoint, r: Endpoint, sr: seq<Packet>, rs: seq<Packet>)
    requires SenderWindow(s, r, sr, rs) && ReceiverWindow(r.rx) && sr != [] && Handle(r, sr[0]).Handled?
    ensures var h := Handle(r, sr[0]); SenderWindow(s, h.e, sr[1..], rs + h.out) && ReceiverWindow(h.e.rx)
  {
    var h := Handle(r, sr[0]);
    HandleGives(r, sr[0]);
    PostedCounts(rs, h.out);
    HandleReceiverWindow(r, sr[0]);
    assert DataBytes(sr) == OutBytes(sr) + DataBytes(sr[1..]);
  }

  lemma HandleEnding(s: Endpoint, r: Endpoint, sr: seq<Packet>)
    requires Ending(s, r, sr) && Closing(s, r, sr) && sr != [] && Handle(r, sr[0]).Handled?
    ensures Ending(s, Handle(r, sr[0]).e, sr[1..])
  {
  }

  /** The receiver takes the first packet off sr. */
  lemma DeliverAsReceiver(s: Endpoint, r: Endpoint, sr: seq<Packet>, rs: seq<Packet>)
    requires Direction(s, r, sr, rs) && sr != [] && Handle(r, sr[0]).Handled?
    ensures var h := Handle(r, sr[0]); Direction(s, h.e, sr[1..], rs + h.out)
  {
    HandleReceived(r, sr, false);
    HandleReceived(r, sr, true);
    DataLeavesWire(s, r, sr, rs);
    HandleClosing(s, r, sr);
    HandleEnding(s, r, sr);
    assert Shapes(s, sr[1..]);
  }

  lemma HandleSenderWindow(s: Endpoint, p: Packet)
    requires s.tx.win + Grant(p) <= WINDOW && Handle(s, p).Handled?
    ensures var h := Handle(s, p);
      && h.e.tx == s.tx.(win := s.tx.win + Grant(p), maxRemote := h.e.tx.maxRemote, winClosed := h.e.tx.winClosed)
      && |h.out| <= 1 && OutBytes(h.out) == 0
      && (s.sentClose ==> h.e.sentClose && h.out == [])
  {
  }

  lemma HandleShapes(s: Endpoint, r: Endpoint, sr: seq<Packet>, p: Packet)
    requires Shapes(s, sr) && Closing(s, r, sr) && Handle(s, p).Handled?
    requires p.Confirm? ==> p.max == MAX_PACKET
    ensures var h := Handle(s, p); Shapes(h.e, sr + h.out) && Closing(h.e, r, sr + h.out)
  {
    var h := Handle(s, p);
    PostedShape(s, h.e, r, sr, h.out);
    assert h.e.tx.granted == s.tx.granted;
  }

  lemma GrantLeavesWire(s: Endpoint, r: Endpoint, sr: seq<Packet>, rs: seq<Packet>)
    requires SenderWindow(s, r, sr, rs) && ReceiverWindow(r.rx) && rs != [] && Handle(s, rs[0]).Handled?
    ensures var h := Handle(s, rs[0]); SenderWindow(h.e, r, sr + h.out, rs[1..])
  {
    var h := Handle(s, rs[0]);
    assert GrantBytes(rs) == Grant(rs[0]) + GrantBytes(rs[1..]);
    HandleSenderWindow(s, rs[0]);
    PostedCounts(sr, h.out);
  }

  lemma HandleKeepsOffer(s: Endpoint, p: Packet)
    requires Handle(s, p).Handled?
    ensures var h := Handle(s, p);
      && (h.out == [] || h.out == [Close]) && h.e.tx.offered == s.tx.offered && h.e.tx.granted == s.tx.granted
      && h.e.tx.remaining == s.tx.remaining && (s.sentClose ==> h.e.sentClose)
  {
  }

  lemma HandleStream(s: Endpoint, r: Receiver, sr: seq<Packet>, p: Packet, ext: bool)
    requires StreamOk(s, Sent(r, sr, ext), Code(ext)) && Handle(s, p).Handled?
    ensures var h := Handle(s, p); StreamOk(h.e, Sent(r, sr + h.out, ext), Code(ext))
  {
    var h := Handle(s, p);
    HandleKeepsOffer(s, p);
    PostedSent(r, sr, h.out, ext);
    StreamFrame(s, h.e, Sent(r, sr, ext), Code(ext));
  }

  /** The sender takes the first packet off rs. */
  lemma DeliverAsSender(s: Endpoint, r: Endpoint, sr: seq<Packet>, rs: seq<Packet>)
    requires Direction(s, r, sr, rs) && rs != [] && Handle(s, rs[0]).Handled?
    requires rs[0].Confirm? ==> rs[0] == Confirm(WINDOW, MAX_PACKET)
    ensures var h := Handle(s, rs[0]); Direction(h.e, r, sr + h.out, rs[1..])
  {
    HandleShapes(s, r, sr, rs[0]);
    GrantLeavesWire(s, r, sr, rs);
    HandleStream(s, r.rx, sr, rs[0], false);
    HandleStream(s, r.rx, sr, rs[0], true);
  }

  // Every delivery succeeds

  /** Neither "wrote too much", nor an oversized packet, nor a window update that overflows, nor a packet for
      a removed channel, nor a second confirmation ever arrives. */
  lemma NextPacketHandled(s: Endpoint, r: Endpoint, sr: seq<Packet>, rs: seq<Packet>)
    requires Direction(s, r, sr, rs) && Direction(r, s, rs, sr) && sr != []
    requires r.rx.maxIncoming == MAX_PACKET
    requires sr[0].Confirm? ==> !r.inbound && !r.decided && sr[0] == Confirm(WINDOW, MAX_PACKET)
    ensures Handle(r, sr[0]).Handled?
  {
    assert DataBytes(sr) >= OutBytes(sr);
    assert GrantBytes(sr) >= Grant(sr[0]);
  }

  lemma ActOpening(y: System, a: Action)
    requires Opening(y)
    ensures var (e, out) := Act(y.a, a); Opening(y.(a := e, ab := y.ab + out))
  {
  }

  lemma ActOpeningB(y: System, a: Action)
    requires Opening(y)
    ensures var (e, out) := Act(y.b, a); Opening(y.(b := e, ba := y.ba + out))
  {
  }

  lemma DeliverOpening(y: System)
    requires Opening(y) && y.ba != [] && Handle(y.a, y.ba[0]).Handled?
    ensures var h := Handle(y.a, y.ba[0]); Opening(System(h.e, y.b, y.ab + h.out, y.ba[1..]))
  {
  }

  lemma DeliverOpeningB(y: System)
    requires Opening(y) && y.ab != [] && Handle(y.b, y.ab[0]).Handled?
    ensures var h := Handle(y.b, y.ab[0]); Opening(System(y.a, h.e, y.ab[1..], y.ba + h.out))
  {
  }

  /** Both directions survive the delivery of a packet from s to r. */
  lemma DeliverOk(s: Endpoint, r: Endpoint, sr: seq<Packet>, rs: seq<Packet>)
    requires Direction(s, r, sr, rs) && Direction(r, s, rs, sr) && sr != []
    requires r.rx.maxIncoming == MAX_PACKET
    requires sr[0].Confirm? ==> !r.inbound && !r.decided && sr[0] == Confirm(WINDOW, MAX_PACKET)
    ensures var h := Handle(r, sr[0]);
      && h.Handled?
      && Direction(s, h.e, sr[1..], rs + h.out)
      && Direction(h.e, s, rs + h.out, sr[1..])
  {
    NextPacketHandled(s, r, sr, rs);
    DeliverAsReceiver(s, r, sr, rs);
    DeliverAsSender(r, s, rs, sr);
  }

  lemma ActAOk(y: System, a: Action)
    requires Inv(y)
    ensures var (e, out) := Act(y.a, a); Inv(y.(a := e, ab := y.ab + out))
  {
    ActAsSender(y.a, y.b, y.ab, y.ba, a);
    ActAsReceiver(y.b, y.a, y.ba, y.ab, a);
    ActOpening(y, a);
  }

  lemma ActBOk(y: System, a: Action)
    requires Inv(y)
    ensures var (e, out) := Act(y.b, a); Inv(y.(b := e, ba := y.ba + out))
  {
    ActAsSender(y.b, y.a, y.ba, y.ab, a);
    ActAsReceiver(y.a, y.b, y.ab, y.ba, a);
    ActOpeningB(y, a);
  }

  lemma DeliverAOk(y: System)
    requires Inv(y) && y.ba != []
    ensures var h := Handle(y.a, y.ba[0]); h.Handled? && Inv(System(h.e, y.b, y.ab + h.out, y.ba[1..]))
  {
    DeliverOk(y.b, y.a, y.ba, y.ab);
    DeliverOpening(y);
  }

  lemma DeliverBOk(y: System)
    requires Inv(y) && y.ab != []
    ensures var h := Handle(y.b, y.ab[0]); h.Handled? && Inv(System(y.a, h.e, y.ab[1..], y.ba + h.out))
  {
    DeliverOk(y.a, y.b, y.ab, y.ba);
    DeliverOpeningB(y);
  }

  lemma ActStepOk(y: System, step: Step)
    requires Inv(y) && (step.ActA? || step.ActB?)
    ensures var o := StepSystem(y, step); o.Running? && Inv(o.sys)
  {
    if step.ActA? {
      ActAOk(y, step.act);
    } else {
      ActBOk(y, step.act);
    }
  }

  lemma DeliverAStepOk(y: System)
    requires Inv(y)
    ensures var o := StepSystem(y, DeliverToA); o.Running? && Inv(o.sys)
  {
    if y.ba != [] {
      DeliverAOk(y);
    }
  }

  lemma DeliverBStepOk(y: System)
    requires Inv(y)
    ensures var o := StepSystem(y, DeliverToB); o.Running? && Inv(o.sys)
  {
    if y.ab != [] {
      DeliverBOk(y);
    }
  }

  lemma StepOk(y: System, step: Step)
    requires Inv(y)
    ensures var o := StepSystem(y, step); o.Running? && Inv(o.sys)
  {
    if step.DeliverToA? {
      DeliverAStepOk(y);
    } else if step.DeliverToB? {
      DeliverBStepOk(y);
    } else {
      ActStepOk(y, step);
    }
  }

  /** A run goes on from its first step. */
  lemma FirstStep(y: System, steps: seq<Step>) returns (z: System)
    requires Inv(y) && steps != []
    ensures StepSystem(y, steps[0]) == Running(z) && Inv(z) && Run(y, steps) == Run(z, steps[1..])
  {
    StepOk(y, steps[0]);
    z := StepSystem(y, steps[0]).sys;
  }

  lemma {:induction false} EveryRunOk(y: System, steps: seq<Step>)
    requires Inv(y)
    ensures var o := Run(y, steps); o.Running? && Inv(o.sys)
    decreases |steps|
  {
    if steps != [] {
      var z := FirstStep(y, steps);
      EveryRunOk(z, steps[1..]);
    }
  }

  // Main results

  /** In every reachable state no error has occurred, and in each direction of an open channel the sender's
      window, the bytes reserved or on the wire and the adjustments on their way make up the receiver's window,
      which with the unread, uncredited and discarded bytes makes up the initial window. */
  ghost predicate Conserved(s: Endpoint, r: Endpoint, sr: seq<Packet>, rs: seq<Packet>) {
    && s.tx.win + ChunkBytes(s.tx.granted) + DataBytes(sr) + GrantBytes(rs) + Sum(r.rx.credited) + Owed(r)
        == r.rx.window
    && r.rx.window + |r.rx.plain| + |r.rx.stderr| + Sum(r.rx.read) + r.rx.discarded == WINDOW
  }

  lemma WindowConserved(steps: seq<Step>)
    ensures var o := Run(Start(), steps);
      && o.Running?
      && o.sys.a.rx.window <= WINDOW && o.sys.b.rx.window <= WINDOW
      && o.sys.a.tx.win <= WINDOW && o.sys.b.tx.win <= WINDOW
      && (!o.sys.a.sentClose && !o.sys.b.sentClose ==>
            Conserved(o.sys.a, o.sys.b, o.sys.ab, o.sys.ba) && Conserved(o.sys.b, o.sys.a, o.sys.ba, o.sys.ab))
  {
    StartOk();
    EveryRunOk(Start(), steps);
  }

  /** What Read has returned on either stream is a prefix of what was passed to WriteExtended on it. */
  lemma InOrder(steps: seq<Step>, ext: bool)
    ensures var o := Run(Start(), steps);
      && o.Running?
      && Returned(o.sys.b.rx, ext) <= Get(o.sys.a.tx.offered, Code(ext))
      && Returned(o.sys.a.rx, ext) <= Get(o.sys.b.tx.offered, Code(ext))
  {
    StartOk();
    EveryRunOk(Start(), steps);
    var y := Run(Start(), steps).sys;
    PrefixOfSent(y.a, y.b, y.ab, ext);
    PrefixOfSent(y.b, y.a, y.ba, ext);
  }

  lemma PrefixOfSent(s: Endpoint, r: Endpoint, sr: seq<Packet>, ext: bool)
    requires StreamOk(s, Sent(r.rx, sr, ext), Code(ext))
    ensures Returned(r.rx, ext) <= Get(s.tx.offered, Code(ext))
  {
    var sent := Sent(r.rx, sr, ext);
    assert Returned(r.rx, ext) <= sent;
    assert sent <= Get(s.tx.offered, Code(ext));
  }

  // The beginning of a run

  lemma RunCons(y: System, step: Step, rest: seq<Step>)
    requires StepSystem(y, step).Running?
    ensures Run(y, [step] + rest) == Run(StepSystem(y, step).sys, rest)
  {
    assert ([step] + rest)[1..] == rest;
  }

  /** The open channel, before anything is sent on it. */
  function Opened(): System {
    var y := Start();
    System(y.a.(decided := true, tx := y.a.tx.(win := WINDOW, maxRemote := MAX_PACKET)),
           y.b.(decided := true, rx := y.b.rx.(maxIncoming := MAX_PACKET)), [], [])
  }

  lemma OpenedFirst(rest: seq<Step>)
    ensures Run(Start(), [ActB(Accept)] + ([DeliverToA] + rest)) == Run(Opened(), rest)
  {
    var y1 := StepSystem(Start(), ActB(Accept)).sys;
    assert y1.ba == [Confirm(WINDOW, MAX_PACKET)] && y1.ab == [];
    assert StepSystem(y1, DeliverToA) == Running(Opened());
    RunCons(Start(), ActB(Accept), [DeliverToA] + rest);
    RunCons(y1, DeliverToA, rest);
  }
}
