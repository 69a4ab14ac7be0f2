/** The channel object of golang-x-crypto/ssh/channel.go, its window (common.go) and its data packets, each
    method proved against the pure system of SshFlow. A method that would wait reports Blocked instead. */
module SshChannel {
  import opened Bytes
  import F = SshFlow
  import B = SshBuffer

  class Window {
    var win: nat
    var closed: bool

    constructor ()
      ensures win == 0 && !closed
    {
      win, closed := 0, false;
    }

    /** Refused exactly when the sum does not fit in 32 bits. */
    method Add(n: nat) returns (ok: bool)
      requires win < TWO32 && n < TWO32
      modifies this`win
      ensures ok <==> old(win) + n < TWO32
      ensures win == if ok then old(win) + n else old(win)
      ensures ok == F.Add(old(win), n).Some? && (ok ==> win == F.Add(old(win), n).value)
    {
      if n == 0 {
        return true;
      }
      if F.Plus32(win, n) < n {
        return false;
      }
      win := F.Plus32(win, n);
      return true;
    }

    method Close()
      modifies this`closed
      ensures closed
    {
      closed := true;
    }

    /** Take up to n bytes of window; a closed window still gives them up but fails. */
    method Reserve(n: nat) returns (granted: nat, eof: bool)
      requires win > 0 || closed
      modifies this`win
      ensures granted == Min(n, old(win)) && win == old(win) - granted && eof == closed
    {
      granted := n;
      if win < n {
        granted := win;
      }
      win := win - granted;
      eof := closed;
    }
  }

  const DATA: byte := 94
  const EXTENDED_DATA: byte := 95
  const CLOSE: byte := 97
  const ADJUST: byte := 93

  /** A channel data packet: opcode, recipient, stream code when extended, length, payload. */
  function DataPacket(id: nat, code: nat, bytes: seq<byte>): seq<byte> {
    [if code > 0 then EXTENDED_DATA else DATA] + U32(id) + (if code > 0 then U32(code) else []) + U32(|bytes|) + bytes
  }

  function AdjustPacket(id: nat, n: nat): seq<byte> {
    [ADJUST] + U32(id) + U32(n)
  }

  function ClosePacket(id: nat): seq<byte> { [CLOSE] + U32(id) }

  datatype PacketFault = ParseError | WrongLength | Flow(fault: F.Fault)

  datatype PacketResult = Taken(r: F.Receiver) | Bad(fault: PacketFault)

  /** handleData on raw bytes. */
  function TakeData(r: F.Receiver, packet: seq<byte>): PacketResult
    requires packet != []
  {
    var header := if packet[0] == EXTENDED_DATA then 13 else 9;
    if |packet| < header then Bad(ParseError) else
    var code := if packet[0] == EXTENDED_DATA then ReadU32(packet[5..]) else 0;
    var length := ReadU32(packet[header - 4..]);
    var data := packet[header..];
    if length == 0 then Taken(r)
    else if length > r.maxIncoming then Bad(Flow(F.TooLarge))
    else if length != |data| % TWO32 then Bad(WrongLength)
    else if r.window < length then Bad(Flow(F.WroteTooMuch))
    else Taken(Filed(r.(window := r.window - length), code, data))
  }

  /** The data goes to the buffer of its stream; other streams are dropped. */
  function Filed(r: F.Receiver, code: nat, data: seq<byte>): F.Receiver {
    if code == 1 then r.(stderr := r.stderr + data)
    else if code > 1 then r.(discarded := r.discarded + |data|)
    else r.(plain := r.plain + data)
  }

  lemma PlainPacket(id: nat, bytes: seq<byte>)
    requires |bytes| < TWO32
    ensures var p := DataPacket(id, 0, bytes);
      |p| >= 9 && p[0] != EXTENDED_DATA && ReadU32(p[5..]) == |bytes| && p[9..] == bytes
  {
    var p := DataPacket(id, 0, bytes);
    U32RoundTrip(|bytes|, bytes);
    assert p[5..] == U32(|bytes|) + bytes;
    assert p[9..] == bytes;
  }

  lemma ExtendedPacket(id: nat, code: nat, bytes: seq<byte>)
    requires 0 < code < TWO32 && |bytes| < TWO32
    ensures var p := DataPacket(id, code, bytes);
      && |p| >= 13 && p[0] == EXTENDED_DATA && ReadU32(p[5..]) == code
      && ReadU32(p[9..]) == |bytes| && p[13..] == bytes
  {
    var p := DataPacket(id, code, bytes);
    U32RoundTrip(|bytes|, bytes);
    U32RoundTrip(code, U32(|bytes|) + bytes);
    assert p[5..] == U32(code) + (U32(|bytes|) + bytes);
    assert p[9..] == U32(|bytes|) + bytes;
    assert p[13..] == bytes;
  }

  /** A data packet built by the sender is understood by the receiver as the data it was built from. */
  lemma DataPacketUnderstood(r: F.Receiver, id: nat, code: nat, bytes: seq<byte>)
    requires code < TWO32 && |bytes| < TWO32
    ensures TakeData(r, DataPacket(id, code, bytes)) ==
      var h := F.HandleData(r, code, bytes); if h.Accepted? then Taken(h.r) else Bad(Flow(h.fault))
  {
    if code > 0 {
      ExtendedPacket(id, code, bytes);
    } else {
      PlainPacket(id, bytes);
    }
  }

  /** The size of the next packet when n bytes are left: the source compares the low 32 bits of n. */
  function PacketSize(max: nat, win: nat, n: nat): (k: nat)
    ensures k <= n % TWO32 && k <= win && k <= max
  {
    Min(Min(max, n % TWO32), win)
  }

  /** The payloads of one write that finds `win` bytes of window. */
  function Payloads(max: nat, win: nat, data: seq<byte>): seq<seq<byte>>
    decreases |data|
  {
    var k := PacketSize(max, win, |data|);
    if k == 0 then [] else [data[..k]] + Payloads(max, win - k, data[k..])
  }

  lemma PayloadsStep(max: nat, win: nat, data: seq<byte>, k: nat)
    requires k == PacketSize(max, win, |data|) && k > 0
    ensures Payloads(max, win, data) == [data[..k]] + Payloads(max, win - k, data[k..])
  {
  }

  function Packets(id: nat, code: nat, ps: seq<seq<byte>>): seq<seq<byte>> {
    if ps == [] then [] else [DataPacket(id, code, ps[0])] + Packets(id, code, ps[1..])
  }

  /** The packets of a write carry the data in order, each within the peer's limit, until the window or the
      length modulo 2^32 is used up. */
  lemma {:induction false} PayloadsAre(max: nat, win: nat, data: seq<byte>)
    requires max > 0
    ensures Concat(Payloads(max, win, data)) == data[..Min(win, |data| % TWO32)]
    decreases |data|
  {
    var k := PacketSize(max, win, |data|);
    if k == 0 {
      assert Payloads(max, win, data) == [] && Min(win, |data| % TWO32) == 0;
    } else {
      PayloadsAre(max, win - k, data[k..]);
      PayloadsStep(max, win, data, k);
      LeftToSend(win, |data|, k);
      JoinTaken(data, k, Payloads(max, win - k, data[k..]), Min(win - k, (|data| - k) % TWO32));
    }
  }

  lemma LeftToSend(win: nat, n: nat, k: nat)
    requires k <= n % TWO32 && k <= win
    ensures k <= n && k + Min(win - k, (n - k) % TWO32) == Min(win, n % TWO32) <= n
  {
    SmallerResidue(n, k);
  }

  lemma JoinTaken(data: seq<byte>, k: nat, more: seq<seq<byte>>, n: nat)
    requires k + n <= |data| && Concat(more) == data[k..][..n]
    ensures Concat([data[..k]] + more) == data[..k + n]
  {
    JoinStep(data[..k], more);
    Reassemble(data, k, n);
  }

  lemma JoinStep(p: seq<byte>, more: seq<seq<byte>>)
    ensures Concat([p] + more) == p + Concat(more)
  {
    assert ([p] + more)[1..] == more;
  }

  lemma Reassemble(data: seq<byte>, k: nat, n: nat)
    requires k + n <= |data|
    ensures data[..k] + data[k..][..n] == data[..k + n]
  {
  }

  lemma {:induction false} PayloadsFit(max: nat, win: nat, data: seq<byte>)
    ensures forall i :: 0 <= i < |Payloads(max, win, data)| ==> 0 < |Payloads(max, win, data)[i]| <= max
    decreases |data|
  {
    var k := PacketSize(max, win, |data|);
    if k != 0 {
      PayloadsFit(max, win - k, data[k..]);
    }
  }

  lemma SmallerResidue(n: nat, k: nat)
    requires k <= n % TWO32
    ensures k <= n && (n - k) % TWO32 == n % TWO32 - k
  {
  }

  lemma {:induction false} PacketsAppend(id: nat, code: nat, ps: seq<seq<byte>>, p: seq<byte>)
    ensures Packets(id, code, ps + [p]) == Packets(id, code, ps) + [DataPacket(id, code, p)]
  {
    if ps == [] {
      assert [p][1..] == [];
    } else {
      PacketsAppend(id, code, ps[1..], p);
      assert (ps + [p])[1..] == ps[1..] + [p];
    }
  }

  lemma PacketsGrow(wire: seq<seq<byte>>, id: nat, code: nat, ps: seq<seq<byte>>, p: seq<byte>)
    ensures wire + Packets(id, code, ps) + [DataPacket(id, code, p)] == wire + Packets(id, code, ps + [p])
  {
    PacketsAppend(id, code, ps, p);
  }

  /** A write that runs alone in SshFlow: a reservation and a transmission for each packet. */
  function DriveWrite(e: F.Endpoint, c: nat): (F.Endpoint, seq<F.Packet>)
    requires e.tx.granted == [] && !e.sentClose && !e.tx.winClosed
    decreases |F.Get(e.tx.remaining, c)|
  {
    if F.PacketSize(e.tx, F.Get(e.tx.remaining, c)) == 0 then (e, []) else
    var reserved := F.DoReserve(e, c);
    var (sent, out) := F.DoTransmit(reserved, 0);
    assert F.Get(reserved.tx.remaining, c) == F.Get(e.tx.remaining, c)[F.PacketSize(e.tx, F.Get(e.tx.remaining, c))..];
    var (last, more) := DriveWrite(sent, c);
    (last, out + more)
  }

  function Payload(out: seq<F.Packet>): seq<seq<byte>> {
    if out == [] then [] else (if out[0].Data? then [out[0].bytes] else []) + Payload(out[1..])
  }

  /** The packets of WriteExtended are those of the transition system. */
  lemma {:induction false} WriteRefinesFlow(e: F.Endpoint, c: nat)
    requires e.tx.granted == [] && !e.sentClose && !e.tx.winClosed
    ensures Payload(DriveWrite(e, c).1) == Payloads(e.tx.maxRemote, e.tx.win, F.Get(e.tx.remaining, c))
    ensures forall p :: p in DriveWrite(e, c).1 ==> p.Data? && p.code == c
    decreases |F.Get(e.tx.remaining, c)|
  {
    var data := F.Get(e.tx.remaining, c);
    var k := F.PacketSize(e.tx, data);
    if k != 0 {
      var reserved := F.DoReserve(e, c);
      var (sent, out) := F.DoTransmit(reserved, 0);
      assert reserved.tx.granted == [F.Chunk(c, data[..k])];
      assert out == [F.Data(c, data[..k])];
      WriteRefinesFlow(sent, c);
      assert (out + DriveWrite(sent, c).1)[1..] == DriveWrite(sent, c).1;
    }
  }

  /** How a write ends. Spins: the length left is a positive multiple of 2^32, so the source's 32-bit
      length is zero and it would send empty packets for ever. */
  datatype WriteOutcome = Done | Blocked | EndOfFile | Spins

  function Ending(win: nat, length: nat): WriteOutcome {
    var m := length % TWO32;
    if win < m || (win == m && length > m) then Blocked
    else if length >= TWO32 then Spins
    else Done
  }

  /** The count and the outcome, from what is left (a) and the low 32 bits of the length (m). */
  lemma FinishedCounts(length: nat, n: nat, win0: nat, win: nat, max: nat, a: nat, m: nat)
    requires m == length % TWO32 && n <= length && win + n == win0 && a + n == m && max > 0
    requires n == length || a == 0 || win == 0
    ensures n == Min(win0, m)
    ensures Ending(win0, length) == if n == length then Done else if win == 0 then Blocked else Spins
  {
    assert length == TWO32 * (length / TWO32) + m;
  }

  /** Two empty buffers that share no element. */
  method NewBuffers() returns (p: B.Buffer, q: B.Buffer)
    ensures fresh(p) && fresh(q) && p != q && fresh(p.spine) && fresh(q.spine)
    ensures p.Valid() && q.Valid() && p.Contents() == [] && q.Contents() == [] && !p.closed && !q.closed
    ensures forall e :: e in p.spine ==> e !in q.spine
  {
    p := new B.Buffer();
    q := new B.Buffer();
  }

  class Channel {
    const id: nat
    const remoteWin: Window
    const pending: B.Buffer
    const extPending: B.Buffer
    var myWindow: nat
    var maxIncoming: nat
    var maxRemote: nat
    var sentEof: bool
    var sentClose: bool
    var wire: seq<seq<byte>>

    ghost predicate Valid()
      reads this, pending, extPending, pending.spine, extPending.spine
    {
      && pending != extPending && pending.Valid() && extPending.Valid()
      && (forall e :: e in pending.spine ==> e !in extPending.spine)
      && myWindow < TWO32
    }

    /** The receiving half as SshFlow sees it, without its history. */
    ghost function View(): F.Receiver
      requires Valid()
      reads this, pending, extPending, pending.spine, extPending.spine
    {
      F.Receiver(myWindow, maxIncoming, pending.Contents(), extPending.Contents(), pending.closed, [], [], [], [], 0, 0)
    }

    constructor (id: nat, maxIncoming: nat)
      ensures Valid() && fresh(remoteWin) && fresh(pending) && fresh(extPending)
      ensures fresh(pending.spine) && fresh(extPending.spine)
      ensures View() == F.NewEndpoint(true, maxIncoming).rx && this.id == id
      ensures remoteWin.win == 0 && !remoteWin.closed && !sentEof && !sentClose && wire == []
    {
      this.id := id;
      remoteWin := new Window();
      var p, q := NewBuffers();
      pending, extPending := p, q;
      myWindow := F.WINDOW;
      this.maxIncoming, maxRemote := maxIncoming, 0;
      sentEof, sentClose, wire := false, false, [];
    }

    /** Nothing leaves after a close. */
    method WritePacket(packet: seq<byte>) returns (ok: bool)
      requires packet != []
      modifies this`sentClose, this`wire
      ensures ok == !old(sentClose)
      ensures wire == if ok then old(wire) + [packet] else old(wire)
      ensures sentClose == (old(sentClose) || packet[0] == CLOSE)
    {
      if sentClose {
        return false;
      }
      sentClose := packet[0] == CLOSE;
      wire := wire + [packet];
      return true;
    }

    /** One turn of WriteExtended's loop: reserve window for the next packet and send it. */
    method SendOne(rest: seq<byte>, code: nat) returns (k: nat, outcome: WriteOutcome)
      requires rest != []
      modifies this`wire, this`sentClose, remoteWin`win
      ensures sentClose == old(sentClose)
      ensures sentClose || remoteWin.closed ==>
        && k == 0 && wire == old(wire)
        && outcome == (if old(remoteWin.win) == 0 && !remoteWin.closed then Blocked else EndOfFile)
        && remoteWin.win == old(remoteWin.win) - PacketSize(maxRemote, old(remoteWin.win), |rest|)
      ensures !sentClose && !remoteWin.closed ==>
        && k == PacketSize(maxRemote, old(remoteWin.win), |rest|) && remoteWin.win == old(remoteWin.win) - k
        && outcome == (if old(remoteWin.win) == 0 then Blocked else if k == 0 then Spins else Done)
        && wire == if k > 0 then old(wire) + [DataPacket(id, code, rest[..k])] else old(wire)
    {
      if remoteWin.win == 0 && !remoteWin.closed {
        return 0, Blocked;
      }
      var space := Min(maxRemote, |rest| % TWO32);
      if space == 0 && !remoteWin.closed && !sentClose {
        return 0, Spins;
      }
      var eof;
      space, eof := remoteWin.Reserve(space);
      if eof {
        return 0, EndOfFile;
      }
      var ok := WritePacket(DataPacket(id, code, rest[..space]));
      if !ok {
        return 0, EndOfFile;
      }
      return space, Done;
    }

    /** After n bytes of a write that found `win0` and `sent`: the payloads so far and what they leave. */
    ghost predicate Writing(win0: nat, sent: seq<seq<byte>>, data: seq<byte>, code: nat, n: nat, ps: seq<seq<byte>>)
      reads this, remoteWin
    {
      && !sentClose && !remoteWin.closed && maxRemote > 0
      && Progress(win0, data, n, ps, remoteWin.win) && wire == sent + Packets(id, code, ps)
    }

    /** The write is over: everything it could send is on the wire. */
    ghost predicate Written(win0: nat, sent: seq<seq<byte>>, data: seq<byte>, code: nat, n: nat, outcome: WriteOutcome)
      reads this, remoteWin
    {
      && !sentClose && !remoteWin.closed && wire == sent + Packets(id, code, Payloads(maxRemote, win0, data))
      && n == Min(win0, |data| % TWO32) && remoteWin.win + n == win0 && outcome == Ending(win0, |data|)
    }

    /** One turn of the loop. */
    method WriteSome(data: seq<byte>, code: nat, n: nat, ghost win0: nat, ghost sent: seq<seq<byte>>,
                     ghost ps: seq<seq<byte>>)
      returns (k: nat, outcome: WriteOutcome, ghost more: seq<seq<byte>>)
      requires n < |data| && Writing(win0, sent, data, code, n, ps)
      modifies this`wire, this`sentClose, remoteWin`win
      ensures outcome == Done ==> 0 < k <= |data| - n && Writing(win0, sent, data, code, n + k, more)
      ensures outcome != Done ==> Written(win0, sent, data, code, n, outcome)
    {
      ghost var win := remoteWin.win;
      var rest := data[n..];
      k, outcome := SendOne(rest, code);
      more := ps + [rest[..k]];
      if outcome == Done {
        AdvanceWire(win0, data, n, ps, win, k, sent, code);
      } else {
        Finished(win0, data, n, ps, win);
      }
    }

    /** The loop of WriteExtended on an open channel. */
    method WriteOpen(data: seq<byte>, code: nat) returns (n: nat, outcome: WriteOutcome)
      requires maxRemote > 0 && !sentClose && !remoteWin.closed
      modifies this`wire, this`sentClose, remoteWin`win
      ensures sentClose == old(sentClose)
      ensures wire == old(wire) + Packets(id, code, Payloads(maxRemote, old(remoteWin.win), data))
      ensures n == Min(old(remoteWin.win), |data| % TWO32) && remoteWin.win == old(remoteWin.win) - n
      ensures outcome == Ending(old(remoteWin.win), |data|)
    {
      n, outcome := 0, Done;
      ghost var ps: seq<seq<byte>>, win0, sent := [], remoteWin.win, wire;
      while n < |data|
        invariant n <= |data| && outcome == Done && Writing(win0, sent, data, code, n, ps)
        decreases |data| - n
      {
        var k;
        k, outcome, ps := WriteSome(data, code, n, win0, sent, ps);
        if outcome != Done {
          return;
        }
        n := n + k;
      }
      Finished(win0, data, n, ps, remoteWin.win);
    }

    /** Write as much as the window allows without waiting. */
    method WriteExtended(data: seq<byte>, code: nat) returns (n: nat, outcome: WriteOutcome)
      requires maxRemote > 0
      modifies this`wire, this`sentClose, remoteWin`win
      ensures sentClose == old(sentClose)
      ensures sentEof ==> n == 0 && outcome == EndOfFile && wire == old(wire) && remoteWin.win == old(remoteWin.win)
      ensures !sentEof && !sentClose && !remoteWin.closed ==>
        && wire == old(wire) + Packets(id, code, Payloads(maxRemote, old(remoteWin.win), data))
        && n == Min(old(remoteWin.win), |data| % TWO32)
        && remoteWin.win == old(remoteWin.win) - n
        && outcome == Ending(old(remoteWin.win), |data|)
      ensures !sentEof && (sentClose || remoteWin.closed) ==>
        && n == 0 && wire == old(wire)
        && remoteWin.win == old(remoteWin.win) - PacketSize(maxRemote, old(remoteWin.win), |data|)
        && outcome == if data == [] then Done
                      else if old(remoteWin.win) == 0 && !remoteWin.closed then Blocked else EndOfFile
    {
      if sentEof {
        return 0, EndOfFile;
      }
      if !sentClose && !remoteWin.closed {
        n, outcome := WriteOpen(data, code);
      } else if |data| == 0 {
        return 0, Done;
      } else {
        n, outcome := SendOne(data, code);
      }
    }

    /** After n bytes: the payloads sent so far and those still to come make up those of the whole write. */
    ghost predicate Progress(win0: nat, data: seq<byte>, n: nat, ps: seq<seq<byte>>, win: nat)
      reads this
    {
      && n <= |data| && win + n == win0 && (|data| - n) % TWO32 + n == |data| % TWO32
      && ps + Payloads(maxRemote, win, data[n..]) == Payloads(maxRemote, win0, data)
    }

    lemma Advance(win0: nat, data: seq<byte>, n: nat, ps: seq<seq<byte>>, win: nat, k: nat)
      requires Progress(win0, data, n, ps, win)
      requires k == PacketSize(maxRemote, win, |data| - n) && k > 0
      ensures n + k <= |data| && Progress(win0, data, n + k, ps + [data[n..][..k]], win - k)
    {
      SmallerResidue(|data| - n, k);
      assert data[n..][k..] == data[n + k..];
      PayloadsStep(maxRemote, win, data[n..], k);
      assert ps + ([data[n..][..k]] + Payloads(maxRemote, win - k, data[n + k..]))
          == ps + [data[n..][..k]] + Payloads(maxRemote, win - k, data[n + k..]);
    }

    /** The next packet goes out. */
    lemma AdvanceWire(win0: nat, data: seq<byte>, n: nat, ps: seq<seq<byte>>, win: nat, k: nat,
                      sent: seq<seq<byte>>, code: nat)
      requires Progress(win0, data, n, ps, win)
      requires k == PacketSize(maxRemote, win, |data| - n) && k > 0
      ensures n + k <= |data|
      ensures var p := data[n..][..k];
        && Progress(win0, data, n + k, ps + [p], win - k)
        && sent + Packets(id, code, ps) + [DataPacket(id, code, p)] == sent + Packets(id, code, ps + [p])
    {
      Advance(win0, data, n, ps, win, k);
      PacketsGrow(sent, id, code, ps, data[n..][..k]);
    }

    lemma Finished(win0: nat, data: seq<byte>, n: nat, ps: seq<seq<byte>>, win: nat)
      requires Progress(win0, data, n, ps, win) && maxRemote > 0
      requires n == |data| || PacketSize(maxRemote, win, |data| - n) == 0
      ensures ps == Payloads(maxRemote, win0, data) && n == Min(win0, |data| % TWO32)
      ensures Ending(win0, |data|) == if n == |data| then Done else if win == 0 then Blocked else Spins
    {
      FinishedCounts(|data|, n, win0, win, maxRemote, (|data| - n) % TWO32, |data| % TWO32);
    }

    /** Take a data packet off the wire, as TakeData does on the view. */
    method HandleData(packet: seq<byte>) returns (fault: Option<PacketFault>)
      requires Valid() && packet != []
      modifies this`myWindow
      modifies pending`tail, pending`spine, pending.tail`next
      modifies extPending`tail, extPending`spine, extPending.tail`next
      ensures Valid()
      ensures var res := TakeData(old(View()), packet);
        && fault == (if res.Bad? then Some(res.fault) else None)
        && View() == if res.Bad? then old(View()) else res.r.(discarded := 0)
    {
      var header := if packet[0] == EXTENDED_DATA then 13 else 9;
      if |packet| < header {
        return Some(ParseError);
      }
      var code := if packet[0] == EXTENDED_DATA then ReadU32(packet[5..]) else 0;
      var length := ReadU32(packet[header - 4..]);
      if length == 0 {
        return None;
      }
      if length > maxIncoming {
        return Some(Flow(F.TooLarge));
      }
      var data := packet[header..];
      if length != |data| % TWO32 {
        return Some(WrongLength);
      }
      if myWindow < length {
        return Some(Flow(F.WroteTooMuch));
      }
      TakeIn(code, length, data);
      return None;
    }

    method TakeIn(code: nat, length: nat, data: seq<byte>)
      requires Valid() && length <= myWindow
      modifies this`myWindow
      modifies pending`tail, pending`spine, pending.tail`next
      modifies extPending`tail, extPending`spine, extPending.tail`next
      ensures Valid()
      ensures View() == Filed(old(View()).(window := old(myWindow) - length), code, data).(discarded := 0)
    {
      myWindow := myWindow - length;
      Keep(code, data);
    }

    method KeepStderr(data: seq<byte>)
      requires Valid()
      modifies extPending`tail, extPending`spine, extPending.tail`next
      ensures Valid() && extPending.Contents() == old(extPending.Contents()) + data
      ensures pending.Contents() == old(pending.Contents())
    {
      extPending.Write(data);
      B.Untouched(pending);
    }

    method KeepPlain(data: seq<byte>)
      requires Valid()
      modifies pending`tail, pending`spine, pending.tail`next
      ensures Valid() && pending.Contents() == old(pending.Contents()) + data
      ensures extPending.Contents() == old(extPending.Contents())
    {
      pending.Write(data);
      B.Untouched(extPending);
    }

    /** Stderr and plain data go to their buffers; other streams are dropped. */
    method Keep(code: nat, data: seq<byte>)
      requires Valid()
      modifies pending`tail, pending`spine, pending.tail`next
      modifies extPending`tail, extPending`spine, extPending.tail`next
      ensures Valid()
      ensures pending.Contents() == if code == 0 then old(pending.Contents()) + data else old(pending.Contents())
      ensures extPending.Contents() == if code == 1 then old(extPending.Contents()) + data
          else old(extPending.Contents())
    {
      if code == 1 {
        KeepStderr(data);
      } else if code == 0 {
        KeepPlain(data);
      }
    }

    /** Credit the window, then tell the peer. */
    method AdjustWindow(n: nat) returns (ok: bool)
      requires n < TWO32 && myWindow < TWO32
      modifies this`myWindow, this`wire, this`sentClose
      ensures myWindow == F.Plus32(old(myWindow), n) && sentClose == old(sentClose) && ok == !sentClose
      ensures wire == old(wire) + if ok then [AdjustPacket(id, n)] else []
    {
      myWindow := F.Plus32(myWindow, n);
      ok := WritePacket(AdjustPacket(id, n));
    }

    method ReadStderr(size: nat) returns (res: B.ReadResult, k: nat)
      requires Valid()
      modifies extPending`head, extPending`spine, extPending.spine`buf
      ensures Valid() && res == B.ReadSpec(old(extPending.Contents()), extPending.closed, size)
          && k == B.Taken(res) <= size
      ensures extPending.Contents() == old(extPending.Contents())[k..]
      ensures pending.Contents() == old(pending.Contents())
    {
      res := extPending.Read(size);
      k := B.Taken(res);
      assert forall e :: e in pending.spine ==> e !in old(extPending.spine);
      B.Untouched(pending);
    }

    method ReadPlain(size: nat) returns (res: B.ReadResult, k: nat)
      requires Valid()
      modifies pending`head, pending`spine, pending.spine`buf
      ensures Valid() && res == B.ReadSpec(old(pending.Contents()), pending.closed, size) && k == B.Taken(res) <= size
      ensures pending.Contents() == old(pending.Contents())[k..]
      ensures extPending.Contents() == old(extPending.Contents())
    {
      res := pending.Read(size);
      k := B.Taken(res);
      assert forall e :: e in extPending.spine ==> e !in old(pending.spine);
      B.Untouched(extPending);
    }

    /** Take k bytes from a stream's buffer. */
    method TakeBytes(size: nat, code: nat) returns (r: Option<B.ReadResult>, k: nat)
      requires Valid()
      modifies pending`head, pending`spine, pending.spine`buf
      modifies extPending`head, extPending`spine, extPending.spine`buf
      ensures Valid() && k <= size
      ensures r == if code == 0 then Some(B.ReadSpec(old(pending.Contents()), pending.closed, size))
                   else if code == 1 then Some(B.ReadSpec(old(extPending.Contents()), extPending.closed, size))
                   else None
      ensures k == if r.Some? then B.Taken(r.value) else 0
      ensures pending.Contents() == if code == 0 then old(pending.Contents())[k..] else old(pending.Contents())
      ensures extPending.Contents() == if code == 1 then old(extPending.Contents())[k..] else old(extPending.Contents())
    {
      if code > 1 {
        return None, 0;
      }
      var res;
      if code == 1 {
        res, k := ReadStderr(size);
      } else {
        res, k := ReadPlain(size);
      }
      r := Some(res);
    }

    /** A read, which gives the window of the bytes it took back to the peer. */
    method ReadExtended(size: nat, code: nat) returns (r: Option<B.ReadResult>, k: nat)
      requires Valid()
      modifies this`myWindow, this`wire, this`sentClose
      modifies pending`head, pending`spine, pending.spine`buf
      modifies extPending`head, extPending`spine, extPending.spine`buf
      ensures r == if code == 0 then Some(B.ReadSpec(old(pending.Contents()), pending.closed, size))
                   else if code == 1 then Some(B.ReadSpec(old(extPending.Contents()), extPending.closed, size))
                   else None
      ensures k == if r.Some? then B.Taken(r.value) else 0
      ensures Valid()
      ensures pending.Contents() == if code == 0 then old(pending.Contents())[k..] else old(pending.Contents())
      ensures extPending.Contents() == if code == 1 then old(extPending.Contents())[k..] else old(extPending.Contents())
      ensures myWindow == F.Plus32(old(myWindow), k % TWO32) && sentClose == old(sentClose)
      ensures wire == old(wire) + if k > 0 && !sentClose then [AdjustPacket(id, k % TWO32)] else []
    {
      r, k := TakeBytes(size, code);
      if k > 0 {
        var _ := AdjustWindow(k % TWO32);
      }
    }

    /** An end-of-file packet: both streams end once their buffers are empty. */
    method HandleEof()
      requires Valid()
      modifies pending`closed, extPending`closed
      ensures Valid() && pending.closed && extPending.closed
      ensures pending.Contents() == old(pending.Contents()) && extPending.Contents() == old(extPending.Contents())
    {
      extPending.Eof();
      pending.Eof();
    }

    /** A close packet: answer it unless a close was sent, end both streams, and fail all later writes. */
    method HandleClose()
      requires Valid()
      modifies this`wire, this`sentClose, pending`closed, extPending`closed, remoteWin`closed
      ensures Valid() && sentClose && pending.closed && extPending.closed && remoteWin.closed
      ensures wire == old(wire) + if old(sentClose) then [] else [ClosePacket(id)]
      ensures pending.Contents() == old(pending.Contents()) && extPending.Contents() == old(extPending.Contents())
    {
      AnswerClose();
      HandleEof();
      FailWrites();
    }

    method AnswerClose()
      requires Valid()
      modifies this`wire, this`sentClose
      ensures Valid() && wire == old(wire) + if old(sentClose) then [] else [ClosePacket(id)]
      ensures pending.Contents() == old(pending.Contents()) && extPending.Contents() == old(extPending.Contents())
    {
      var _ := WritePacket(ClosePacket(id));
    }

    method FailWrites()
      requires Valid()
      modifies this`sentClose, remoteWin`closed
      ensures Valid() && sentClose && remoteWin.closed
      ensures pending.Contents() == old(pending.Contents()) && extPending.Contents() == old(extPending.Contents())
    {
      sentClose := true;
      remoteWin.Close();
    }
  }
}
