/** Window flow control on one SSH channel (golang-x-crypto/ssh/channel.go and the window type of common.go;
    section 5.2 of RFC 4254), as a system of two endpoints and two in-order packet queues. Every action is
    one critical section of the source: a write is an offer, then a reservation and a transmission for each
    packet; a read is a removal from the buffer, a credit to the window and the sending of an adjustment.
    Actions of any number of goroutines interleave freely, with one writer per stream at a time. */
module SshFlow {
  import opened Bytes

  const WINDOW: nat := 2097152      // channelWindowSize
  const MAX_PACKET: nat := 32768    // channelMaxPacket
  const MIN_PACKET: nat := 9        // minPacketLength

  datatype Packet =
    | Confirm(window: nat, max: nat)
    | Data(code: nat, bytes: seq<byte>)
    | Adjust(n: nat)
    | Eof
    | Close

  datatype Chunk = Chunk(code: nat, bytes: seq<byte>)

  /** The sending half of an endpoint. `offered` is everything handed to WriteExtended so far, by stream;
      `remaining` is what the current write of a stream has still to reserve; `granted` holds the packets
      reserved but not yet on the wire; `lost` counts reservations whose packet was refused. */
  datatype Sender = Sender(
    win: nat, winClosed: bool, maxRemote: nat, sentEof: bool,
    offered: map<nat, seq<byte>>, remaining: map<nat, seq<byte>>, granted: seq<Chunk>, lost: nat)

  /** The receiving half. `read` holds sizes returned by Read and not yet credited to the window; `credited`
      sizes credited whose adjustment is not yet sent; `lost` counts adjustments refused after close. */
  datatype Receiver = Receiver(
    window: nat, maxIncoming: nat, plain: seq<byte>, stderr: seq<byte>, eof: bool,
    read: seq<nat>, credited: seq<nat>, plainReturned: seq<byte>, stderrReturned: seq<byte>,
    discarded: nat, lost: nat)

  datatype Endpoint = Endpoint(inbound: bool, decided: bool, sentClose: bool, removed: bool, tx: Sender, rx: Receiver)

  function Get(m: map<nat, seq<byte>>, c: nat): seq<byte> {
    if c in m then m[c] else []
  }

  /** uint32 addition. */
  function Plus32(a: nat, b: nat): nat {
    if a + b < TWO32 then a + b else a + b - TWO32
  }

  /** window.add: the new window, or None when the sum wraps. */
  function Add(win: nat, n: nat): Option<nat> {
    if n == 0 then Some(win)
    else if Plus32(win, n) < n then None
    else Some(Plus32(win, n))
  }

  /** The size of the next packet of a write: the source compares uint32(len(data)). */
  function PacketSize(s: Sender, data: seq<byte>): nat {
    Min(Min(s.maxRemote, |data| % TWO32), s.win)
  }

  predicate Granted(g: seq<Chunk>, c: nat) {
    exists i :: 0 <= i < |g| && g[i].code == c
  }

  predicate Idle(s: Sender, c: nat) {
    Get(s.remaining, c) == [] && !Granted(s.granted, c)
  }

  datatype Action =
    | Accept
    | Offer(code: nat, data: seq<byte>)
    | Reserve(code: nat)
    | Transmit(index: nat)
    | Read(ext: bool, size: nat)
    | Credit(index: nat)
    | SendAdjust(index: nat)
    | CloseWrite
    | CloseChannel

  function Without<T>(s: seq<T>, i: nat): seq<T>
    requires i < |s|
  {
    s[..i] + s[i + 1..]
  }

  /** channel.writePacket: refused once a close has been sent. */
  function Post(e: Endpoint, p: Packet): (Endpoint, seq<Packet>) {
    if e.sentClose then (e, []) else (e.(sentClose := p.Close?), [p])
  }

  function DoReserve(e: Endpoint, c: nat): Endpoint {
    var s := e.tx;
    var data := Get(s.remaining, c);
    if data == [] || Granted(s.granted, c) || (s.win == 0 && !s.winClosed) then e else
    var k := PacketSize(s, data);
    if s.winClosed then
      e.(tx := s.(win := s.win - k, lost := s.lost + k, remaining := s.remaining[c := []]))
    else
      e.(tx := s.(win := s.win - k, granted := s.granted + [Chunk(c, data[..k])],
                  remaining := s.remaining[c := data[k..]]))
  }

  function DoTransmit(e: Endpoint, i: nat): (Endpoint, seq<Packet>) {
    if i >= |e.tx.granted| then (e, []) else
    var ch := e.tx.granted[i];
    var s := e.tx.(granted := Without(e.tx.granted, i));
    if e.sentClose then
      (e.(tx := s.(lost := s.lost + |ch.bytes|, remaining := s.remaining[ch.code := []])), [])
    else
      (e.(tx := s), [Data(ch.code, ch.bytes)])
  }

  function DoRead(e: Endpoint, ext: bool, size: nat): Endpoint {
    var r := e.rx;
    var buf := if ext then r.stderr else r.plain;
    var k := Min(size, |buf|);
    if !e.decided || k == 0 then e
    else if ext then
      e.(rx := r.(stderr := buf[k..], stderrReturned := r.stderrReturned + buf[..k], read := r.read + [k]))
    else
      e.(rx := r.(plain := buf[k..], plainReturned := r.plainReturned + buf[..k], read := r.read + [k]))
  }

  function DoCredit(e: Endpoint, i: nat): Endpoint {
    if i >= |e.rx.read| then e else
    var r := e.rx;
    e.(rx := r.(window := Plus32(r.window, r.read[i]), read := Without(r.read, i),
                credited := r.credited + [r.read[i]]))
  }

  function DoSendAdjust(e: Endpoint, i: nat): (Endpoint, seq<Packet>) {
    if i >= |e.rx.credited| then (e, []) else
    var n := e.rx.credited[i];
    var r := e.rx.(credited := Without(e.rx.credited, i));
    if e.sentClose then (e.(rx := r.(lost := r.lost + n)), []) else (e.(rx := r), [Adjust(n)])
  }

  /** One local action: the new endpoint and the packets it puts on the wire. An action that is not
      possible (a blocked write, an undecided channel) changes nothing. */
  function Act(e: Endpoint, a: Action): (Endpoint, seq<Packet>) {
    match a
    case Accept =>
      if !e.inbound || e.decided then (e, []) else
      Post(e.(decided := true, rx := e.rx.(maxIncoming := MAX_PACKET)), Confirm(e.rx.window, MAX_PACKET))
    case Offer(c, data) =>
      if !e.decided || e.tx.sentEof || !Idle(e.tx, c) then (e, []) else
      (e.(tx := e.tx.(offered := e.tx.offered[c := Get(e.tx.offered, c) + data],
                      remaining := e.tx.remaining[c := data])), [])
    case Reserve(c) => (DoReserve(e, c), [])
    case Transmit(i) => DoTransmit(e, i)
    case Read(ext, size) => (DoRead(e, ext, size), [])
    case Credit(i) => (DoCredit(e, i), [])
    case SendAdjust(i) => DoSendAdjust(e, i)
    case CloseWrite =>
      if !e.decided then (e, []) else Post(e.(tx := e.tx.(sentEof := true)), Eof)
    case CloseChannel =>
      if !e.decided then (e, []) else Post(e, Close)
  }

  datatype Fault = InvalidChannel | UnexpectedResponse | BadMaxPacket | TooLarge | WroteTooMuch | BadUpdate

  datatype Handled = Handled(e: Endpoint, out: seq<Packet>) | Failed(fault: Fault)

  /** handleData on a well-formed packet; any other extended stream than stderr is dropped. */
  function HandleData(r: Receiver, c: nat, bytes: seq<byte>): Result {
    if |bytes| == 0 then Accepted(r)
    else if |bytes| > r.maxIncoming then Refused(TooLarge)
    else if r.window < |bytes| then Refused(WroteTooMuch)
    else
      var r1 := r.(window := r.window - |bytes|);
      if c == 1 then Accepted(r1.(stderr := r.stderr + bytes))
      else if c > 1 then Accepted(r1.(discarded := r.discarded + |bytes|))
      else Accepted(r1.(plain := r.plain + bytes))
  }

  datatype Result = Accepted(r: Receiver) | Refused(fault: Fault)

  /** mux.onePacket and channel.handlePacket for the packets of one channel. */
  function Handle(e: Endpoint, p: Packet): Handled {
    if e.removed then Failed(InvalidChannel) else
    match p
    case Confirm(window, max) =>
      if e.inbound || e.decided then Failed(UnexpectedResponse)
      else if max < MIN_PACKET || max > 0x8000_0000 then Failed(BadMaxPacket)
      else
        var added := Add(e.tx.win, window);
        Handled(e.(decided := true, tx := e.tx.(maxRemote := max, win := if added.Some? then added.value
                                                else e.tx.win)), [])
    case Data(c, bytes) =>
      var res := HandleData(e.rx, c, bytes);
      if res.Refused? then Failed(res.fault) else Handled(e.(rx := res.r), [])
    case Adjust(n) =>
      var added := Add(e.tx.win, n);
      if added.None? then Failed(BadUpdate) else Handled(e.(tx := e.tx.(win := added.value)), [])
    case Eof => Handled(e.(rx := e.rx.(eof := true)), [])
    case Close =>
      var (e1, out) := Post(e, Close);
      Handled(e1.(removed := true, sentClose := true, rx := e1.rx.(eof := true), tx := e1.tx.(winClosed := true)), out)
  }

  datatype System = System(a: Endpoint, b: Endpoint, ab: seq<Packet>, ba: seq<Packet>)

  datatype Step = ActA(act: Action) | ActB(act: Action) | DeliverToA | DeliverToB

  datatype Outcome = Running(sys: System) | Broken(fault: Fault)

  function StepSystem(y: System, step: Step): Outcome {
    match step
    case ActA(act) => var (e, out) := Act(y.a, act); Running(y.(a := e, ab := y.ab + out))
    case ActB(act) => var (e, out) := Act(y.b, act); Running(y.(b := e, ba := y.ba + out))
    case DeliverToA =>
      if y.ba == [] then Running(y) else
      var h := Handle(y.a, y.ba[0]);
      if h.Failed? then Broken(h.fault) else Running(System(h.e, y.b, y.ab + h.out, y.ba[1..]))
    case DeliverToB =>
      if y.ab == [] then Running(y) else
      var h := Handle(y.b, y.ab[0]);
      if h.Failed? then Broken(h.fault) else Running(System(y.a, h.e, y.ab[1..], y.ba + h.out))
  }

  function Run(y: System, steps: seq<Step>): Outcome
    decreases |steps|
  {
    if steps == [] then Running(y) else
    var o := StepSystem(y, steps[0]);
    if o.Broken? then o else Run(o.sys, steps[1..])
  }

  function NewEndpoint(inbound: bool, max: nat): Endpoint {
    Endpoint(inbound, false, false, false,
             Sender(0, false, 0, false, map[], map[], [], 0),
             Receiver(WINDOW, max, [], [], false, [], [], [], [], 0, 0))
  }

  /** A has sent its open message and B's mux has created its end of the channel from it (openChannel and
      handleChannelOpen); B's application has not decided yet. */
  function Start(): System {
    var a := NewEndpoint(false, MAX_PACKET);
    var b := NewEndpoint(true, 0);
    System(a, b.(tx := b.tx.(maxRemote := a.rx.maxIncoming, win := Add(0, a.rx.window).value)), [], [])
  }
}
