/** Rekeying of an SSH transport under concurrent writers (golang-x-crypto/ssh/handshake.go; section 7.1 of
    RFC 4253). A step is one region in which the source holds the transport's lock; what the connection and
    the key-exchange algorithm do inside it is part of the step. A write is two steps, one up to its wait and one
    from it on, which follow each other at once when it need not wait. */
module SshHandshake {
  import opened Bytes

  const KEXINIT: byte := 20
  const NEWKEYS: byte := 21

  type Packet = p: seq<byte> | p != [] witness [0]

  predicate IsKex(p: Packet) { 30 <= p[0] <= 49 }

  datatype Error = WriteFailed | ReadFailed | ExchangeFailed | OnlyTransportSends | WriterBlocked

  /** The fields the lock protects. `wire` is what the connection has sent, `waiting` the packets of writers
      that have entered writePacket and not yet passed its wait, `completed` counts successful exchanges. */
  datatype State = State(
    threshold: nat, sentInit: Option<Packet>, written: nat, writeError: Option<Error>, session: Option<seq<byte>>,
    closed: bool, readerDone: bool, waiting: seq<Packet>, wire: seq<Packet>, completed: nat)

  function Start(threshold: nat): State {
    State(threshold, None, 0, None, None, false, false, [], [], 0)
  }

  /** conn.writePacket: a closed connection refuses; `io` is whether the write succeeds. */
  predicate Sends(s: State, io: bool) { io && !s.closed }

  function ConnWrite(s: State, p: Packet, io: bool): State {
    if Sends(s, io) then s.(wire := s.wire + [p]) else s
  }

  /** sendKexInitLocked: a second init of one exchange is not sent. */
  function SendInit(s: State, init: Packet, io: bool): State {
    if s.sentInit.Some? || !Sends(s, io) then s
    else ConnWrite(s, init, io).(sentInit := Some(init))
  }

  function RequestKex(s: State, first: bool, init: Packet, io: bool): State {
    if first && s.session.Some? then s else SendInit(s, init, io)
  }

  /** writePacket up to its wait. */
  function WriteBegin(s: State, p: Packet, init: Packet, io: bool): State {
    var s1 := if s.written > s.threshold then SendInit(s, init, io) else s;
    s1.(waiting := s1.waiting + [p])
  }

  predicate Blocked(s: State) { s.sentInit.Some? && s.writeError.None? }

  function Drop<T>(w: seq<T>, i: nat): seq<T>
    requires i < |w|
  {
    w[..i] + w[i + 1..]
  }

  /** The uint64 byte count; a packet is shorter than 2^64 bytes. */
  function Plus64(a: nat, b: nat): nat { if a + b < TWO64 then a + b else a + b - TWO64 }

  /** writePacket from its wait on: the state and the error returned. */
  function WriteResume(s: State, i: nat, io: bool): (State, Option<Error>) {
    if i >= |s.waiting| || Blocked(s) then (s, Some(WriterBlocked)) else
    var p := s.waiting[i];
    var s1 := s.(waiting := Drop(s.waiting, i));
    if s1.writeError.Some? then (s1, s1.writeError) else
    var s2 := s1.(written := Plus64(s1.written, |p|));
    if p[0] == KEXINIT || p[0] == NEWKEYS then (s2, Some(OnlyTransportSends))
    else (ConnWrite(s2, p, io), if Sends(s2, io) then None else Some(WriteFailed))
  }

  /** What the environment does during one exchange: whether our init can be written, whether the peer's
      init is acceptable, the key-exchange packets that go out, the exchange hash if it succeeds, whether our
      NEWKEYS can be written, whether the peer's NEWKEYS arrives. */
  datatype Exchange = Exchange(
    init: Packet, initIo: bool, agreed: bool, kex: seq<Packet>, hash: Option<seq<byte>>, keysIo: bool, peerKeys: bool)

  /** enterKeyExchangeLocked. */
  function Enter(s: State, x: Exchange): (State, bool) {
    var s1 := SendInit(s, x.init, x.initIo);
    if s1.sentInit.None? || !x.agreed then (s1, false) else
    var s2 := if s1.closed then s1 else s1.(wire := s1.wire + x.kex);
    if s2.closed || x.hash.None? then (s2, false) else
    var s3 := if s2.session.None? then s2.(session := x.hash) else s2;
    (ConnWrite(s3, [NEWKEYS], x.keysIo), Sends(s3, x.keysIo) && x.peerKeys)
  }

  /** The end of readOnePacket: a failed exchange drops the connection; either way the writers are released. */
  function Settle(s: State, ok: bool): State {
    var s1 := if ok then s.(completed := s.completed + 1)
              else s.(closed := true, writeError := Some(ExchangeFailed), readerDone := true);
    s1.(sentInit := None, written := 0)
  }

  /** readOnePacket on a KEXINIT: run the exchange, drop the connection if it fails, release the writers. */
  function Rekey(s: State, x: Exchange): State {
    var (s1, ok) := Enter(s, x);
    Settle(s1, ok)
  }

  /** readLoop ends: the writing side is declared dead too. */
  function ReadFails(s: State): State {
    s.(readerDone := true, writeError := if s.writeError.None? then Some(ReadFailed) else s.writeError)
  }

  datatype Step =
    | AskKex(first: bool, init: Packet, io: bool)
    | Begin(p: Packet, init: Packet, io: bool)
    | Resume(index: nat, io: bool)
    | GotKexInit(x: Exchange)
    | ReadError
    | CloseConn

  /** Our init is a KEXINIT packet; an exchange algorithm sends only its own messages. */
  predicate Legal(step: Step) {
    match step
    case AskKex(_, init, _) => init[0] == KEXINIT
    case Begin(_, init, _) => init[0] == KEXINIT
    case GotKexInit(x) => x.init[0] == KEXINIT && forall i :: 0 <= i < |x.kex| ==> IsKex(x.kex[i])
    case _ => true
  }

  function Next(s: State, step: Step): State {
    match step
    case AskKex(first, init, io) => RequestKex(s, first, init, io)
    case Begin(p, init, io) => WriteBegin(s, p, init, io)
    case Resume(i, io) => WriteResume(s, i, io).0
    case GotKexInit(x) => if s.readerDone then s else Rekey(s, x)
    case ReadError => if s.readerDone then s else ReadFails(s)
    case CloseConn => s.(closed := true)
  }

  function Run(s: State, steps: seq<Step>): State
    decreases |steps|
  {
    if steps == [] then s else Run(Next(s, steps[0]), steps[1..])
  }

  predicate AllLegal(steps: seq<Step>) {
    forall i :: 0 <= i < |steps| ==> Legal(steps[i])
  }

  // The trace property

  datatype Phase = Open | Exchanging | Violated

  function Advance(ph: Phase, p: Packet): Phase {
    match ph
    case Open => if p[0] == KEXINIT then Exchanging else if p[0] == NEWKEYS then Violated else Open
    case Exchanging => if IsKex(p) then Exchanging else if p[0] == NEWKEYS then Open else Violated
    case Violated => Violated
  }

  /** Reads the wire: a KEXINIT opens an exchange, only its messages may follow until NEWKEYS ends it. */
  function PhaseOf(wire: seq<Packet>): Phase {
    if wire == [] then Open else Advance(PhaseOf(wire[..|wire| - 1]), wire[|wire| - 1])
  }

  function Count(wire: seq<Packet>, kind: byte): nat {
    if wire == [] then 0 else Count(wire[..|wire| - 1], kind) + if wire[|wire| - 1][0] == kind then 1 else 0
  }

  lemma Extend(wire: seq<Packet>, p: Packet)
    ensures PhaseOf(wire + [p]) == Advance(PhaseOf(wire), p)
    ensures forall kind :: Count(wire + [p], kind) == Count(wire, kind) + if p[0] == kind then 1 else 0
  {
    assert (wire + [p])[..|wire|] == wire;
  }

  lemma {:induction false} ExtendKex(wire: seq<Packet>, kex: seq<Packet>)
    requires PhaseOf(wire) == Exchanging && forall i :: 0 <= i < |kex| ==> IsKex(kex[i])
    ensures PhaseOf(wire + kex) == Exchanging
    ensures Count(wire + kex, KEXINIT) == Count(wire, KEXINIT) && Count(wire + kex, NEWKEYS) == Count(wire, NEWKEYS)
    decreases |kex|
  {
    if kex == [] {
      assert wire + kex == wire;
    } else {
      var n := |kex| - 1;
      ExtendKex(wire, kex[..n]);
      assert wire + kex == (wire + kex[..n]) + [kex[n]];
      Extend(wire + kex[..n], kex[n]);
    }
  }

  /** While the connection is open, the wire is inside an exchange exactly when our init is outstanding, and
      the inits and NEWKEYS on it are those of the completed exchanges and the outstanding one. */
  ghost predicate Inv(s: State) {
    && PhaseOf(s.wire) != Violated
    && (!s.closed ==>
          && (s.sentInit.Some? <==> PhaseOf(s.wire) == Exchanging)
          && Count(s.wire, NEWKEYS) == s.completed
          && Count(s.wire, KEXINIT) == s.completed + if s.sentInit.Some? then 1 else 0)
    && s.completed <= Count(s.wire, NEWKEYS) <= Count(s.wire, KEXINIT) <= s.completed + 1
    && (s.completed > 0 ==> s.session.Some?)
    && (s.readerDone ==> s.writeError.Some?)
  }

  lemma SendInitKeeps(s: State, init: Packet, io: bool)
    requires Inv(s) && init[0] == KEXINIT
    ensures Inv(SendInit(s, init, io)) && SendInit(s, init, io).closed == s.closed
  {
    Extend(s.wire, init);
  }

  lemma ResumeKeeps(s: State, i: nat, io: bool)
    requires Inv(s)
    ensures Inv(WriteResume(s, i, io).0)
  {
    if i < |s.waiting| {
      Extend(s.wire, s.waiting[i]);
    }
  }

  /** The body of an exchange on an open connection: its messages, then NEWKEYS. */
  lemma ExchangeWire(wire: seq<Packet>, kex: seq<Packet>, completed: nat)
    requires PhaseOf(wire) == Exchanging && forall i :: 0 <= i < |kex| ==> IsKex(kex[i])
    requires Count(wire, NEWKEYS) == completed && Count(wire, KEXINIT) == completed + 1
    ensures var w := wire + kex;
      PhaseOf(w) == Exchanging && Count(w, NEWKEYS) == completed && Count(w, KEXINIT) == completed + 1
    ensures var w := wire + kex + [[NEWKEYS]];
      PhaseOf(w) == Open && Count(w, NEWKEYS) == completed + 1 && Count(w, KEXINIT) == completed + 1
  {
    ExtendKex(wire, kex);
    Extend(wire + kex, [NEWKEYS]);
  }

  /** An exchange that cannot start. */
  lemma EnterRefused(s: State, x: Exchange)
    requires var s1 := SendInit(s, x.init, x.initIo); s1.closed || s1.sentInit.None?
    ensures Enter(s, x) == (SendInit(s, x.init, x.initIo), false)
  {
  }

  /** What an exchange that starts leaves on the wire. */
  lemma EnterWire(s: State, x: Exchange, s1: State, s2: State, ok: bool)
    requires s1 == SendInit(s, x.init, x.initIo) && !s1.closed && s1.sentInit.Some? && (s2, ok) == Enter(s, x)
    ensures (!ok && (s2.wire == s1.wire || s2.wire == s1.wire + x.kex)) || s2.wire == s1.wire + x.kex + [[NEWKEYS]]
    ensures s2.completed == s1.completed && (ok ==> s2.session.Some?) && (s1.session.Some? ==> s2.session.Some?)
    ensures s2.readerDone == s1.readerDone && s2.writeError == s1.writeError
  {
  }

  lemma ExchangeEnds(s1: State, s2: State, ok: bool, kex: seq<Packet>)
    requires Inv(s1) && !s1.closed && s1.sentInit.Some? && forall i :: 0 <= i < |kex| ==> IsKex(kex[i])
    requires (!ok && (s2.wire == s1.wire || s2.wire == s1.wire + kex)) || s2.wire == s1.wire + kex + [[NEWKEYS]]
    ensures PhaseOf(s2.wire) != Violated && (ok ==> PhaseOf(s2.wire) == Open)
    ensures Count(s2.wire, KEXINIT) == s1.completed + 1
    ensures s1.completed <= Count(s2.wire, NEWKEYS) <= s1.completed + 1
    ensures ok ==> Count(s2.wire, NEWKEYS) == s1.completed + 1
  {
    ExchangeWire(s1.wire, kex, s1.completed);
  }

  lemma SettleRan(s1: State, s2: State, ok: bool, kex: seq<Packet>)
    requires Inv(s1) && !s1.closed && s1.sentInit.Some? && forall i :: 0 <= i < |kex| ==> IsKex(kex[i])
    requires (!ok && (s2.wire == s1.wire || s2.wire == s1.wire + kex)) || s2.wire == s1.wire + kex + [[NEWKEYS]]
    requires s2.completed == s1.completed && (ok ==> s2.session.Some?) && (s1.session.Some? ==> s2.session.Some?)
    requires s2.readerDone == s1.readerDone && s2.writeError == s1.writeError
    ensures Inv(Settle(s2, ok))
  {
    ExchangeEnds(s1, s2, ok, kex);
  }

  lemma RekeyKeeps(s: State, x: Exchange)
    requires Inv(s) && Legal(GotKexInit(x))
    ensures Inv(Rekey(s, x))
  {
    var s1 := SendInit(s, x.init, x.initIo);
    SendInitKeeps(s, x.init, x.initIo);
    if s1.closed || s1.sentInit.None? {
      EnterRefused(s, x);
    } else {
      var (s2, ok) := Enter(s, x);
      EnterWire(s, x, s1, s2, ok);
      SettleRan(s1, s2, ok, x.kex);
    }
  }

  lemma NextKeeps(s: State, step: Step)
    requires Inv(s) && Legal(step)
    ensures Inv(Next(s, step))
  {
    match step
    case AskKex(_, init, io) => SendInitKeeps(s, init, io);
    case Begin(_, init, io) => SendInitKeeps(s, init, io);
    case Resume(i, io) => ResumeKeeps(s, i, io);
    case GotKexInit(x) => RekeyKeeps(s, x);
    case _ =>
  }

  lemma {:induction false} RunKeeps(s: State, steps: seq<Step>)
    requires Inv(s) && AllLegal(steps)
    ensures Inv(Run(s, steps))
    decreases |steps|
  {
    if steps != [] {
      NextKeeps(s, steps[0]);
      RunKeeps(Next(s, steps[0]), steps[1..]);
    }
  }

  /** In every interleaving, between our KEXINIT and our NEWKEYS only key-exchange packets are on the wire,
      and an open connection has sent exactly one KEXINIT and one NEWKEYS for each completed exchange, besides
      the KEXINIT of the exchange under way. */
  lemma RekeyTraceSafe(threshold: nat, steps: seq<Step>)
    requires AllLegal(steps)
    ensures var s := Run(Start(threshold), steps);
      && PhaseOf(s.wire) != Violated
      && (!s.closed ==> Count(s.wire, NEWKEYS) == s.completed)
      && (!s.closed ==> Count(s.wire, KEXINIT) == s.completed + if PhaseOf(s.wire) == Exchanging then 1 else 0)
  {
    RunKeeps(Start(threshold), steps);
  }

  /** The same, in terms of positions: what lies between a KEXINIT and the next NEWKEYS. */
  lemma {:induction false} OnlyKexBetween(wire: seq<Packet>, i: nat, j: nat)
    requires PhaseOf(wire) != Violated && i < j < |wire|
    requires wire[i][0] == KEXINIT && forall k :: i < k < j ==> wire[k][0] != NEWKEYS
    ensures IsKex(wire[j]) || wire[j][0] == NEWKEYS
    ensures IsKex(wire[j]) ==> PhaseOf(wire[..j + 1]) == Exchanging
    decreases j
  {
    PrefixNotViolated(wire, j + 1);
    assert wire[..j + 1][..j] == wire[..j];
    if j == i + 1 {
      PrefixNotViolated(wire, j);
      assert wire[..j][..i] == wire[..i];
    } else {
      OnlyKexBetween(wire, i, j - 1);
    }
  }

  lemma {:induction false} PrefixNotViolated(wire: seq<Packet>, n: nat)
    requires PhaseOf(wire) != Violated && n <= |wire|
    ensures PhaseOf(wire[..n]) != Violated
    decreases |wire|
  {
    if n < |wire| {
      PrefixNotViolated(wire[..|wire| - 1], n);
      assert wire[..|wire| - 1][..n] == wire[..n];
    } else {
      assert wire[..n] == wire;
    }
  }

  // Nothing is sent after a failure; the session id never changes

  lemma {:induction false} ClosedIsSilent(s: State, steps: seq<Step>)
    requires s.closed
    ensures Run(s, steps).closed && Run(s, steps).wire == s.wire
    decreases |steps|
  {
    if steps != [] {
      ClosedIsSilent(Next(s, steps[0]), steps[1..]);
    }
  }

  /** After a failed exchange nothing more is ever sent, and every writer that resumes gets the error. */
  lemma SilentAfterFailure(s: State, x: Exchange, steps: seq<Step>)
    requires !Enter(s, x).1
    ensures var f := Rekey(s, x);
      && Run(f, steps).wire == f.wire
      && Run(f, steps).writeError == Some(ExchangeFailed)
      && forall i :: 0 <= i < |Run(f, steps).waiting| ==> WriteResume(Run(f, steps), i, true).1 == Some(ExchangeFailed)
  {
    ClosedIsSilent(Rekey(s, x), steps);
    ErrorStays(Rekey(s, x), steps);
  }

  lemma {:induction false} ErrorStays(s: State, steps: seq<Step>)
    requires s.writeError.Some? && s.readerDone
    ensures Run(s, steps).writeError == s.writeError
    decreases |steps|
  {
    if steps != [] {
      ErrorStays(Next(s, steps[0]), steps[1..]);
    }
  }

  lemma {:induction false} SessionFixed(s: State, steps: seq<Step>)
    requires s.session.Some?
    ensures Run(s, steps).session == s.session
    decreases |steps|
  {
    if steps != [] {
      SessionFixed(Next(s, steps[0]), steps[1..]);
    }
  }

  /** A writer waits only while an exchange is outstanding and the reader that ends it is alive; an exchange,
      successful or not, leaves no writer waiting for it. */
  lemma NoWriterStranded(threshold: nat, steps: seq<Step>, x: Exchange)
    requires AllLegal(steps)
    ensures var s := Run(Start(threshold), steps);
      (Blocked(s) ==> !s.readerDone && s.sentInit.Some?) && !Blocked(Rekey(s, x))
  {
    RunKeeps(Start(threshold), steps);
  }

  /** The transport object; `io` and the exchange say what the connection does inside each call. */
  class HandshakeTransport {
    const threshold: nat
    var sentInit: Option<Packet>
    var written: nat
    var writeError: Option<Error>
    var session: Option<seq<byte>>
    var closed: bool
    var readerDone: bool
    var waiting: seq<Packet>
    var wire: seq<Packet>
    ghost var completed: nat

    ghost function View(): State
      reads this
    {
      State(threshold, sentInit, written, writeError, session, closed, readerDone, waiting, wire, completed)
    }

    constructor (threshold: nat)
      ensures View() == Start(threshold)
    {
      this.threshold := threshold;
      sentInit, written, writeError, session := None, 0, None, None;
      closed, readerDone, waiting, wire, completed := false, false, [], [], 0;
    }

    method ConnWritePacket(p: Packet, io: bool) returns (ok: bool)
      modifies this`wire
      ensures ok == Sends(old(View()), io) && View() == ConnWrite(old(View()), p, io)
    {
      ok := io && !closed;
      if ok {
        wire := wire + [p];
      }
    }

    method SendKexInitLocked(init: Packet, io: bool) returns (ok: bool)
      modifies this`wire, this`sentInit
      ensures View() == SendInit(old(View()), init, io) && ok == sentInit.Some?
    {
      if sentInit.Some? {
        return true;
      }
      ok := ConnWritePacket(init, io);
      if ok {
        sentInit := Some(init);
      }
    }

    method SendKexInit(first: bool, init: Packet, io: bool)
      modifies this`wire, this`sentInit
      ensures View() == RequestKex(old(View()), first, init, io)
    {
      if first && session.Some? {
        return;
      }
      var _ := SendKexInitLocked(init, io);
    }

    method WritePacketEnter(p: Packet, init: Packet, io: bool)
      modifies this`wire, this`sentInit, this`waiting
      ensures View() == WriteBegin(old(View()), p, init, io)
    {
      if written > threshold {
        var _ := SendKexInitLocked(init, io);
      }
      waiting := waiting + [p];
    }

    method WritePacketLeave(i: nat, io: bool) returns (err: Option<Error>)
      requires i < |waiting| && !Blocked(View())
      modifies this`wire, this`waiting, this`written
      ensures (View(), err) == WriteResume(old(View()), i, io)
    {
      var p := waiting[i];
      waiting := Drop(waiting, i);
      if writeError.Some? {
        return writeError;
      }
      written := Plus64(written, |p|);
      if p[0] == KEXINIT || p[0] == NEWKEYS {
        return Some(OnlyTransportSends);
      }
      var ok := ConnWritePacket(p, io);
      return if ok then None else Some(WriteFailed);
    }

    method EnterKeyExchangeLocked(x: Exchange) returns (ok: bool)
      modifies this`wire, this`sentInit, this`session
      ensures (View(), ok) == Enter(old(View()), x)
    {
      ok := SendKexInitLocked(x.init, x.initIo);
      if !ok || !x.agreed || closed {
        return false;
      }
      wire := wire + x.kex;
      if x.hash.None? {
        return false;
      }
      if session.None? {
        session := x.hash;
      }
      ok := ConnWritePacket([NEWKEYS], x.keysIo);
      ok := ok && x.peerKeys;
    }

    /** readOnePacket on a KEXINIT. */
    method ReadKexInit(x: Exchange) returns (ok: bool)
      modifies this
      ensures View() == Rekey(old(View()), x) && ok == Enter(old(View()), x).1
    {
      ok := EnterKeyExchangeLocked(x);
      if !ok {
        closed, writeError, readerDone := true, Some(ExchangeFailed), true;
      } else {
        completed := completed + 1;
      }
      sentInit, written := None, 0;
    }
  }
}
