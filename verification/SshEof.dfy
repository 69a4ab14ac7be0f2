/** End of file on an SSH channel: when does Read's end of file mean that the whole stream has been returned? */
module SshEof {
  import opened Bytes
  import opened SshFlow
  import opened SshConserve

  /** What the current writes of stream c have still to put on the wire. */
  function Unsent(s: Sender, c: nat): seq<byte> { ChunkStream(s.granted, c) + Get(s.remaining, c) }

  /** If Read is at the end of file of a stream, it has returned every byte offered on it. */
  ghost predicate Complete(y: System, fromA: bool, ext: bool) {
    var s, r := Sending(y, fromA), Receiving(y, fromA);
    r.rx.eof && Buffered(r.rx, ext) == [] ==> Returned(r.rx, ext) == Get(s.tx.offered, Code(ext))
  }

  /** And so it stays, whatever happens. */
  ghost predicate AlwaysComplete(y: System, fromA: bool, ext: bool) {
    forall after: seq<Step> :: Run(y, after).Running? ==> Complete(Run(y, after).sys, fromA, ext)
  }

  // If nothing of the stream is unsent, the guarantee holds

  /** No byte of stream c follows an end of file, on the wire or at the receiver. */
  ghost predicate StreamEnds(eof: bool, sr: seq<Packet>, c: nat) {
    && (forall i, j :: 0 <= i < j < |sr| && (sr[i].Eof? || sr[i].Close?) ==> PacketStream(sr[j], c) == [])
    && (eof ==> forall i :: 0 <= i < |sr| ==> PacketStream(sr[i], c) == [])
  }

  lemma StaysEnded(eof: bool, sr: seq<Packet>, out: seq<Packet>, c: nat)
    requires StreamEnds(eof, sr, c) && |out| <= 1 && OutStream(out, c) == []
    ensures StreamEnds(eof, sr + out, c)
  {
  }

  /** The sender has finished with a stream: all of it has been sent, and none of it follows the end of file. */
  ghost predicate Drained(s: Endpoint, r: Endpoint, sr: seq<Packet>, ext: bool) {
    && s.decided && s.tx.sentEof && Unsent(s.tx, Code(ext)) == []
    && Sent(r.rx, sr, ext) == Get(s.tx.offered, Code(ext))
    && StreamEnds(r.rx.eof, sr, Code(ext))
  }

  lemma CloseWriteDrains(s: Endpoint, r: Endpoint, sr: seq<Packet>, rs: seq<Packet>, ext: bool)
    requires Direction(s, r, sr, rs) && s.decided && !s.sentClose && !s.tx.sentEof && Unsent(s.tx, Code(ext)) == []
    ensures var (s2, out) := Act(s, CloseWrite); Drained(s2, r, sr + out, ext)
  {
    var (s2, out) := Act(s, CloseWrite);
    PostedSent(r.rx, sr, out, ext);
    assert StreamEnds(false, sr, Code(ext));
    StaysEnded(false, sr, out, Code(ext));
  }

  lemma ReserveStaysSent(s: Endpoint, d: nat, c: nat)
    requires Unsent(s.tx, c) == []
    ensures var t := DoReserve(s, d).tx; Unsent(t, c) == [] && t.sentEof == s.tx.sentEof && t.offered == s.tx.offered
  {
    var data := Get(s.tx.remaining, d);
    var k := PacketSize(s.tx, data);
    if k <= |data| {
      ChunkAppend(s.tx.granted, Chunk(d, data[..k]), c);
    }
  }

  lemma TransmitStaysSent(s: Endpoint, i: nat, c: nat)
    requires Unsent(s.tx, c) == [] && Distinct(s.tx.granted)
    ensures var (s2, out) := DoTransmit(s, i);
      && Unsent(s2.tx, c) == [] && s2.tx.sentEof == s.tx.sentEof && s2.tx.offered == s.tx.offered
      && |out| <= 1 && OutStream(out, c) == []
  {
    if i < |s.tx.granted| {
      ChunkWithout(s.tx.granted, i, c);
    }
  }

  /** No action of the sender gives a finished stream anything to send. */
  lemma StaysSent(s: Endpoint, a: Action, c: nat)
    requires s.decided && s.tx.sentEof && Unsent(s.tx, c) == [] && Distinct(s.tx.granted)
    ensures var (s2, out) := Act(s, a);
      && s2.decided && s2.tx.sentEof && Unsent(s2.tx, c) == [] && s2.tx.offered == s.tx.offered
      && |out| <= 1 && OutStream(out, c) == []
  {
    match a
    case Reserve(d) => ReserveStaysSent(s, d, c);
    case Transmit(i) => TransmitStaysSent(s, i, c);
    case _ => assert Act(s, a).0.tx == s.tx;
  }

  lemma DrainedSenderActs(s: Endpoint, r: Endpoint, sr: seq<Packet>, a: Action, ext: bool)
    requires Drained(s, r, sr, ext) && Distinct(s.tx.granted)
    ensures var (s2, out) := Act(s, a); Drained(s2, r, sr + out, ext)
  {
    var (s2, out) := Act(s, a);
    StaysSent(s, a, Code(ext));
    StaysEnded(r.rx.eof, sr, out, Code(ext));
    PostedSent(r.rx, sr, out, ext);
  }

  lemma ActKeepsEof(r: Endpoint, a: Action)
    ensures Act(r, a).0.rx.eof == r.rx.eof
  {
  }

  lemma DrainedReceiverActs(s: Endpoint, r: Endpoint, sr: seq<Packet>, a: Action, ext: bool)
    requires Drained(s, r, sr, ext)
    ensures Drained(s, Act(r, a).0, sr, ext)
  {
    ActReceived(r, sr, a, ext);
    ActKeepsEof(r, a);
  }

  lemma DrainedReceiverHandles(s: Endpoint, r: Endpoint, sr: seq<Packet>, ext: bool)
    requires Drained(s, r, sr, ext) && sr != [] && Handle(r, sr[0]).Handled?
    ensures Drained(s, Handle(r, sr[0]).e, sr[1..], ext)
  {
    HandleReceived(r, sr, ext);
    EndsStay(r, sr, Code(ext));
  }

  lemma EndsStay(r: Endpoint, sr: seq<Packet>, c: nat)
    requires StreamEnds(r.rx.eof, sr, c) && sr != [] && Handle(r, sr[0]).Handled?
    ensures StreamEnds(Handle(r, sr[0]).e.rx.eof, sr[1..], c)
  {
    assert forall i :: 0 <= i < |sr[1..]| ==> sr[1..][i] == sr[i + 1];
  }

  lemma DrainedSenderHandles(s: Endpoint, r: Endpoint, sr: seq<Packet>, p: Packet, ext: bool)
    requires Drained(s, r, sr, ext) && Handle(s, p).Handled?
    ensures var h := Handle(s, p); Drained(h.e, r, sr + h.out, ext)
  {
    var h := Handle(s, p);
    assert h.out == [] || h.out == [Close];
    StaysEnded(r.rx.eof, sr, h.out, Code(ext));
    PostedSent(r.rx, sr, h.out, ext);
  }

  ghost predicate DrainedFrom(y: System, fromA: bool, ext: bool) {
    Drained(Sending(y, fromA), Receiving(y, fromA), Wire(y, fromA), ext)
  }

  /** The actions and deliveries at the sending end, and those at the receiving end. */
  lemma SenderStep(y: System, step: Step, fromA: bool, ext: bool)
    requires Inv(y) && DrainedFrom(y, fromA, ext) && StepSystem(y, step).Running?
    requires if fromA then step.ActA? || step.DeliverToA? else step.ActB? || step.DeliverToB?
    ensures DrainedFrom(StepSystem(y, step).sys, fromA, ext)
  {
    var s, r, sr, rs := Sending(y, fromA), Receiving(y, fromA), Wire(y, fromA), Wire(y, !fromA);
    if step.ActA? || step.ActB? {
      DrainedSenderActs(s, r, sr, step.act, ext);
    } else if rs != [] {
      DrainedSenderHandles(s, r, sr, rs[0], ext);
    }
  }

  lemma ReceiverStep(y: System, step: Step, fromA: bool, ext: bool)
    requires DrainedFrom(y, fromA, ext) && StepSystem(y, step).Running?
    requires if fromA then step.ActB? || step.DeliverToB? else step.ActA? || step.DeliverToA?
    ensures DrainedFrom(StepSystem(y, step).sys, fromA, ext)
  {
    var s, r, sr := Sending(y, fromA), Receiving(y, fromA), Wire(y, fromA);
    if step.ActA? || step.ActB? {
      DrainedReceiverActs(s, r, sr, step.act, ext);
    } else if sr != [] {
      DrainedReceiverHandles(s, r, sr, ext);
    }
  }

  /** The first step of a run from a drained state. */
  lemma FirstKeepsDrained(y: System, steps: seq<Step>, fromA: bool, ext: bool) returns (z: System)
    requires Inv(y) && DrainedFrom(y, fromA, ext) && steps != []
    ensures Inv(z) && DrainedFrom(z, fromA, ext) && Run(y, steps) == Run(z, steps[1..])
  {
    z := FirstStep(y, steps);
    if (if fromA then steps[0].ActA? || steps[0].DeliverToA? else steps[0].ActB? || steps[0].DeliverToB?) {
      SenderStep(y, steps[0], fromA, ext);
    } else {
      ReceiverStep(y, steps[0], fromA, ext);
    }
  }

  lemma {:induction false} RunKeepsDrained(y: System, steps: seq<Step>, fromA: bool, ext: bool)
    requires Inv(y) && DrainedFrom(y, fromA, ext)
    ensures var o := Run(y, steps); o.Running? && DrainedFrom(o.sys, fromA, ext)
    decreases |steps|
  {
    if steps != [] {
      var z := FirstKeepsDrained(y, steps, fromA, ext);
      RunKeepsDrained(z, steps[1..], fromA, ext);
    }
  }

  lemma NothingOnWire(w: seq<Packet>, c: nat)
    requires forall i :: 0 <= i < |w| ==> PacketStream(w[i], c) == []
    ensures WireStream(w, c) == []
  {
  }

  lemma DrainedComplete(y: System, fromA: bool, ext: bool)
    requires DrainedFrom(y, fromA, ext)
    ensures Complete(y, fromA, ext)
  {
    var r, sr := Receiving(y, fromA), Wire(y, fromA);
    if r.rx.eof && Buffered(r.rx, ext) == [] {
      NothingOnWire(sr, Code(ext));
      assert Sent(r.rx, sr, ext) == Returned(r.rx, ext);
    }
  }

  // If something is unsent, deliver what is on the wire and read it: the rest is missing at the end of file

  function Deliver(fromA: bool): Step { if fromA then DeliverToB else DeliverToA }

  function ReadAll(fromA: bool, ext: bool, size: nat): Step {
    if fromA then ActB(Read(ext, size)) else ActA(Read(ext, size))
  }

  /** n deliveries to the receiver, then one read of up to `size` bytes. */
  function Script(fromA: bool, n: nat, ext: bool, size: nat): seq<Step> {
    if n == 0 then [ReadAll(fromA, ext, size)] else [Deliver(fromA)] + Script(fromA, n - 1, ext, size)
  }

  /** The receiver has seen the end of file or will find it on the wire. */
  ghost predicate EofComing(r: Endpoint, sr: seq<Packet>) {
    r.rx.eof || exists i :: 0 <= i < |sr| && sr[i].Eof?
  }

  lemma EofComes(r: Endpoint, sr: seq<Packet>)
    requires EofComing(r, sr) && sr != [] && Handle(r, sr[0]).Handled?
    ensures EofComing(Handle(r, sr[0]).e, sr[1..])
  {
    var r2 := Handle(r, sr[0]).e;
    if !r2.rx.eof {
      var i :| 0 <= i < |sr| && sr[i].Eof?;
      assert i > 0 && sr[1..][i - 1] == sr[i];
    }
  }

  /** A state from which the script ends: n packets to deliver, the end of file among them. */
  ghost predicate Ready(y: System, fromA: bool, n: nat, ext: bool, size: nat) {
    var s := Sending(y, fromA);
    && |Wire(y, fromA)| == n && EofComing(Receiving(y, fromA), Wire(y, fromA))
    && s.decided && !s.sentClose && size == |Get(s.tx.offered, Code(ext))|
  }

  lemma DeliverOne(y: System, fromA: bool, n: nat, ext: bool, size: nat)
    requires Ready(y, fromA, n, ext, size) && n > 0 && StepSystem(y, Deliver(fromA)).Running?
    ensures var z := StepSystem(y, Deliver(fromA)).sys;
      Sending(z, fromA) == Sending(y, fromA) && Ready(z, fromA, n - 1, ext, size)
  {
    EofComes(Receiving(y, fromA), Wire(y, fromA));
  }

  lemma ReadsAll(r: Endpoint, ext: bool, size: nat)
    requires r.decided && size >= |Buffered(r.rx, ext)|
    ensures var r2 := Act(r, Read(ext, size)).0;
      && Act(r, Read(ext, size)).1 == [] && r2.rx.eof == r.rx.eof && Buffered(r2.rx, ext) == []
      && Returned(r2.rx, ext) == Sent(r.rx, [], ext)
  {
    var buf := Buffered(r.rx, ext);
    assert buf[..|buf|] == buf;
    assert Sent(r.rx, [], ext) == Returned(r.rx, ext) + buf;
  }

  /** With the wire empty the receiver has decided, so it can read its buffer empty. */
  lemma ReceiverDecided(y: System, fromA: bool)
    requires Opening(y) && Wire(y, fromA) == [] && Sending(y, fromA).decided
    ensures Receiving(y, fromA).decided
  {
  }

  lemma ReadEmpties(y: System, fromA: bool, ext: bool, size: nat)
    requires Receiving(y, fromA).decided && size >= |Buffered(Receiving(y, fromA).rx, ext)|
    ensures var o := StepSystem(y, ReadAll(fromA, ext, size));
      && o.Running? && Sending(o.sys, fromA) == Sending(y, fromA)
      && Receiving(o.sys, fromA).rx.eof == Receiving(y, fromA).rx.eof
      && Buffered(Receiving(o.sys, fromA).rx, ext) == []
      && Returned(Receiving(o.sys, fromA).rx, ext) == Sent(Receiving(y, fromA).rx, [], ext)
  {
    ReadsAll(Receiving(y, fromA), ext, size);
  }

  /** The bytes sent and those unsent are the bytes offered. */
  lemma SentAndUnsent(y: System, fromA: bool, ext: bool)
    requires Inv(y) && !Sending(y, fromA).sentClose && Wire(y, fromA) == []
    ensures var s, r := Sending(y, fromA), Receiving(y, fromA);
      && Sent(r.rx, [], ext) + Unsent(s.tx, Code(ext)) == Get(s.tx.offered, Code(ext))
      && |Buffered(r.rx, ext)| <= |Get(s.tx.offered, Code(ext))|
  {
    var s, r := Sending(y, fromA), Receiving(y, fromA);
    assert StreamOk(s, Sent(r.rx, [], ext), Code(ext));
  }

  /** The receiver is at the end of file, and what the sender s has not sent is missing. */
  ghost predicate EndsShort(z: System, s: Endpoint, fromA: bool, ext: bool) {
    var r := Receiving(z, fromA);
    && Sending(z, fromA) == s && r.rx.eof && Buffered(r.rx, ext) == []
    && Returned(r.rx, ext) + Unsent(s.tx, Code(ext)) == Get(s.tx.offered, Code(ext))
  }

  lemma LastRead(y: System, fromA: bool, ext: bool, size: nat)
    requires Inv(y) && Ready(y, fromA, 0, ext, size)
    ensures var o := Run(y, [ReadAll(fromA, ext, size)]); o.Running? && EndsShort(o.sys, Sending(y, fromA), fromA, ext)
  {
    SentAndUnsent(y, fromA, ext);
    ReceiverDecided(y, fromA);
    ReadEmpties(y, fromA, ext, size);
    RunOne(y, ReadAll(fromA, ext, size));
  }

  lemma RunOne(y: System, step: Step)
    ensures Run(y, [step]) == StepSystem(y, step)
  {
    assert [step][1..] == [];
  }

  lemma {:induction false} ScriptEnds(y: System, fromA: bool, n: nat, ext: bool, size: nat)
    requires Inv(y) && Ready(y, fromA, n, ext, size)
    ensures var o := Run(y, Script(fromA, n, ext, size)); o.Running? && EndsShort(o.sys, Sending(y, fromA), fromA, ext)
    decreases n
  {
    if n == 0 {
      LastRead(y, fromA, ext, size);
    } else {
      StepOk(y, Deliver(fromA));
      DeliverOne(y, fromA, n, ext, size);
      RunCons(y, Deliver(fromA), Script(fromA, n - 1, ext, size));
      ScriptEnds(StepSystem(y, Deliver(fromA)).sys, fromA, n - 1, ext, size);
    }
  }

  // The exact condition

  function CloseIt(fromA: bool): Step { if fromA then ActA(CloseWrite) else ActB(CloseWrite) }

  /** When one side closes the writing half of an open channel, the other side's end of file on a stream means,
      in every continuation, that every byte ever offered on that stream has been returned, if and only if no
      write on that stream was in progress with bytes still to send. */
  lemma EofExact(before: seq<Step>, y: System, fromA: bool, ext: bool)
    requires Run(Start(), before) == Running(y)
    requires var s := Sending(y, fromA); s.decided && !s.sentClose && !s.tx.sentEof
    ensures StepSystem(y, CloseIt(fromA)).Running?
    ensures AlwaysComplete(StepSystem(y, CloseIt(fromA)).sys, fromA, ext) <==>
            Unsent(Sending(y, fromA).tx, Code(ext)) == []
  {
    StartOk();
    EveryRunOk(Start(), before);
    StepOk(y, CloseIt(fromA));
    if Unsent(Sending(y, fromA).tx, Code(ext)) == [] {
      EofHolds(y, fromA, ext);
    } else {
      EofFails(y, fromA, ext);
    }
  }

  lemma EofHolds(y: System, fromA: bool, ext: bool)
    requires Inv(y) && Unsent(Sending(y, fromA).tx, Code(ext)) == []
    requires var s := Sending(y, fromA); s.decided && !s.sentClose && !s.tx.sentEof
    ensures AlwaysComplete(StepSystem(y, CloseIt(fromA)).sys, fromA, ext)
  {
    StepOk(y, CloseIt(fromA));
    if fromA { CloseWriteDrains(y.a, y.b, y.ab, y.ba, ext); } else { CloseWriteDrains(y.b, y.a, y.ba, y.ab, ext); }
    var y1 := StepSystem(y, CloseIt(fromA)).sys;
    forall after: seq<Step>
      ensures Run(y1, after).Running? ==> Complete(Run(y1, after).sys, fromA, ext)
    {
      RunKeepsDrained(y1, after, fromA, ext);
      DrainedComplete(Run(y1, after).sys, fromA, ext);
    }
  }

  /** Closing puts the end of file on the wire and changes nothing else. */
  lemma CloseSends(y: System, fromA: bool, ext: bool)
    requires var s := Sending(y, fromA); s.decided && !s.sentClose
    ensures var o := StepSystem(y, CloseIt(fromA));
      && o.Running? && Wire(o.sys, fromA) == Wire(y, fromA) + [Eof]
      && Unsent(Sending(o.sys, fromA).tx, Code(ext)) == Unsent(Sending(y, fromA).tx, Code(ext))
      && Ready(o.sys, fromA, |Wire(y, fromA)| + 1, ext, |Get(Sending(y, fromA).tx.offered, Code(ext))|)
  {
    var w := Wire(StepSystem(y, CloseIt(fromA)).sys, fromA);
    assert w[|w| - 1].Eof?;
  }

  lemma EofFails(y: System, fromA: bool, ext: bool)
    requires Inv(y) && Unsent(Sending(y, fromA).tx, Code(ext)) != []
    requires var s := Sending(y, fromA); s.decided && !s.sentClose
    ensures !AlwaysComplete(StepSystem(y, CloseIt(fromA)).sys, fromA, ext)
  {
    StepOk(y, CloseIt(fromA));
    CloseSends(y, fromA, ext);
    var y1, n, size := StepSystem(y, CloseIt(fromA)).sys, |Wire(y, fromA)| + 1,
        |Get(Sending(y, fromA).tx.offered, Code(ext))|;
    ScriptEnds(y1, fromA, n, ext, size);
    ShortIsIncomplete(Run(y1, Script(fromA, n, ext, size)).sys, Sending(y1, fromA), fromA, ext);
  }

  lemma ShortIsIncomplete(z: System, s: Endpoint, fromA: bool, ext: bool)
    requires EndsShort(z, s, fromA, ext) && Unsent(s.tx, Code(ext)) != []
    ensures !Complete(z, fromA, ext)
  {
  }

  lemma OfferThenClose(y: System)
    requires y.a.decided && !y.a.sentClose && !y.a.tx.sentEof && y.a.tx.offered == map[] && y.ab == []
    requires y.a.tx.remaining == map[] && y.a.tx.granted == []
    ensures var o := StepSystem(y, ActA(Offer(0, [7])));
      && o.Running?
      && var p := StepSystem(o.sys, ActA(CloseWrite));
      p.Running? && p.sys.ab == [Eof] && p.sys.b == y.b && Get(p.sys.a.tx.offered, 0) == [7]
  {
  }

  /** A run that breaks the guarantee: a byte is offered, the writing half closed before it is reserved, and
      the end of file delivered. */
  lemma EofTooEarly()
    ensures var o := Run(Start(), [ActB(Accept), DeliverToA, ActA(Offer(0, [7])), ActA(CloseWrite), DeliverToB]);
      && o.Running? && !Complete(o.sys, true, false)
      && o.sys.b.rx.eof && Returned(o.sys.b.rx, false) == [] && Get(o.sys.a.tx.offered, 0) == [7]
  {
    var rest := [ActA(Offer(0, [7])), ActA(CloseWrite), DeliverToB];
    OpenedFirst(rest);
    assert [ActB(Accept)] + ([DeliverToA] + rest)
        == [ActB(Accept), DeliverToA, ActA(Offer(0, [7])), ActA(CloseWrite), DeliverToB];
    OfferThenClose(Opened());
    var y1 := StepSystem(Opened(), ActA(Offer(0, [7]))).sys;
    var y2 := StepSystem(y1, ActA(CloseWrite)).sys;
    assert rest == [ActA(Offer(0, [7]))] + ([ActA(CloseWrite)] + [DeliverToB]);
    RunCons(Opened(), ActA(Offer(0, [7])), [ActA(CloseWrite)] + [DeliverToB]);
    RunCons(y1, ActA(CloseWrite), [DeliverToB]);
    RunOne(y2, DeliverToB);
  }
}
