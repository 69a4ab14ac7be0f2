/** Extended streams other than stderr: the receiver throws their bytes away and never gives the window back. */
module SshDiscard {
  import opened Bytes
  import opened SshFlow
  import opened SshConserve

  /** The bytes on codes 2 to n - 1 in a table of streams. */
  function Above(m: map<nat, seq<byte>>, n: nat): nat {
    if n <= 2 then 0 else Above(m, n - 1) + |Get(m, n - 1)|
  }

  function ChunkAbove(g: seq<Chunk>): nat {
    if g == [] then 0 else (if g[0].code > 1 then |g[0].bytes| else 0) + ChunkAbove(g[1..])
  }

  function PacketAbove(p: Packet): nat {
    if p.Data? && p.code > 1 then |p.bytes| else 0
  }

  function WireAbove(w: seq<Packet>): nat {
    if w == [] then 0 else PacketAbove(w[0]) + WireAbove(w[1..])
  }

  predicate Below(m: map<nat, seq<byte>>, n: nat) { forall c :: c in m ==> c < n }

  lemma {:induction false} AboveUpdate(m: map<nat, seq<byte>>, c: nat, v: seq<byte>, n: nat)
    ensures Above(m[c := v], n) == Above(m, n) + if 1 < c < n then |v| - |Get(m, c)| else 0
  {
    if n > 2 {
      AboveUpdate(m, c, v, n - 1);
    }
  }

  lemma {:induction false} ChunkAboveAppend(g: seq<Chunk>, ch: Chunk)
    ensures ChunkAbove(g + [ch]) == ChunkAbove(g) + if ch.code > 1 then |ch.bytes| else 0
  {
    if g == [] {
      assert [ch][1..] == [];
    } else {
      ChunkAboveAppend(g[1..], ch);
      assert (g + [ch])[1..] == g[1..] + [ch];
    }
  }

  lemma {:induction false} ChunkAboveWithout(g: seq<Chunk>, i: nat)
    requires i < |g|
    ensures ChunkAbove(Without(g, i)) == ChunkAbove(g) - if g[i].code > 1 then |g[i].bytes| else 0
  {
    if i == 0 {
      assert Without(g, 0) == g[1..];
    } else {
      ChunkAboveWithout(g[1..], i - 1);
      assert Without(g, i)[1..] == Without(g[1..], i - 1);
    }
  }

  lemma {:induction false} WireAboveAppend(w: seq<Packet>, out: seq<Packet>)
    requires |out| <= 1
    ensures WireAbove(w + out) == WireAbove(w) + if out == [] then 0 else PacketAbove(out[0])
  {
    if w == [] {
      assert w + out == out;
    } else {
      WireAboveAppend(w[1..], out);
      assert (w + out)[1..] == w[1..] + out;
    }
  }

  /** The bytes offered on codes above 1 that the sender still holds. */
  function Held(s: Sender, n: nat): nat { ChunkAbove(s.granted) + Above(s.remaining, n) }

  /** Every byte offered on a code from 2 to n - 1 is with the sender, on the wire or discarded. */
  ghost predicate Accounted(s: Endpoint, r: Endpoint, sr: seq<Packet>, n: nat) {
    !s.sentClose ==>
      && s.tx.remaining.Keys <= s.tx.offered.Keys
      && (Below(s.tx.offered, n) ==> r.rx.discarded + WireAbove(sr) + Held(s.tx, n) == Above(s.tx.offered, n))
  }

  // What the actions and deliveries of the two ends do to the account

  lemma OfferHeld(s: Endpoint, c: nat, data: seq<byte>, n: nat)
    requires Below(Act(s, Offer(c, data)).0.tx.offered, n) && s.tx.remaining.Keys <= s.tx.offered.Keys
    ensures var t := Act(s, Offer(c, data)).0.tx;
      && Below(s.tx.offered, n) && t.remaining.Keys <= t.offered.Keys
      && Held(t, n) - Above(t.offered, n) == Held(s.tx, n) - Above(s.tx.offered, n)
  {
    var t := Act(s, Offer(c, data)).0.tx;
    AboveUpdate(s.tx.offered, c, Get(s.tx.offered, c) + data, n);
    AboveUpdate(s.tx.remaining, c, data, n);
    assert forall d :: d in s.tx.offered ==> d in t.offered;
  }

  lemma ReserveHeld(s: Endpoint, c: nat, n: nat)
    requires Below(s.tx.offered, n) && s.tx.remaining.Keys <= s.tx.offered.Keys && (s.tx.winClosed ==> s.sentClose)
    ensures var t := DoReserve(s, c).tx;
      && t.offered == s.tx.offered && t.remaining.Keys <= t.offered.Keys
      && (!s.sentClose ==> Held(t, n) == Held(s.tx, n))
  {
    var data := Get(s.tx.remaining, c);
    var k := PacketSize(s.tx, data);
    if data != [] && k <= |data| {
      AboveUpdate(s.tx.remaining, c, data[k..], n);
      ChunkAboveAppend(s.tx.granted, Chunk(c, data[..k]));
    }
  }

  lemma TransmitHeld(s: Endpoint, i: nat, n: nat)
    requires s.tx.remaining.Keys <= s.tx.offered.Keys && !s.sentClose
    ensures var (s2, out) := DoTransmit(s, i);
      && s2.tx.offered == s.tx.offered && s2.tx.remaining == s.tx.remaining && |out| <= 1
      && Held(s2.tx, n) + (if out == [] then 0 else PacketAbove(out[0])) == Held(s.tx, n)
  {
    if i < |s.tx.granted| {
      ChunkAboveWithout(s.tx.granted, i);
    }
  }

  lemma ReserveKeys(s: Endpoint, c: nat)
    requires s.tx.remaining.Keys <= s.tx.offered.Keys
    ensures var t := DoReserve(s, c).tx; t.remaining.Keys <= t.offered.Keys && t.offered == s.tx.offered
  {
  }

  lemma OfferAccounted(s: Endpoint, r: Endpoint, sr: seq<Packet>, c: nat, data: seq<byte>, n: nat)
    requires Accounted(s, r, sr, n)
    ensures Accounted(Act(s, Offer(c, data)).0, r, sr, n)
  {
    var s2 := Act(s, Offer(c, data)).0;
    if !s2.sentClose && Below(s2.tx.offered, n) {
      OfferHeld(s, c, data, n);
    }
  }

  lemma ReserveAccounted(s: Endpoint, r: Endpoint, sr: seq<Packet>, c: nat, n: nat)
    requires Accounted(s, r, sr, n) && (s.tx.winClosed ==> s.sentClose)
    ensures Accounted(DoReserve(s, c), r, sr, n)
  {
    if !s.sentClose {
      ReserveKeys(s, c);
      if Below(s.tx.offered, n) {
        ReserveHeld(s, c, n);
      }
    }
  }

  lemma TransmitAccounted(s: Endpoint, r: Endpoint, sr: seq<Packet>, i: nat, n: nat)
    requires Accounted(s, r, sr, n)
    ensures var (s2, out) := DoTransmit(s, i); Accounted(s2, r, sr + out, n)
  {
    if !s.sentClose {
      TransmitHeld(s, i, n);
      WireAboveAppend(sr, DoTransmit(s, i).1);
    }
  }

  /** The other actions put nothing on the wire that counts. */
  lemma OtherAccounted(s: Endpoint, r: Endpoint, sr: seq<Packet>, a: Action, n: nat)
    requires Accounted(s, r, sr, n) && !a.Offer? && !a.Reserve? && !a.Transmit?
    ensures var (s2, out) := Act(s, a); Accounted(s2, r, sr + out, n)
  {
    var (s2, out) := Act(s, a);
    if !s2.sentClose {
      assert s2.tx == s.tx.(sentEof := s2.tx.sentEof) && |out| <= 1;
      WireAboveAppend(sr, out);
    }
  }

  lemma ActAccounted(s: Endpoint, r: Endpoint, sr: seq<Packet>, a: Action, n: nat)
    requires Accounted(s, r, sr, n) && (s.tx.winClosed ==> s.sentClose)
    ensures var (s2, out) := Act(s, a); Accounted(s2, r, sr + out, n)
  {
    assert sr + [] == sr;
    match a
    case Offer(c, data) => OfferAccounted(s, r, sr, c, data, n);
    case Reserve(c) => ReserveAccounted(s, r, sr, c, n);
    case Transmit(i) => TransmitAccounted(s, r, sr, i, n);
    case _ => OtherAccounted(s, r, sr, a, n);
  }

  /** The receiving end neither discards nor restores anything but on a delivery. */
  lemma ReceiverActs(r: Endpoint, a: Action)
    ensures Act(r, a).0.rx.discarded == r.rx.discarded
  {
  }

  lemma SenderHandles(s: Endpoint, r: Endpoint, sr: seq<Packet>, p: Packet, n: nat)
    requires Accounted(s, r, sr, n) && Handle(s, p).Handled?
    ensures var h := Handle(s, p); Accounted(h.e, r, sr + h.out, n)
  {
    var h := Handle(s, p);
    if !h.e.sentClose {
      assert h.out == [] && h.e.tx.granted == s.tx.granted && h.e.tx.remaining == s.tx.remaining;
      assert sr + h.out == sr;
    }
  }

  lemma ReceiverHandles(s: Endpoint, r: Endpoint, sr: seq<Packet>, n: nat)
    requires Accounted(s, r, sr, n) && sr != [] && Handle(r, sr[0]).Handled?
    ensures Accounted(s, Handle(r, sr[0]).e, sr[1..], n)
  {
    assert Handle(r, sr[0]).e.rx.discarded == r.rx.discarded + PacketAbove(sr[0]);
  }

  ghost predicate AccountedFrom(y: System, fromA: bool, n: nat) {
    Accounted(Sending(y, fromA), Receiving(y, fromA), Wire(y, fromA), n)
  }

  lemma SenderStep(y: System, step: Step, fromA: bool, n: nat)
    requires Inv(y) && AccountedFrom(y, fromA, n) && StepSystem(y, step).Running?
    requires if fromA then step.ActA? || step.DeliverToA? else step.ActB? || step.DeliverToB?
    ensures AccountedFrom(StepSystem(y, step).sys, fromA, n)
  {
    var s, r, sr, rs := Sending(y, fromA), Receiving(y, fromA), Wire(y, fromA), Wire(y, !fromA);
    if step.ActA? || step.ActB? {
      ActAccounted(s, r, sr, step.act, n);
    } else if rs != [] {
      SenderHandles(s, r, sr, rs[0], n);
    }
  }

  lemma ReceiverStep(y: System, step: Step, fromA: bool, n: nat)
    requires AccountedFrom(y, fromA, n) && StepSystem(y, step).Running?
    requires if fromA then step.ActB? || step.DeliverToB? else step.ActA? || step.DeliverToA?
    ensures AccountedFrom(StepSystem(y, step).sys, fromA, n)
  {
    var s, r, sr := Sending(y, fromA), Receiving(y, fromA), Wire(y, fromA);
    if step.ActA? || step.ActB? {
      ReceiverActs(r, step.act);
    } else if sr != [] {
      ReceiverHandles(s, r, sr, n);
    }
  }

  lemma FirstAccounted(y: System, steps: seq<Step>, fromA: bool, n: nat) returns (z: System)
    requires Inv(y) && AccountedFrom(y, fromA, n) && steps != []
    ensures Inv(z) && AccountedFrom(z, fromA, n) && Run(y, steps) == Run(z, steps[1..])
  {
    z := FirstStep(y, steps);
    if (if fromA then steps[0].ActA? || steps[0].DeliverToA? else steps[0].ActB? || steps[0].DeliverToB?) {
      SenderStep(y, steps[0], fromA, n);
    } else {
      ReceiverStep(y, steps[0], fromA, n);
    }
  }

  lemma {:induction false} RunAccounted(y: System, steps: seq<Step>, fromA: bool, n: nat)
    requires Inv(y) && AccountedFrom(y, fromA, n)
    ensures var o := Run(y, steps); o.Running? && AccountedFrom(o.sys, fromA, n)
    decreases |steps|
  {
    if steps != [] {
      var z := FirstAccounted(y, steps, fromA, n);
      RunAccounted(z, steps[1..], fromA, n);
    }
  }

  lemma {:induction false} AboveNothing(m: map<nat, seq<byte>>, n: nat)
    ensures Above(m, n) == 0 <==> forall c :: 1 < c < n ==> Get(m, c) == []
  {
    if n > 2 {
      AboveNothing(m, n - 1);
      assert Get(m, n - 1) == [] <==> |Get(m, n - 1)| == 0;
    }
  }

  /** An open direction with nothing under way: no write is in progress, nothing is in flight, and everything
      received has been read and given back. */
  ghost predicate AtRest(y: System, fromA: bool) {
    var s, r := Sending(y, fromA), Receiving(y, fromA);
    && !y.a.sentClose && !y.b.sentClose && y.b.decided && y.ab == [] && y.ba == []
    && s.tx.granted == [] && (forall c :: Get(s.tx.remaining, c) == [])
    && r.rx.plain == [] && r.rx.stderr == [] && r.rx.read == [] && r.rx.credited == []
  }

  lemma RestingDirection(s: Endpoint, r: Endpoint, n: nat)
    requires SenderWindow(s, r, [], []) && ReceiverWindow(r.rx) && Shapes(s, []) && r.rx.lost == 0 && Owed(r) == 0
    requires !s.sentClose && s.tx.granted == [] && r.rx.plain == [] && r.rx.stderr == []
    requires r.rx.read == [] && r.rx.credited == [] && Accounted(s, r, [], n) && Below(s.tx.offered, n)
    requires forall c :: Get(s.tx.remaining, c) == []
    ensures s.tx.win == WINDOW - Above(s.tx.offered, n)
  {
    AboveNothing(s.tx.remaining, n);
  }

  /** What holds of the two ends of a direction at rest. */
  lemma AtRestEnds(y: System, fromA: bool)
    requires Inv(y) && AtRest(y, fromA)
    ensures var s, r := Sending(y, fromA), Receiving(y, fromA);
      SenderWindow(s, r, [], []) && ReceiverWindow(r.rx) && Shapes(s, []) && r.rx.lost == 0 && Owed(r) == 0
  {
  }

  lemma RestingWindow(y: System, fromA: bool, n: nat)
    requires Inv(y) && AtRest(y, fromA) && AccountedFrom(y, fromA, n) && Below(Sending(y, fromA).tx.offered, n)
    ensures var t := Sending(y, fromA).tx; t.win == WINDOW - Above(t.offered, n)
  {
    AtRestEnds(y, fromA);
    RestingDirection(Sending(y, fromA), Receiving(y, fromA), n);
  }

  lemma StartAccounted(fromA: bool, n: nat)
    ensures AccountedFrom(Start(), fromA, n)
  {
    AboveNothing(map[], n);
  }

  lemma ReachedAccounted(steps: seq<Step>, y: System, fromA: bool, n: nat)
    requires Run(Start(), steps) == Running(y)
    ensures Inv(y) && AccountedFrom(y, fromA, n)
  {
    StartOk();
    StartAccounted(fromA, n);
    EveryRunOk(Start(), steps);
    RunAccounted(Start(), steps, fromA, n);
  }

  /** In every run, whenever a direction is at rest, its sender's window is the initial one less every byte
      ever offered on a code above 1: those are never given back. The window is whole if and only if there
      were none. */
  lemma DiscardsShrinkWindow(steps: seq<Step>, y: System, fromA: bool, n: nat)
    requires Run(Start(), steps) == Running(y) && AtRest(y, fromA) && Below(Sending(y, fromA).tx.offered, n)
    ensures var t := Sending(y, fromA).tx;
      && t.win == WINDOW - Above(t.offered, n)
      && (t.win == WINDOW <==> forall c :: c > 1 ==> Get(t.offered, c) == [])
  {
    ReachedAccounted(steps, y, fromA, n);
    RestingWindow(y, fromA, n);
    AboveNothing(Sending(y, fromA).tx.offered, n);
  }

  /** A reservation and transmission of one byte. */
  lemma OneByteOut(s: Endpoint)
    requires Get(s.tx.remaining, 2) == [7] && s.tx.granted == [] && !s.sentClose && !s.tx.winClosed
    requires s.tx.win == WINDOW && s.tx.maxRemote == MAX_PACKET
    ensures var s1 := DoReserve(s, 2);
      s1 == s.(tx := s.tx.(win := WINDOW - 1, granted := [Chunk(2, [7])], remaining := s.tx.remaining[2 := []]))
    ensures DoTransmit(DoReserve(s, 2), 0) == (s.(tx := s.tx.(win := WINDOW - 1,
        remaining := s.tx.remaining[2 := []])), [Data(2, [7])])
  {
    assert PacketSize(s.tx, [7]) == 1;
    assert [7][..1] == [7] && [7][1..] == [];
    assert Without([Chunk(2, [7])], 0) == [];
  }

  lemma OneByteDropped(y: System)
    requires y.a == Opened().a.(tx := y.a.tx) && y.b == Opened().b && y.ba == [] && y.ab == [Data(2, [7])]
    requires y.a.tx.win == WINDOW - 1 && y.a.tx.granted == [] && forall c :: Get(y.a.tx.remaining, c) == []
    ensures var o := Run(y, [DeliverToB]); o.Running? && AtRest(o.sys, true) && o.sys.a.tx.win == WINDOW - 1
  {
    assert [DeliverToB][1..] == [];
  }

  /** A run that comes to rest one byte short. */
  lemma OneByteShort()
    ensures var rest := [ActA(Offer(2, [7])), ActA(Reserve(2)), ActA(Transmit(0)), DeliverToB];
      var o := Run(Start(), [ActB(Accept)] + ([DeliverToA] + rest));
      && o.Running? && AtRest(o.sys, true) && o.sys.a.tx.win == WINDOW - 1
  {
    var r3 := [DeliverToB];
    var r2 := [ActA(Transmit(0))] + r3;
    var r1 := [ActA(Reserve(2))] + r2;
    var rest := [ActA(Offer(2, [7]))] + r1;
    assert rest == [ActA(Offer(2, [7])), ActA(Reserve(2)), ActA(Transmit(0)), DeliverToB];
    OpenedFirst(rest);
    var y1 := StepSystem(Opened(), ActA(Offer(2, [7]))).sys;
    OneByteOut(y1.a);
    var y2 := StepSystem(y1, ActA(Reserve(2))).sys;
    var y3 := StepSystem(y2, ActA(Transmit(0))).sys;
    RunCons(Opened(), ActA(Offer(2, [7])), r1);
    RunCons(y1, ActA(Reserve(2)), r2);
    RunCons(y2, ActA(Transmit(0)), r3);
    OneByteDropped(y3);
  }
}
