/** The key-slot cache of one OTR endpoint over every run of the data phase, hostile input and
    wrapping key ids included: the cache stays inside the two-by-two window of live key ids, never
    runs out and always holds what recomputation would give. A message can be accepted again only
    after its key ids have gone round, which takes 2^32 accepted messages, and then it can. */
module OtrSlots {
  import opened Bytes
  import opened OtrCodec
  import opened OtrRatchet

  ghost predicate InWindow(e: Endpoint, their: nat, my: nat) {
    MyKeyFor(e, my).Some? && TheirKeyFor(e, their).Some?
  }

  ghost predicate SlotOk(c: Primitives, e: Endpoint, s: Slot) {
    s.used ==>
      && InWindow(e, s.theirKeyId, s.myKeyId)
      && s.keys == DeriveKeys(c, MyKeyFor(e, s.myKeyId).value, TheirKeyFor(e, s.theirKeyId).value)
  }

  ghost predicate Distinct(slots: seq<Slot>) {
    forall i, j :: 0 <= i < j < |slots| && slots[i].used && slots[j].used ==>
      slots[i].theirKeyId != slots[j].theirKeyId || slots[i].myKeyId != slots[j].myKeyId
  }

  /** Key ids are 32-bit, and wrap. */
  ghost predicate IdsOk(e: Endpoint) { e.myKeyId < TWO32 && e.theirKeyId < TWO32 }

  ghost predicate CacheOk(c: Primitives, e: Endpoint) {
    IdsOk(e) && Distinct(e.slots) && forall i :: 0 <= i < 4 ==> SlotOk(c, e, e.slots[i])
  }

  /** Four distinct pairs fill the window, so a pair without a slot leaves one free. */
  lemma FreeSlotExists(c: Primitives, e: Endpoint, their: nat, my: nat)
    requires CacheOk(c, e) && InWindow(e, their, my)
    requires FindSlot(e.slots, their, my) == 4
    ensures FindFree(e.slots) < 4
  {
    var s := e.slots;
    assert SlotOk(c, e, s[0]) && SlotOk(c, e, s[1]) && SlotOk(c, e, s[2]) && SlotOk(c, e, s[3]);
    assert !Holds(s[0], their, my) && !Holds(s[1], their, my) && !Holds(s[2], their, my) && !Holds(s[3], their, my);
    assert !s[0].used || !s[1].used || !s[2].used || !s[3].used;
  }

  /** Putting the recomputed keys of an uncached pair of the window into a free slot. */
  lemma FillKeeps(c: Primitives, e: Endpoint, their: nat, my: nat, free: nat, s: Slot)
    requires CacheOk(c, e) && InWindow(e, their, my) && FindSlot(e.slots, their, my) == 4
    requires free < 4 && !e.slots[free].used
    requires Holds(s, their, my) && SlotOk(c, e, s)
    ensures CacheOk(c, e.(slots := e.slots[free := s]))
  {
    var e' := e.(slots := e.slots[free := s]);
    forall i | 0 <= i < 4
      ensures SlotOk(c, e', e'.slots[i])
    {
      assert SlotOk(c, e, e.slots[i]);
    }
    forall i, j | 0 <= i < j < 4 && e'.slots[i].used && e'.slots[j].used
      ensures e'.slots[i].theirKeyId != e'.slots[j].theirKeyId || e'.slots[i].myKeyId != e'.slots[j].myKeyId
    {
      assert !Holds(e.slots[i], their, my) && !Holds(e.slots[j], their, my);
    }
  }

  /** A lookup changes no used slot, and a slot it fills starts at counter zero. */
  ghost predicate Extends(before: Slots, after: Slots) {
    forall i :: 0 <= i < 4 ==>
      after[i] == before[i] || (!before[i].used && after[i].used && after[i].lastCtr == ZERO_COUNTER)
  }

  /** A lookup succeeds exactly for the pairs in the window, leaves the cache sound, and the slot
      it finds holds the keys that recomputation gives. */
  lemma LookupInWindow(c: Primitives, e: Endpoint, my: nat, their: nat)
    requires CacheOk(c, e)
    ensures var l := CalcDataKeys(c, e, my, their);
            && (l.Found? <==> InWindow(e, their, my))
            && (l.Found? ==>
            && CacheOk(c, e.(slots := l.slots)) && Extends(e.slots, l.slots)
            && SlotOk(c, e, l.slots[l.index]))
  {
    var l := CalcDataKeys(c, e, my, their);
    var hit := FindSlot(e.slots, their, my);
    if hit < 4 {
      assert SlotOk(c, e, e.slots[hit]);
      assert e.(slots := l.slots) == e;
    } else if InWindow(e, their, my) {
      FreeSlotExists(c, e, their, my);
      FillKeeps(c, e, their, my, l.index, l.slots[l.index]);
    }
  }

  lemma RotateMineKeeps(c: Primitives, e: Endpoint, freshPriv: nat)
    requires CacheOk(c, e)
    ensures CacheOk(c, RotateMine(e, freshPriv))
  {
    var e' := RotateMine(e, freshPriv);
    forall i | 0 <= i < 4
      ensures SlotOk(c, e', e'.slots[i])
    {
      assert SlotOk(c, e, e.slots[i]);
    }
  }

  lemma RotateTheirsKeeps(c: Primitives, e: Endpoint, nextPub: nat)
    requires CacheOk(c, e)
    ensures CacheOk(c, RotateTheirs(e, nextPub))
  {
    var e' := RotateTheirs(e, nextPub);
    forall i | 0 <= i < 4
      ensures SlotOk(c, e', e'.slots[i])
    {
      assert SlotOk(c, e, e.slots[i]);
    }
  }

  /** The state after the accepted counter is recorded and before any rotation. */
  ghost function Recorded(e: Endpoint, slots: Slots, i: nat, m: DataMessage): Endpoint
    requires i < 4 && |m.counter| == 8
  {
    e.(slots := slots[i := slots[i].(lastCtr := m.counter)])
  }

  lemma RecordedKeeps(c: Primitives, e: Endpoint, slots: Slots, i: nat, m: DataMessage)
    requires i < 4 && |m.counter| == 8 && CacheOk(c, e.(slots := slots))
    ensures CacheOk(c, Recorded(e, slots, i, m))
  {
    var e' := Recorded(e, slots, i, m);
    forall j | 0 <= j < 4
      ensures SlotOk(c, e', e'.slots[j])
    {
      assert SlotOk(c, e.(slots := slots), slots[j]);
    }
  }

  lemma AcceptKeeps(c: Primitives, e: Endpoint, slots: Slots, i: nat, m: DataMessage, freshPriv: nat)
    requires i < 4 && |m.counter| == 8 && CacheOk(c, e.(slots := slots))
    ensures CacheOk(c, Accept(e, slots, i, m, freshPriv))
  {
    RecordedKeeps(c, e, slots, i, m);
    var e1 := Recorded(e, slots, i, m);
    RotateMineKeeps(c, e1, freshPriv);
    var e2 := if m.recipientKeyId == e1.myKeyId then RotateMine(e1, freshPriv) else e1;
    if m.senderKeyId == e2.theirKeyId {
      RotateTheirsKeeps(c, e2, m.nextDH);
    }
  }

  // ---- runs ----

  datatype Event = Incoming(wire: seq<byte>, freshPriv: nat) | Outgoing(text: seq<byte>, extra: Option<Tlv>)

  /** What identifies an accepted message: the two key ids and the counter. */
  datatype Receipt = Receipt(theirKeyId: nat, myKeyId: nat, counter: nat)

  datatype Outcome = Outcome(endpoint: Endpoint, receipts: seq<Receipt>)

  /** One event. The receipt of an accepted message is read off the wire. */
  function Step(c: Primitives, e: Endpoint, ev: Event): Outcome {
    match ev
    case Incoming(wire, freshPriv) =>
      var (e', verdict) := Receive(c, e, wire, freshPriv);
      (match (verdict, Parse(wire))
       case (Accepted(_), Some((m, _))) =>
         Outcome(e', [Receipt(m.senderKeyId, m.recipientKeyId, FromBytes(m.counter))])
       case _ => Outcome(e', []))
    case Outgoing(text, extra) =>
      match Send(c, e, text, extra)
      case Some((e', _)) => Outcome(e', [])
      case None => Outcome(e, [])
  }

  function Run(c: Primitives, e: Endpoint, evs: seq<Event>): Outcome {
    if evs == [] then Outcome(e, [])
    else
      var before := Run(c, e, evs[..|evs| - 1]);
      var after := Step(c, before.endpoint, evs[|evs| - 1]);
      Outcome(after.endpoint, before.receipts + after.receipts)
  }

  /** How far a key id lies behind the current one, going round at 2^32. */
  function Behind(cur: nat, id: nat): int { if id <= cur then cur - id else cur + TWO32 - id }

  /** The slot of the receipt's key ids has reached its counter. */
  ghost predicate SlotReached(e: Endpoint, r: Receipt) {
    exists i :: 0 <= i < 4 && Holds(e.slots[i], r.theirKeyId, r.myKeyId) && r.counter <= FromBytes(e.slots[i].lastCtr)
  }

  /** The receipt's ids are at most so far behind, and it lies below the window or its slot guards it. */
  ghost predicate Near(e: Endpoint, r: Receipt, their: nat, my: nat) {
    && r.theirKeyId < TWO32 && Behind(e.theirKeyId, r.theirKeyId) <= their
    && r.myKeyId < TWO32 && Behind(e.myKeyId, r.myKeyId) <= my
    && (Behind(e.theirKeyId, r.theirKeyId) >= 2 || Behind(e.myKeyId, r.myKeyId) >= 2 || SlotReached(e, r))
  }

  /** A receipt n accepted messages old cannot be accepted again before n reaches 2^32. */
  ghost predicate Guarded(e: Endpoint, r: Receipt, n: nat) { n >= TWO32 || Near(e, r, n, n) }

  /** Every receipt of the log is guarded, by its age. */
  ghost predicate LogOk(e: Endpoint, log: seq<Receipt>) {
    forall k :: 0 <= k < |log| ==> Guarded(e, log[k], |log| - k)
  }

  lemma LookupKeepsGuard(e: Endpoint, slots: Slots, r: Receipt, n: nat)
    requires Extends(e.slots, slots) && Guarded(e, r, n)
    ensures Guarded(e.(slots := slots), r, n)
  {
    if i :| 0 <= i < 4 && Holds(e.slots[i], r.theirKeyId, r.myKeyId) && r.counter <= FromBytes(e.slots[i].lastCtr) {
      assert slots[i] == e.slots[i];
    }
  }

  lemma RotateMineKeepsGuard(e: Endpoint, freshPriv: nat, r: Receipt, their: nat, my: nat)
    requires IdsOk(e) && Near(e, r, their, my) && my + 1 < TWO32
    ensures Near(RotateMine(e, freshPriv), r, their, my + 1)
  {
    var e' := RotateMine(e, freshPriv);
    if i :| 0 <= i < 4 && Holds(e.slots[i], r.theirKeyId, r.myKeyId) && r.counter <= FromBytes(e.slots[i].lastCtr) {
      assert Retired(e.slots[i], true, Previous(e.myKeyId)) || e'.slots[i] == e.slots[i];
    }
  }

  lemma RotateTheirsKeepsGuard(e: Endpoint, nextPub: nat, r: Receipt, their: nat, my: nat)
    requires IdsOk(e) && Near(e, r, their, my) && their + 1 < TWO32
    ensures Near(RotateTheirs(e, nextPub), r, their + 1, my)
  {
    var e' := RotateTheirs(e, nextPub);
    if i :| 0 <= i < 4 && Holds(e.slots[i], r.theirKeyId, r.myKeyId) && r.counter <= FromBytes(e.slots[i].lastCtr) {
      assert Retired(e.slots[i], false, Previous(e.theirKeyId)) || e'.slots[i] == e.slots[i];
    }
  }

  function ReceiptOf(m: DataMessage): Receipt { Receipt(m.senderKeyId, m.recipientKeyId, FromBytes(m.counter)) }

  /** Recording a newer counter keeps every guard, and the message was not among the guarded ones. */
  lemma RecordedGuards(c: Primitives, e: Endpoint, i: nat, m: DataMessage, r: Receipt, n: nat)
    requires i < 4 && |m.counter| == 8 && CacheOk(c, e) && Near(e, r, n, n)
    requires Holds(e.slots[i], m.senderKeyId, m.recipientKeyId) && LexLess(e.slots[i].lastCtr, m.counter)
    ensures Near(Recorded(e, e.slots, i, m), r, n, n)
    ensures r != ReceiptOf(m)
  {
    LexLessIsNumeric(e.slots[i].lastCtr, m.counter);
    assert SlotOk(c, e, e.slots[i]);
    if j :| 0 <= j < 4 && Holds(e.slots[j], r.theirKeyId, r.myKeyId) && r.counter <= FromBytes(e.slots[j].lastCtr) {
      var e' := Recorded(e, e.slots, i, m);
      assert Holds(e'.slots[j], r.theirKeyId, r.myKeyId);
    }
  }

  /** Accepting one more message adds at most one to every distance. */
  lemma AcceptGuards(c: Primitives, e: Endpoint, slots: Slots, i: nat, m: DataMessage, freshPriv: nat, r: Receipt,
                     n: nat)
    requires i < 4 && |m.counter| == 8 && CacheOk(c, e.(slots := slots))
    requires Near(Recorded(e, slots, i, m), r, n, n)
    ensures Guarded(Accept(e, slots, i, m, freshPriv), r, n + 1)
  {
    if n + 1 < TWO32 {
      var e1 := Recorded(e, slots, i, m);
      if m.recipientKeyId == e1.myKeyId {
        RotateMineKeepsGuard(e1, freshPriv, r, n, n);
      }
      var e2 := if m.recipientKeyId == e1.myKeyId then RotateMine(e1, freshPriv) else e1;
      if m.senderKeyId == e2.theirKeyId {
        RotateTheirsKeepsGuard(e2, m.nextDH, r, n, n + 1);
      }
    }
  }

  /** An accepted message is one rotation behind on both sides and guarded by its own slot. */
  lemma OwnGuard(c: Primitives, e: Endpoint, slots: Slots, i: nat, m: DataMessage, freshPriv: nat)
    requires i < 4 && |m.counter| == 8 && CacheOk(c, e.(slots := slots))
    requires Holds(slots[i], m.senderKeyId, m.recipientKeyId)
    ensures Near(Accept(e, slots, i, m, freshPriv), ReceiptOf(m), 1, 1)
  {
    var e' := Accept(e, slots, i, m, freshPriv);
    assert SlotOk(c, e.(slots := slots), slots[i]);
    assert Holds(e'.slots[i], m.senderKeyId, m.recipientKeyId) && e'.slots[i].lastCtr == m.counter;
  }

  /** No receipt of the log younger than 2^32 accepted messages is this one. */
  ghost predicate NewIn(r: Receipt, log: seq<Receipt>) {
    forall k :: 0 <= k < |log| && log[k] == r ==> |log| - k >= TWO32
  }

  /** One event keeps the cache sound, guards every receipt by its age, and yields no recent receipt. */
  lemma StepKeeps(c: Primitives, e: Endpoint, ev: Event, log: seq<Receipt>)
    requires CacheOk(c, e) && LogOk(e, log)
    ensures var o := Step(c, e, ev);
            && CacheOk(c, o.endpoint) && LogOk(o.endpoint, log + o.receipts)
            && |o.receipts| <= 1
            && (o.receipts != [] ==> NewIn(o.receipts[0], log))
  {
    match ev
    case Outgoing(text, extra) =>
      SendKeeps(c, e, text, extra);
      var o := Step(c, e, ev);
      LookupInWindow(c, e, Previous(e.myKeyId), e.theirKeyId);
      forall k | 0 <= k < |log|
        ensures Guarded(o.endpoint, log[k], |log| - k)
      {
        LookupKeepsGuard(e, o.endpoint.slots, log[k], |log| - k);
        assert Guarded(e.(slots := o.endpoint.slots), log[k], |log| - k);
      }
      assert log + [] == log;
    case Incoming(wire, freshPriv) =>
      match Parse(wire)
      case None => assert log + [] == log;
      case Some((m, maced)) =>
        ReceiveKeeps(c, e, m, maced, freshPriv, log);
        assert log + [] == log;
  }

  /** The sender's own pair is always in the window, so generateData never panics. */
  lemma SendKeeps(c: Primitives, e: Endpoint, text: seq<byte>, extra: Option<Tlv>)
    requires CacheOk(c, e)
    ensures var sent := Send(c, e, text, extra);
            && sent.Some?
            && CacheOk(c, sent.value.0) && Extends(e.slots, sent.value.0.slots)
            && sent.value.0 == e.(slots := sent.value.0.slots, oldMACs := [], myCounter := Incremented(e.myCounter))
  {
    LookupInWindow(c, e, Previous(e.myKeyId), e.theirKeyId);
    var e' := Send(c, e, text, extra).value.0;
    var e1 := e.(slots := e'.slots);
    forall i | 0 <= i < 4
      ensures SlotOk(c, e', e'.slots[i])
    {
      assert SlotOk(c, e1, e1.slots[i]);
    }
  }

  lemma ReceiveKeeps(c: Primitives, e: Endpoint, m: DataMessage, maced: seq<byte>, freshPriv: nat, log: seq<Receipt>)
    requires CacheOk(c, e) && LogOk(e, log) && |m.counter| == 8
    ensures var (e', verdict) := ReceiveParsed(c, e, m, maced, freshPriv);
            && CacheOk(c, e')
            && LogOk(e', if verdict.Accepted? then log + [ReceiptOf(m)] else log)
            && (verdict.Accepted? ==> NewIn(ReceiptOf(m), log))
  {
    LookupInWindow(c, e, m.recipientKeyId, m.senderKeyId);
    match CalcDataKeys(c, e, m.recipientKeyId, m.senderKeyId)
    case Failed(_) =>
    case Found(slots, i) =>
      var e1 := e.(slots := slots);
      forall k | 0 <= k < |log|
        ensures Guarded(e1, log[k], |log| - k)
      {
        LookupKeepsGuard(e, slots, log[k], |log| - k);
      }
      if LexLess(slots[i].lastCtr, m.counter) {
        AcceptKeeps(c, e, slots, i, m, freshPriv);
        AcceptKeepsLog(c, e, slots, i, m, freshPriv, log);
      }
  }

  lemma AcceptKeepsLog(c: Primitives, e: Endpoint, slots: Slots, i: nat, m: DataMessage, freshPriv: nat,
                       log: seq<Receipt>)
    requires i < 4 && |m.counter| == 8 && CacheOk(c, e.(slots := slots))
    requires LogOk(e.(slots := slots), log)
    requires Holds(slots[i], m.senderKeyId, m.recipientKeyId) && LexLess(slots[i].lastCtr, m.counter)
    ensures LogOk(Accept(e, slots, i, m, freshPriv), log + [ReceiptOf(m)]) && NewIn(ReceiptOf(m), log)
  {
    var e1 := e.(slots := slots);
    OwnGuard(c, e, slots, i, m, freshPriv);
    forall k | 0 <= k < |log|
      ensures Guarded(Accept(e, slots, i, m, freshPriv), log[k], |log| + 1 - k)
      ensures log[k] == ReceiptOf(m) ==> |log| - k >= TWO32
    {
      assert Guarded(e1, log[k], |log| - k);
      if |log| - k < TWO32 {
        RecordedGuards(c, e1, i, m, log[k], |log| - k);
        AcceptGuards(c, e, slots, i, m, freshPriv, log[k], |log| - k);
      }
    }
  }

  /** The state a completed key exchange leaves: no slot in use. */
  ghost predicate Fresh(e: Endpoint) {
    IdsOk(e) && forall i :: 0 <= i < 4 ==> !e.slots[i].used
  }

  /** Equal receipts lie at least 2^32 accepted messages apart. */
  ghost predicate FarApart(log: seq<Receipt>) {
    forall i, j :: 0 <= i < j < |log| && log[i] == log[j] ==> j - i >= TWO32
  }

  /** Over any run from fresh slots, whatever arrives, the cache is sound in the final state, and two
      accepted messages with the same key ids and counter are at least 2^32 accepted messages apart. */
  lemma {:induction false} AcceptedOnce(c: Primitives, e: Endpoint, evs: seq<Event>)
    requires Fresh(e)
    ensures CacheOk(c, Run(c, e, evs).endpoint)
    ensures LogOk(Run(c, e, evs).endpoint, Run(c, e, evs).receipts)
    ensures FarApart(Run(c, e, evs).receipts)
    decreases |evs|
  {
    if evs != [] {
      AcceptedOnce(c, e, evs[..|evs| - 1]);
      var before := Run(c, e, evs[..|evs| - 1]);
      StepKeeps(c, before.endpoint, evs[|evs| - 1], before.receipts);
    }
  }

  /** So in a run of at most 2^32 accepted messages each is accepted once. */
  lemma NeverTwice(c: Primitives, e: Endpoint, evs: seq<Event>)
    requires Fresh(e) && |Run(c, e, evs).receipts| <= TWO32
    ensures var log := Run(c, e, evs).receipts; forall i, j :: 0 <= i < j < |log| ==> log[i] != log[j]
  {
    AcceptedOnce(c, e, evs);
  }

  /** In every reachable state a pair of key ids can be looked up exactly when it is in the window:
      the cache never runs out of slots for a live pair. */
  lemma NeverOutOfSlots(c: Primitives, e: Endpoint, evs: seq<Event>, my: nat, their: nat)
    requires Fresh(e)
    ensures var e' := Run(c, e, evs).endpoint;
            CalcDataKeys(c, e', my, their).Found? <==> InWindow(e', their, my)
  {
    AcceptedOnce(c, e, evs);
    LookupInWindow(c, Run(c, e, evs).endpoint, my, their);
  }

  // ---- the bound is exact ----

  const FIRST_COUNTER: Counter := [0, 0, 0, 0, 0, 0, 0, 1]

  /** A message under the current keys of both sides, with the first counter. */
  function Knock(c: Primitives, e: Endpoint): DataMessage {
    var keys := DeriveKeys(c, e.myCurrent, e.theirCurrent);
    var bare := DataMessage(0, e.theirKeyId, e.myKeyId, 0, FIRST_COUNTER, [], [], []);
    bare.(mac := c.hmac(keys.recvMAC, DATA_HEADER + MacedPart(bare)))
  }

  /** A peer that answers every rotation with the next message under the newest keys. */
  function Knocks(c: Primitives, e: Endpoint, n: nat): seq<Event> {
    if n == 0 then []
    else
      var evs := Knocks(c, e, n - 1);
      evs + [Incoming(Serialize(Knock(c, Run(c, e, evs).endpoint)), 0)]
  }

  /** No slot holds the current pair of key ids. */
  ghost predicate Unseen(e: Endpoint) { forall i :: 0 <= i < 4 ==> !Holds(e.slots[i], e.theirKeyId, e.myKeyId) }

  lemma FirstCounterIsOne()
    ensures FromBytes(FIRST_COUNTER) == 1 && LexLess(ZERO_COUNTER, FIRST_COUNTER)
  {
    var z: seq<byte> := FIRST_COUNTER;
    assert FromBytes(z[..0]) == 0;
    assert z[..1][..0] == z[..0] && z[..2][..1] == z[..1] && z[..3][..2] == z[..2] && z[..4][..3] == z[..3];
    assert z[..5][..4] == z[..4] && z[..6][..5] == z[..5] && z[..7][..6] == z[..6];
    assert FromBytes(z[..1]) == 0 && FromBytes(z[..2]) == 0 && FromBytes(z[..3]) == 0 && FromBytes(z[..4]) == 0;
    assert FromBytes(z[..5]) == 0 && FromBytes(z[..6]) == 0 && FromBytes(z[..7]) == 0;
    var a: seq<byte>, b: seq<byte> := ZERO_COUNTER, FIRST_COUNTER;
    assert a[6..][1..] == a[7..] && b[6..][1..] == b[7..] && LexLess(a[7..], b[7..]);
    assert a[5..][1..] == a[6..] && b[5..][1..] == b[6..] && LexLess(a[6..], b[6..]);
    assert a[4..][1..] == a[5..] && b[4..][1..] == b[5..] && LexLess(a[5..], b[5..]);
    assert a[3..][1..] == a[4..] && b[3..][1..] == b[4..] && LexLess(a[4..], b[4..]);
    assert a[2..][1..] == a[3..] && b[2..][1..] == b[3..] && LexLess(a[3..], b[3..]);
    assert a[1..][1..] == a[2..] && b[1..][1..] == b[2..] && LexLess(a[2..], b[2..]);
  }

  /** The current pair is looked up into a fresh slot. */
  lemma KnockFinds(c: Primitives, e: Endpoint) returns (slots: Slots, i: nat)
    requires CacheOk(c, e) && Unseen(e)
    ensures CalcDataKeys(c, e, e.myKeyId, e.theirKeyId) == Found(slots, i) && i < 4
    ensures Holds(slots[i], e.theirKeyId, e.myKeyId) && slots[i].lastCtr == ZERO_COUNTER
    ensures slots[i].keys == DeriveKeys(c, e.myCurrent, e.theirCurrent)
    ensures CacheOk(c, e.(slots := slots))
  {
    LookupInWindow(c, e, e.myKeyId, e.theirKeyId);
    var l := CalcDataKeys(c, e, e.myKeyId, e.theirKeyId);
    slots, i := l.slots, l.index;
  }

  lemma KnockWellFormed(c: Primitives, e: Endpoint)
    requires IdsOk(e)
    ensures Parse(Serialize(Knock(c, e))) == Some((Knock(c, e), MacedPart(Knock(c, e))))
  {
    ParseSerialize(Knock(c, e));
  }

  /** After both rotations no slot can name the new pair. */
  lemma KnockRotates(c: Primitives, e: Endpoint, slots: Slots, i: nat)
    requires i < 4 && CacheOk(c, e.(slots := slots))
    ensures var e' := Accept(e, slots, i, Knock(c, e), 0);
            && e'.theirKeyId == Next(e.theirKeyId) && e'.myKeyId == Next(e.myKeyId)
            && CacheOk(c, e') && Unseen(e')
  {
    AcceptKeeps(c, e, slots, i, Knock(c, e), 0);
    var e' := Accept(e, slots, i, Knock(c, e), 0);
    forall j | 0 <= j < 4
      ensures !Holds(e'.slots[j], e'.theirKeyId, e'.myKeyId)
    {
      assert SlotOk(c, e.(slots := slots), slots[j]);
    }
  }

  lemma KnockAccepted(c: Primitives, e: Endpoint)
    requires CacheOk(c, e) && Unseen(e)
    ensures var o := Step(c, e, Incoming(Serialize(Knock(c, e)), 0));
            && o.receipts == [Receipt(e.theirKeyId, e.myKeyId, 1)]
            && o.endpoint.theirKeyId == Next(e.theirKeyId) && o.endpoint.myKeyId == Next(e.myKeyId)
            && CacheOk(c, o.endpoint) && Unseen(o.endpoint)
  {
    var m := Knock(c, e);
    var slots, i := KnockFinds(c, e);
    KnockWellFormed(c, e);
    KnockRotates(c, e, slots, i);
    FirstCounterIsOne();
    assert ReceiveParsed(c, e, m, MacedPart(m), 0).1.Accepted?
      && ReceiveParsed(c, e, m, MacedPart(m), 0).0 == Accept(e, slots, i, m, 0);
  }

  /** The key id after n rotations. */
  function After(id: nat, n: nat): nat { if id + n < TWO32 then id + n else id + n - TWO32 }

  lemma RunOneMore(c: Primitives, e: Endpoint, evs: seq<Event>, ev: Event)
    ensures var before := Run(c, e, evs);
            var after := Step(c, before.endpoint, ev);
            Run(c, e, evs + [ev]) == Outcome(after.endpoint, before.receipts + after.receipts)
  {
    assert (evs + [ev])[..|evs|] == evs;
  }

  lemma AfterNext(id: nat, n: nat)
    requires id < TWO32 && 1 <= n <= TWO32
    ensures Next(After(id, n - 1)) == After(id, n)
  {
  }

  /** The state after n knocks at an endpoint that started as e. */
  ghost predicate Circling(c: Primitives, e: Endpoint, n: nat, o: Outcome) {
    && CacheOk(c, o.endpoint) && Unseen(o.endpoint)
    && o.endpoint.theirKeyId == After(e.theirKeyId, n) && o.endpoint.myKeyId == After(e.myKeyId, n)
    && |o.receipts| == n && (n > 0 ==> o.receipts[0] == Receipt(e.theirKeyId, e.myKeyId, 1))
  }

  lemma OneKnockMore(c: Primitives, e: Endpoint, n: nat, o: Outcome, step: Outcome)
    requires IdsOk(e) && n < TWO32 && Circling(c, e, n, o)
    requires step == Step(c, o.endpoint, Incoming(Serialize(Knock(c, o.endpoint)), 0))
    ensures Circling(c, e, n + 1, Outcome(step.endpoint, o.receipts + step.receipts))
  {
    KnockAccepted(c, o.endpoint);
    AfterNext(e.theirKeyId, n + 1);
    AfterNext(e.myKeyId, n + 1);
  }

  lemma NoKnocks(c: Primitives, e: Endpoint)
    requires Fresh(e)
    ensures Circling(c, e, 0, Outcome(e, []))
  {
  }

  lemma {:induction false} KnocksAccepted(c: Primitives, e: Endpoint, n: nat)
    requires Fresh(e) && n <= TWO32
    ensures Circling(c, e, n, Run(c, e, Knocks(c, e, n)))
  {
    if n > 0 {
      KnocksAccepted(c, e, n - 1);
      var evs := Knocks(c, e, n - 1);
      var o := Run(c, e, evs);
      var ev := Incoming(Serialize(Knock(c, o.endpoint)), 0);
      assert Knocks(c, e, n) == evs + [ev];
      RunOneMore(c, e, evs, ev);
      OneKnockMore(c, e, n - 1, o, Step(c, o.endpoint, ev));
    } else {
      NoKnocks(c, e);
    }
  }

  /** The bound is exact: against every endpoint a peer has a run whose first message, identified by its key
      ids and counter, is accepted again 2^32 accepted messages later. */
  lemma AcceptedAgain(c: Primitives, e: Endpoint)
    requires Fresh(e)
    ensures var log := Run(c, e, Knocks(c, e, TWO32 + 1)).receipts;
            |log| == TWO32 + 1 && log[TWO32] == log[0]
  {
    var n := TWO32;
    KnocksAccepted(c, e, n);
    var evs := Knocks(c, e, n);
    var e1 := Run(c, e, evs).endpoint;
    KnockAccepted(c, e1);
    RunOneMore(c, e, evs, Incoming(Serialize(Knock(c, e1)), 0));
  }
}
