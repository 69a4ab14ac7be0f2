/** Two OTR endpoints and the two message queues between them. Over every interleaving of sends and
    in-order deliveries, every message is accepted and decrypts to what was sent. */
module OtrSync {
  import opened Bytes
  import opened OtrCodec
  import opened OtrRatchet
  import opened OtrSlots

  /** An endpoint with its history: the private value of every key it has had, the number of the peer's
      newest key it knows, the plaintexts it has sent and the verdicts it has given. Keys are numbered from
      the start; the protocol names them by that number modulo 2^32. */
  datatype Party = Party(e: Endpoint, keys: seq<nat>, seen: nat, sent: seq<seq<byte>>, got: seq<Received>)

  /** A message in flight, with the numbers of the two keys it is sealed under. */
  datatype Flight = Flight(message: DataMessage, plain: seq<byte>, from: nat, to: nat)

  datatype System = System(a: Party, b: Party, ab: seq<Flight>, ba: seq<Flight>)

  /** The 32-bit id of the n-th key. */
  function Id(n: nat): (id: nat)
    ensures id < TWO32
  {
    if n == 0 then 0 else Next(Id(n - 1))
  }

  /** Inside the window of two keys the ids tell the keys apart. */
  lemma IdsDiffer(n: nat)
    requires n >= 1
    ensures Previous(Id(n)) == Id(n - 1) && Id(n - 1) != Id(n) && Next(Id(n)) == Id(n + 1)
  {
  }

  function Top(p: Party): int { |p.keys| - 1 }

  function Pub(p: Party, n: nat): nat
    requires n < |p.keys|
  {
    NewKeyPair(p.keys[n]).pub
  }

  function Num(ctr: seq<byte>): nat { FromBytes(ctr) }

  // ---- what every reachable state satisfies ----

  ghost predicate PartyOk(c: Primitives, p: Party) {
    && CacheOk(c, p.e) && 2 <= Top(p) && p.e.myKeyId == Id(Top(p)) && p.e.theirKeyId == Id(p.seen)
    && p.e.myCurrent == NewKeyPair(p.keys[Top(p)])
    && p.e.myLast == NewKeyPair(p.keys[Top(p) - 1])
    && 1 <= Num(p.e.myCounter)
  }

  /** y's view of x's keys is at most one rotation behind. */
  ghost predicate Tracks(x: Party, y: Party) {
    && 1 <= y.seen && (y.seen == Top(x) || y.seen + 1 == Top(x))
    && y.e.theirCurrent == Pub(x, y.seen)
    && y.e.theirLast == if y.seen >= 2 then Some(Pub(x, y.seen - 1)) else None
  }

  /** The keys a message from x to y may be sealed under. */
  ghost predicate InReach(x: Party, y: Party, f: Flight) {
    && 1 <= f.from < Top(x) && y.seen <= f.from + 1 && f.from <= y.seen
    && Top(y) <= f.to + 1 && f.to <= Top(y) && f.to <= x.seen
  }

  ghost predicate Sealed(c: Primitives, k: Keys, s: Flight) {
    && s.message.encrypted == Crypt(c, k.sendAES, s.message.counter, s.plain)
    && s.message.mac == c.hmac(k.sendMAC, DATA_HEADER + MacedPart(s.message))
  }

  ghost predicate MessageOk(c: Primitives, x: Party, y: Party, s: Flight) {
    var m := s.message;
    && InReach(x, y, s) && m.senderKeyId == Id(s.from) && m.recipientKeyId == Id(s.to)
    && WellFormed(m) && m.flags == 0
    && m.nextDH == Pub(x, s.from + 1)
    && 1 <= Num(m.counter) < Num(x.e.myCounter)
    && Sealed(c, DeriveKeys(c, NewKeyPair(x.keys[s.from]), Pub(y, s.to)), s)
  }

  /** Later messages use no older keys and carry strictly newer counters. */
  ghost predicate Ordered(q: seq<Flight>) {
    forall i, j :: 0 <= i < j < |q| ==>
      q[i].from <= q[j].from && q[i].to <= q[j].to && Num(q[i].message.counter) < Num(q[j].message.counter)
  }

  /** Everything y has accepted from x is older than everything still to come. */
  ghost predicate CountersBehind(x: Party, y: Party, q: seq<Flight>) {
    forall i :: 0 <= i < 4 && y.e.slots[i].used ==>
      && Num(y.e.slots[i].lastCtr) < Num(x.e.myCounter)
      && forall j :: 0 <= j < |q| ==> Num(y.e.slots[i].lastCtr) < Num(q[j].message.counter)
  }

  /** What y received is what x sent, in order, and the rest is in the queue. */
  ghost predicate Delivered(x: Party, y: Party, q: seq<Flight>) {
    && |x.sent| == |y.got| + |q|
    && (forall i :: 0 <= i < |y.got| ==> y.got[i] == Accepted(x.sent[i]))
    && (forall i :: 0 <= i < |q| ==> q[i].plain == x.sent[|y.got| + i])
  }

  ghost predicate KeysDiffer(x: Party, y: Party) {
    forall i, j :: 0 <= i < |x.keys| && 0 <= j < |y.keys| ==> Pub(x, i) != Pub(y, j)
  }

  ghost predicate LinkOk(c: Primitives, x: Party, y: Party, q: seq<Flight>) {
    && PartyOk(c, x) && PartyOk(c, y) && Tracks(x, y)
    && (forall i :: 0 <= i < |q| ==> MessageOk(c, x, y, q[i]))
    && Ordered(q) && CountersBehind(x, y, q) && Delivered(x, y, q)
  }

  ghost predicate SystemOk(c: Primitives, s: System) {
    LinkOk(c, s.a, s.b, s.ab) && LinkOk(c, s.b, s.a, s.ba) && KeysDiffer(s.a, s.b)
  }

  // ---- sending ----

  /** The keys generateData uses: our last but one, the peer's newest. */
  function Seal(x: Party, s: Sent): Flight { Flight(s.message, s.plain, if Top(x) >= 1 then Top(x) - 1 else 0, x.seen) }

  /** x after generateData, with the message it put on the queue. */
  function SendStep(c: Primitives, x: Party, q: seq<Flight>, text: seq<byte>,
                    extra: Option<Tlv>): (Party, seq<Flight>) {
    match Send(c, x.e, text, extra)
    case None => (x, q)
    case Some((e, s)) => (x.(e := e, sent := x.sent + [s.plain]), q + [Seal(x, s)])
  }

  /** The sender's counter does not wrap and the message stays below four gigabytes. */
  ghost predicate SendFits(c: Primitives, x: Party, text: seq<byte>, extra: Option<Tlv>) {
    && Num(x.e.myCounter) + 1 < TWO64
    && match Send(c, x.e, text, extra) case None => true case Some((_, s)) => |Serialize(s.message)| < TWO32
  }

  lemma CounterAdvances(ctr: Counter)
    requires Num(ctr) + 1 < TWO64
    ensures Num(Incremented(ctr)) == Num(ctr) + 1
  {
    IncrementedValue(ctr);
    assert Pow256(8) == TWO64;
  }

  lemma SendKeepsParty(c: Primitives, x: Party, q: seq<Flight>, text: seq<byte>, extra: Option<Tlv>)
    requires PartyOk(c, x) && SendFits(c, x, text, extra)
    ensures var (x', q') := SendStep(c, x, q, text, extra);
            PartyOk(c, x') && x'.keys == x.keys && x'.seen == x.seen && Extends(x.e.slots, x'.e.slots)
            && x'.e == x.e.(slots := x'.e.slots, oldMACs := [], myCounter := Incremented(x.e.myCounter))
            && |q'| == |q| + 1 && q'[..|q|] == q && x'.sent == x.sent + [q'[|q|].plain] && x'.got == x.got
            && Num(x'.e.myCounter) == Num(x.e.myCounter) + 1
  {
    SendKeeps(c, x.e, text, extra);
    CounterAdvances(x.e.myCounter);
  }

  /** The keys generateData finds are those of our last but one key and the peer's newest. */
  lemma SendKeys(c: Primitives, x: Party, y: Party)
    requires PartyOk(c, x) && Tracks(y, x)
    ensures var l := CalcDataKeys(c, x.e, Previous(x.e.myKeyId), x.e.theirKeyId);
            l.Found? && l.slots[l.index].keys == DeriveKeys(c, NewKeyPair(x.keys[Top(x) - 1]), Pub(y, x.seen))
  {
    LookupInWindow(c, x.e, Previous(x.e.myKeyId), x.e.theirKeyId);
    IdsDiffer(Top(x));
  }

  /** What Compose seals under those keys is a good message. */
  lemma ComposedOk(c: Primitives, x: Party, x': Party, y: Party, k: Keys, plain: seq<byte>)
    requires PartyOk(c, x) && PartyOk(c, y) && Tracks(x, y) && Tracks(y, x)
    requires k == DeriveKeys(c, NewKeyPair(x.keys[Top(x) - 1]), Pub(y, x.seen))
    requires x'.keys == x.keys && x'.seen == x.seen && Num(x'.e.myCounter) == Num(x.e.myCounter) + 1
    requires |Serialize(Compose(c, x.e, k, plain))| < TWO32
    ensures MessageOk(c, x', y, Flight(Compose(c, x.e, k, plain), plain, Top(x) - 1, x.seen))
  {
    IdsDiffer(Top(x));
    ComposeSeals(c, x.e, k, plain);
  }

  /** The message that generateData appends. */
  lemma SendComposes(c: Primitives, x: Party, y: Party, q: seq<Flight>, text: seq<byte>, extra: Option<Tlv>)
    requires PartyOk(c, x) && PartyOk(c, y) && Tracks(x, y) && Tracks(y, x) && SendFits(c, x, text, extra)
    ensures var (x', q') := SendStep(c, x, q, text, extra);
            |q'| == |q| + 1 && MessageOk(c, x', y, q'[|q|])
            && q'[|q|].from == Top(x) - 1 && q'[|q|].to == x.seen && q'[|q|].message.counter == x.e.myCounter
  {
    var (x', q') := SendStep(c, x, q, text, extra);
    SendKeepsParty(c, x, q, text, extra);
    SendKeys(c, x, y);
    var l := CalcDataKeys(c, x.e, Previous(x.e.myKeyId), x.e.theirKeyId);
    ComposedOk(c, x, x', y, l.slots[l.index].keys, Plaintext(text, extra));
  }

  /** The MAC field is not part of what is MACed. */
  lemma ComposeSeals(c: Primitives, e: Endpoint, k: Keys, plain: seq<byte>)
    ensures forall from, to :: Sealed(c, k, Flight(Compose(c, e, k, plain), plain, from, to))
  {
  }

  /** A message in flight stays good while both histories grow and its key ids stay in the window. */
  lemma MessageStays(c: Primitives, x: Party, y: Party, x': Party, y': Party, s: Flight)
    requires MessageOk(c, x, y, s) && x.keys <= x'.keys && y.keys <= y'.keys
    requires InReach(x', y', s) && Num(x.e.myCounter) <= Num(x'.e.myCounter)
    ensures MessageOk(c, x', y', s)
  {
  }

  lemma OrderedAppend(q: seq<Flight>, s: Flight)
    requires Ordered(q)
    requires forall i :: 0 <= i < |q| ==>
               q[i].from <= s.from && q[i].to <= s.to && Num(q[i].message.counter) < Num(s.message.counter)
    ensures Ordered(q + [s])
  {
  }

  lemma SendKeepsLink(c: Primitives, x: Party, y: Party, q: seq<Flight>, text: seq<byte>, extra: Option<Tlv>)
    requires LinkOk(c, x, y, q) && Tracks(y, x) && SendFits(c, x, text, extra)
    ensures var (x', q') := SendStep(c, x, q, text, extra); LinkOk(c, x', y, q')
  {
    SendKeepsParty(c, x, q, text, extra);
    SendComposes(c, x, y, q, text, extra);
    var (x', q') := SendStep(c, x, q, text, extra);
    SentExtendsLink(c, x, y, q, x', q'[|q|]);
    assert q' == q + [q'[|q|]];
  }

  /** The messages in flight are behind the one that is sent, and stay good. */
  lemma SentBehind(c: Primitives, x: Party, y: Party, q: seq<Flight>, x': Party, s: Flight, i: nat)
    requires LinkOk(c, x, y, q) && x'.keys == x.keys && x'.seen == x.seen && i < |q|
    requires Num(x'.e.myCounter) == Num(x.e.myCounter) + 1
    requires s.message.counter == x.e.myCounter && s.from == Top(x) - 1 && s.to == x.seen
    ensures MessageOk(c, x', y, q[i]) && q[i].from <= s.from && q[i].to <= s.to
    ensures Num(q[i].message.counter) < Num(s.message.counter)
  {
    assert MessageOk(c, x, y, q[i]);
    MessageStays(c, x, y, x', y, q[i]);
  }

  lemma SentCounts(x: Party, y: Party, q: seq<Flight>, x': Party, s: Flight)
    requires CountersBehind(x, y, q) && Delivered(x, y, q)
    requires Num(x'.e.myCounter) == Num(x.e.myCounter) + 1 && x'.sent == x.sent + [s.plain]
    requires s.message.counter == x.e.myCounter
    ensures CountersBehind(x', y, q + [s]) && Delivered(x', y, q + [s])
  {
  }

  /** The link invariant after x has appended the message s under its counter. */
  lemma SentExtendsLink(c: Primitives, x: Party, y: Party, q: seq<Flight>, x': Party, s: Flight)
    requires LinkOk(c, x, y, q) && PartyOk(c, x') && x'.keys == x.keys && x'.seen == x.seen
    requires x'.e == x.e.(slots := x'.e.slots, oldMACs := [], myCounter := x'.e.myCounter)
    requires Num(x'.e.myCounter) == Num(x.e.myCounter) + 1 && x'.sent == x.sent + [s.plain] && x'.got == x.got
    requires MessageOk(c, x', y, s) && s.message.counter == x.e.myCounter
    requires s.from == Top(x) - 1 && s.to == x.seen
    ensures LinkOk(c, x', y, q + [s])
  {
    forall i | 0 <= i < |q|
      ensures MessageOk(c, x', y, q[i])
      ensures q[i].from <= s.from && q[i].to <= s.to
      ensures Num(q[i].message.counter) < Num(s.message.counter)
    {
      SentBehind(c, x, y, q, x', s, i);
    }
    OrderedAppend(q, s);
    SentCounts(x, y, q, x', s);
  }

  lemma SendKeepsReverse(c: Primitives, x: Party, y: Party, q: seq<Flight>, r: seq<Flight>, text: seq<byte>,
                         extra: Option<Tlv>)
    requires LinkOk(c, y, x, r) && SendFits(c, x, text, extra)
    ensures var (x', q') := SendStep(c, x, q, text, extra); LinkOk(c, y, x', r)
  {
    SendKeepsParty(c, x, q, text, extra);
    var (x', _) := SendStep(c, x, q, text, extra);
    FilledKeepsReverse(c, x, y, r, x');
  }

  /** Filling a slot moves no key, so the messages on their way stay good. */
  lemma FilledMessage(c: Primitives, x: Party, y: Party, r: seq<Flight>, x': Party, i: nat)
    requires LinkOk(c, y, x, r) && x'.keys == x.keys && x'.seen == x.seen && i < |r|
    ensures MessageOk(c, y, x', r[i])
  {
    assert MessageOk(c, y, x, r[i]);
    MessageStays(c, y, x, y, x', r[i]);
  }

  lemma FilledCounters(c: Primitives, x: Party, y: Party, r: seq<Flight>, x': Party)
    requires LinkOk(c, y, x, r) && Extends(x.e.slots, x'.e.slots)
    ensures CountersBehind(y, x', r)
  {
    forall i | 0 <= i < 4 && x'.e.slots[i].used
      ensures Num(x'.e.slots[i].lastCtr) < Num(y.e.myCounter)
      ensures forall j :: 0 <= j < |r| ==> Num(x'.e.slots[i].lastCtr) < Num(r[j].message.counter)
    {
      FilledCounter(c, x, y, r, x', i);
    }
  }

  lemma FilledKeepsReverse(c: Primitives, x: Party, y: Party, r: seq<Flight>, x': Party)
    requires LinkOk(c, y, x, r) && PartyOk(c, x') && x'.keys == x.keys && x'.seen == x.seen && x'.got == x.got
    requires x'.e == x.e.(slots := x'.e.slots, oldMACs := [], myCounter := x'.e.myCounter)
    requires Extends(x.e.slots, x'.e.slots)
    ensures LinkOk(c, y, x', r)
  {
    forall i | 0 <= i < |r|
      ensures MessageOk(c, y, x', r[i])
    {
      FilledMessage(c, x, y, r, x', i);
    }
    FilledCounters(c, x, y, r, x');
  }

  lemma FilledCounter(c: Primitives, x: Party, y: Party, r: seq<Flight>, x': Party, i: nat)
    requires LinkOk(c, y, x, r) && Extends(x.e.slots, x'.e.slots) && i < 4 && x'.e.slots[i].used
    ensures Num(x'.e.slots[i].lastCtr) < Num(y.e.myCounter)
    ensures forall j :: 0 <= j < |r| ==> Num(x'.e.slots[i].lastCtr) < Num(r[j].message.counter)
  {
    ZeroCounter();
    assert x'.e.slots[i] == x.e.slots[i] || x'.e.slots[i].lastCtr == ZERO_COUNTER;
  }

  lemma ZeroCounter()
    ensures Num(ZERO_COUNTER) == 0
  {
    var z: seq<byte> := ZERO_COUNTER;
    assert FromBytes(z[..0]) == 0;
    assert z[..1][..0] == z[..0] && FromBytes(z[..1]) == 0;
    assert z[..2][..1] == z[..1] && FromBytes(z[..2]) == 0;
    assert z[..3][..2] == z[..2] && FromBytes(z[..3]) == 0;
    assert z[..4][..3] == z[..3] && FromBytes(z[..4]) == 0;
    assert z[..5][..4] == z[..4] && FromBytes(z[..5]) == 0;
    assert z[..6][..5] == z[..5] && FromBytes(z[..6]) == 0;
    assert z[..7][..6] == z[..6] && FromBytes(z[..7]) == 0;
    assert z[..8][..7] == z[..7] && z[..8] == z;
  }

  // ---- delivering ----

  /** y after accepting a message that leaves it with the endpoint e. */
  function Moved(y: Party, m: DataMessage, e: Endpoint, verdict: Received, freshPriv: nat): Party {
    Party(e,
          if m.recipientKeyId == y.e.myKeyId && verdict.Accepted? then y.keys + [freshPriv] else y.keys,
          if m.senderKeyId == y.e.theirKeyId && verdict.Accepted? then y.seen + 1 else y.seen,
          y.sent, y.got + [verdict])
  }

  /** y after processData on the bytes of s, with freshPriv drawn if its key rotates. */
  function ReceiveStep(c: Primitives, y: Party, s: Flight, freshPriv: nat): Party {
    var (e, verdict) := Receive(c, y.e, Serialize(s.message), freshPriv);
    Moved(y, s.message, e, verdict, freshPriv)
  }

  /** The new key, if one is drawn, differs from every key of the peer. */
  ghost predicate DeliverFits(x: Party, y: Party, freshPriv: nat) {
    forall i :: 0 <= i < |x.keys| ==> Pub(x, i) != NewKeyPair(freshPriv).pub
  }

  /** The state y is left in by accepting m under slot i of slots. */
  ghost predicate AcceptedAs(c: Primitives, y: Party, s: Flight, freshPriv: nat, slots: Slots, i: nat) {
    && i < 4 && |s.message.counter| == 8 && Extends(y.e.slots, slots) && CacheOk(c, y.e.(slots := slots))
    && Holds(slots[i], s.message.senderKeyId, s.message.recipientKeyId)
    && ReceiveStep(c, y, s, freshPriv) ==
       Moved(y, s.message, Accept(y.e, slots, i, s.message, freshPriv), Accepted(s.plain), freshPriv)
  }

  /** Once the keys, the MAC, the counter and the decryption are known, processData accepts. */
  lemma AcceptedWith(c: Primitives, y: Party, s: Flight, freshPriv: nat, l: Lookup)
    requires var m := s.message;
      |m.counter| == 8 && Parse(Serialize(m)) == Some((m, MacedPart(m)))
      && l == CalcDataKeys(c, y.e, m.recipientKeyId, m.senderKeyId)
    requires l.Found? && Extends(y.e.slots, l.slots) && CacheOk(c, y.e.(slots := l.slots))
    requires Holds(l.slots[l.index], s.message.senderKeyId, s.message.recipientKeyId)
    requires s.message.mac == c.hmac(l.slots[l.index].keys.recvMAC, DATA_HEADER + MacedPart(s.message))
    requires LexLess(l.slots[l.index].lastCtr, s.message.counter)
    requires Crypt(c, l.slots[l.index].keys.recvAES, s.message.counter, s.message.encrypted) == s.plain
    ensures AcceptedAs(c, y, s, freshPriv, l.slots, l.index)
  {
  }

  /** The message at the front of the queue finds its keys, its MAC and counter check out, and it
      decrypts to the plaintext that was sealed. */
  lemma DeliverAccepts(c: Primitives, x: Party, y: Party, q: seq<Flight>, freshPriv: nat)
    returns (slots: Slots, i: nat)
    requires LinkOk(c, x, y, q) && q != [] && KeysDiffer(x, y)
    ensures AcceptedAs(c, y, q[0], freshPriv, slots, i)
  {
    var s := q[0];
    var m := s.message;
    assert MessageOk(c, x, y, s);
    ParseSerialize(m);
    ReachIsWindow(c, x, y, s);
    LookupInWindow(c, y.e, m.recipientKeyId, m.senderKeyId);
    var l := CalcDataKeys(c, y.e, m.recipientKeyId, m.senderKeyId);
    slots, i := l.slots, l.index;
    KeysAgree(c, x, y, s, slots[i]);
    CounterIsNewer(x, y, q, slots, i);
    CryptTwice(c, slots[i].keys.recvAES, m.counter, s.plain);
    AcceptedWith(c, y, s, freshPriv, l);
  }

  /** The ids a message in reach names are in the receiver's window and stand for its keys. */
  lemma ReachIsWindow(c: Primitives, x: Party, y: Party, s: Flight)
    requires PartyOk(c, y) && Tracks(x, y) && MessageOk(c, x, y, s)
    ensures MyKeyFor(y.e, s.message.recipientKeyId) == Some(NewKeyPair(y.keys[s.to]))
    ensures TheirKeyFor(y.e, s.message.senderKeyId) == Some(Pub(x, s.from))
    ensures (s.message.recipientKeyId == y.e.myKeyId <==> s.to == Top(y))
    ensures (s.message.senderKeyId == y.e.theirKeyId <==> s.from == y.seen)
  {
    IdsDiffer(Top(y));
    IdsDiffer(y.seen);
  }

  lemma KeysAgree(c: Primitives, x: Party, y: Party, s: Flight, slot: Slot)
    requires PartyOk(c, y) && Tracks(x, y) && KeysDiffer(x, y) && MessageOk(c, x, y, s)
    requires Holds(slot, s.message.senderKeyId, s.message.recipientKeyId) && SlotOk(c, y.e, slot)
    ensures s.message.encrypted == Crypt(c, slot.keys.recvAES, s.message.counter, s.plain)
    ensures s.message.mac == c.hmac(slot.keys.recvMAC, DATA_HEADER + MacedPart(s.message))
  {
    ReachIsWindow(c, x, y, s);
    assert Pub(x, s.from) != Pub(y, s.to);
    DerivedKeysMirror(c, x.keys[s.from], y.keys[s.to]);
  }

  lemma CounterIsNewer(x: Party, y: Party, q: seq<Flight>, slots: Slots, i: nat)
    requires CountersBehind(x, y, q) && q != [] && i < 4 && slots[i].used && Extends(y.e.slots, slots)
    requires |q[0].message.counter| == 8 && 1 <= Num(q[0].message.counter)
    ensures LexLess(slots[i].lastCtr, q[0].message.counter)
  {
    ZeroCounter();
    LexLessIsNumeric(slots[i].lastCtr, q[0].message.counter);
    assert slots[i] == y.e.slots[i] || slots[i].lastCtr == ZERO_COUNTER;
  }

  /** The parts of the receiver that both links speak about. */
  ghost predicate Advances(y: Party, s: Flight, freshPriv: nat, y': Party) {
    && y'.e.myCounter == y.e.myCounter && y'.sent == y.sent
    && y'.keys == (if s.to == Top(y) then y.keys + [freshPriv] else y.keys)
    && y'.seen == (if s.from == y.seen then y.seen + 1 else y.seen)
  }

  /** The fields that accepting a message moves; the slots apart. */
  lemma AcceptFields(e: Endpoint, slots: Slots, i: nat, m: DataMessage, freshPriv: nat)
    requires i < 4 && |m.counter| == 8
    ensures var e' := Accept(e, slots, i, m, freshPriv);
            var mine, theirs := m.recipientKeyId == e.myKeyId, m.senderKeyId == e.theirKeyId;
            && e'.myCounter == e.myCounter
            && e'.myKeyId == (if mine then Next(e.myKeyId) else e.myKeyId)
            && e'.myCurrent == (if mine then NewKeyPair(freshPriv) else e.myCurrent)
            && e'.myLast == (if mine then e.myCurrent else e.myLast)
            && e'.theirKeyId == (if theirs then Next(e.theirKeyId) else e.theirKeyId)
            && e'.theirCurrent == (if theirs then m.nextDH else e.theirCurrent)
            && e'.theirLast == (if theirs then Some(e.theirCurrent) else e.theirLast)
  {
  }

  lemma AcceptAdvances(c: Primitives, x: Party, y: Party, s: Flight, freshPriv: nat, slots: Slots, i: nat, y': Party)
    requires PartyOk(c, y) && Tracks(x, y) && MessageOk(c, x, y, s) && i < 4
    requires y' == Moved(y, s.message, Accept(y.e, slots, i, s.message, freshPriv), Accepted(s.plain), freshPriv)
    ensures Advances(y, s, freshPriv, y')
  {
    ReachIsWindow(c, x, y, s);
    AcceptFields(y.e, slots, i, s.message, freshPriv);
  }

  /** The new key ids and keys are those of the history. */
  lemma AdvancedIds(c: Primitives, y: Party, s: Flight, freshPriv: nat, slots: Slots, i: nat, y': Party)
    requires PartyOk(c, y) && i < 4 && |s.message.counter| == 8 && y.seen >= 1
    requires s.message.recipientKeyId == y.e.myKeyId <==> s.to == Top(y)
    requires s.message.senderKeyId == y.e.theirKeyId <==> s.from == y.seen
    requires y'.e == Accept(y.e, slots, i, s.message, freshPriv) && Advances(y, s, freshPriv, y')
    ensures y'.e.myKeyId == Id(Top(y')) && y'.e.theirKeyId == Id(y'.seen)
    ensures y'.e.myCurrent == NewKeyPair(y'.keys[Top(y')]) && y'.e.myLast == NewKeyPair(y'.keys[Top(y') - 1])
  {
    AcceptFields(y.e, slots, i, s.message, freshPriv);
    IdsDiffer(Top(y));
    IdsDiffer(y.seen);
  }

  lemma AcceptKeepsParty(c: Primitives, x: Party, y: Party, s: Flight, freshPriv: nat, slots: Slots, i: nat, y': Party)
    requires PartyOk(c, y) && Tracks(x, y) && MessageOk(c, x, y, s) && i < 4 && CacheOk(c, y.e.(slots := slots))
    requires y' == Moved(y, s.message, Accept(y.e, slots, i, s.message, freshPriv), Accepted(s.plain), freshPriv)
    ensures PartyOk(c, y') && Advances(y, s, freshPriv, y')
  {
    ReachIsWindow(c, x, y, s);
    AcceptAdvances(c, x, y, s, freshPriv, slots, i, y');
    AdvancedIds(c, y, s, freshPriv, slots, i, y');
    AcceptKeeps(c, y.e, slots, i, s.message, freshPriv);
  }

  lemma AcceptKeepsTracks(c: Primitives, x: Party, y: Party, s: Flight, freshPriv: nat, slots: Slots, i: nat, y': Party)
    requires PartyOk(c, x) && PartyOk(c, y) && Tracks(x, y) && Tracks(y, x) && MessageOk(c, x, y, s) && i < 4
    requires y' == Moved(y, s.message, Accept(y.e, slots, i, s.message, freshPriv), Accepted(s.plain), freshPriv)
    ensures Tracks(x, y') && Tracks(y', x)
  {
    AcceptAdvances(c, x, y, s, freshPriv, slots, i, y');
    ReachIsWindow(c, x, y, s);
    AcceptFields(y.e, slots, i, s.message, freshPriv);
  }

  /** Every used slot of the receiver afterwards holds an old counter, zero, or the one accepted. */
  lemma AcceptCounters(e: Endpoint, slots: Slots, i: nat, m: DataMessage, freshPriv: nat, j: nat)
    requires i < 4 && j < 4 && |m.counter| == 8 && Extends(e.slots, slots)
    ensures var t := Accept(e, slots, i, m, freshPriv).slots[j];
            t.used ==> t.lastCtr == m.counter || t.lastCtr == ZERO_COUNTER
                       || (e.slots[j].used && t.lastCtr == e.slots[j].lastCtr)
  {
  }

  lemma AcceptedCounters(c: Primitives, y: Party, s: Flight, freshPriv: nat, slots: Slots, i: nat, j: nat)
    requires AcceptedAs(c, y, s, freshPriv, slots, i) && j < 4
    ensures var t := ReceiveStep(c, y, s, freshPriv).e.slots[j];
            t.used ==> t.lastCtr == s.message.counter || t.lastCtr == ZERO_COUNTER
                       || (y.e.slots[j].used && t.lastCtr == y.e.slots[j].lastCtr)
  {
    AcceptCounters(y.e, slots, i, s.message, freshPriv, j);
  }

  lemma DeliverKeepsLink(c: Primitives, x: Party, y: Party, q: seq<Flight>, freshPriv: nat)
    requires LinkOk(c, x, y, q) && q != [] && Tracks(y, x) && KeysDiffer(x, y) && DeliverFits(x, y, freshPriv)
    ensures LinkOk(c, x, ReceiveStep(c, y, q[0], freshPriv), q[1..])
    ensures ReceiveStep(c, y, q[0], freshPriv).got == y.got + [Accepted(q[0].plain)]
  {
    var slots, i := DeliverAccepts(c, x, y, q, freshPriv);
    var y' := ReceiveStep(c, y, q[0], freshPriv);
    assert MessageOk(c, x, y, q[0]);
    AcceptKeepsParty(c, x, y, q[0], freshPriv, slots, i, y');
    AcceptKeepsTracks(c, x, y, q[0], freshPriv, slots, i, y');
    RestStays(c, x, y, q, freshPriv, y');
    DeliverKeepsCounters(c, x, y, q, freshPriv, slots, i);
    DeliverKeepsOrder(x, y, q, y');
  }

  /** FIFO order keeps the messages behind the delivered one inside the moved window. */
  lemma RestStays(c: Primitives, x: Party, y: Party, q: seq<Flight>, freshPriv: nat, y': Party)
    requires LinkOk(c, x, y, q) && q != [] && Tracks(y, x) && PartyOk(c, y') && Advances(y, q[0], freshPriv, y')
    ensures forall j :: 0 <= j < |q[1..]| ==> MessageOk(c, x, y', q[1..][j])
  {
    assert MessageOk(c, x, y, q[0]);
    forall j | 0 <= j < |q[1..]|
      ensures MessageOk(c, x, y', q[1..][j])
    {
      assert MessageOk(c, x, y, q[j + 1]);
      MessageStays(c, x, y, x, y', q[j + 1]);
    }
  }

  lemma DeliveredCounter(c: Primitives, x: Party, y: Party, q: seq<Flight>, freshPriv: nat, slots: Slots, i: nat,
                         k: nat)
    requires LinkOk(c, x, y, q) && q != [] && AcceptedAs(c, y, q[0], freshPriv, slots, i) && k < 4
    requires ReceiveStep(c, y, q[0], freshPriv).e.slots[k].used
    ensures var n := Num(ReceiveStep(c, y, q[0], freshPriv).e.slots[k].lastCtr);
            n < Num(x.e.myCounter) && forall j :: 1 <= j < |q| ==> n < Num(q[j].message.counter)
  {
    ZeroCounter();
    AcceptedCounters(c, y, q[0], freshPriv, slots, i, k);
    assert forall j :: 0 <= j < |q| ==> MessageOk(c, x, y, q[j]);
  }

  lemma DeliverKeepsCounters(c: Primitives, x: Party, y: Party, q: seq<Flight>, freshPriv: nat, slots: Slots, i: nat)
    requires LinkOk(c, x, y, q) && q != [] && AcceptedAs(c, y, q[0], freshPriv, slots, i)
    ensures CountersBehind(x, ReceiveStep(c, y, q[0], freshPriv), q[1..])
  {
    var y' := ReceiveStep(c, y, q[0], freshPriv);
    forall k | 0 <= k < 4 && y'.e.slots[k].used
      ensures Num(y'.e.slots[k].lastCtr) < Num(x.e.myCounter)
      ensures forall j :: 0 <= j < |q[1..]| ==> Num(y'.e.slots[k].lastCtr) < Num(q[1..][j].message.counter)
    {
      DeliveredCounter(c, x, y, q, freshPriv, slots, i, k);
    }
  }

  lemma DeliverKeepsOrder(x: Party, y: Party, q: seq<Flight>, y': Party)
    requires Ordered(q) && Delivered(x, y, q) && q != [] && y'.got == y.got + [Accepted(q[0].plain)]
    ensures Ordered(q[1..]) && Delivered(x, y', q[1..])
  {
  }

  lemma DeliverKeepsReverse(c: Primitives, x: Party, y: Party, q: seq<Flight>, r: seq<Flight>, freshPriv: nat)
    requires LinkOk(c, x, y, q) && LinkOk(c, y, x, r) && q != [] && KeysDiffer(x, y) && DeliverFits(x, y, freshPriv)
    ensures LinkOk(c, ReceiveStep(c, y, q[0], freshPriv), x, r)
    ensures KeysDiffer(x, ReceiveStep(c, y, q[0], freshPriv))
  {
    var slots, i := DeliverAccepts(c, x, y, q, freshPriv);
    var y' := ReceiveStep(c, y, q[0], freshPriv);
    assert MessageOk(c, x, y, q[0]);
    AcceptKeepsParty(c, x, y, q[0], freshPriv, slots, i, y');
    AcceptKeepsTracks(c, x, y, q[0], freshPriv, slots, i, y');
    AdvancedKeepsReverse(c, x, y, r, q[0], freshPriv, y');
  }

  lemma AdvancedKeepsReverse(c: Primitives, x: Party, y: Party, r: seq<Flight>, s: Flight, freshPriv: nat, y': Party)
    requires LinkOk(c, y, x, r) && KeysDiffer(x, y) && DeliverFits(x, y, freshPriv)
    requires PartyOk(c, y') && Tracks(y', x) && Advances(y, s, freshPriv, y')
    ensures LinkOk(c, y', x, r) && KeysDiffer(x, y')
  {
    FreshKeyDiffers(x, y, freshPriv, y');
    ReverseStays(c, x, y, r, s, freshPriv, y');
  }

  lemma FreshKeyDiffers(x: Party, y: Party, freshPriv: nat, y': Party)
    requires KeysDiffer(x, y) && DeliverFits(x, y, freshPriv) && (y'.keys == y.keys || y'.keys == y.keys + [freshPriv])
    ensures KeysDiffer(x, y')
  {
    forall i, j | 0 <= i < |x.keys| && 0 <= j < |y'.keys|
      ensures Pub(x, i) != Pub(y', j)
    {
      assert j < |y.keys| ==> Pub(x, i) != Pub(y, j);
    }
  }

  lemma ReverseStays(c: Primitives, x: Party, y: Party, r: seq<Flight>, s: Flight, freshPriv: nat, y': Party)
    requires LinkOk(c, y, x, r) && PartyOk(c, y') && Tracks(y', x) && Advances(y, s, freshPriv, y')
    ensures LinkOk(c, y', x, r)
  {
    forall j | 0 <= j < |r|
      ensures MessageOk(c, y', x, r[j])
    {
      assert MessageOk(c, y, x, r[j]);
      MessageStays(c, y, x, y', x, r[j]);
    }
  }

  // ---- runs of the two parties ----

  datatype Operation = SendOp(text: seq<byte>, extra: Option<Tlv>) | DeliverOp(freshPriv: nat)

  /** The operation on the link from a to b or, when !fromA, from b to a. */
  datatype Action = Action(fromA: bool, op: Operation)

  function Mirror(s: System): System {
    System(s.b, s.a, s.ba, s.ab)
  }

  function ApplyAB(c: Primitives, s: System, op: Operation): System {
    match op
    case SendOp(text, extra) =>
      var (a, ab) := SendStep(c, s.a, s.ab, text, extra);
      s.(a := a, ab := ab)
    case DeliverOp(freshPriv) =>
      if s.ab == [] then s else s.(b := ReceiveStep(c, s.b, s.ab[0], freshPriv), ab := s.ab[1..])
  }

  function Apply(c: Primitives, s: System, action: Action): System {
    if action.fromA then ApplyAB(c, s, action.op) else Mirror(ApplyAB(c, Mirror(s), action.op))
  }

  ghost predicate FitsAB(c: Primitives, s: System, op: Operation) {
    match op
    case SendOp(text, extra) => SendFits(c, s.a, text, extra)
    case DeliverOp(freshPriv) => DeliverFits(s.a, s.b, freshPriv)
  }

  /** No counter or length wraps, and a fresh key is not one of the peer's. */
  ghost predicate Fits(c: Primitives, s: System, action: Action) {
    FitsAB(c, if action.fromA then s else Mirror(s), action.op)
  }

  lemma SendKeepsSystem(c: Primitives, s: System, text: seq<byte>, extra: Option<Tlv>)
    requires SystemOk(c, s) && SendFits(c, s.a, text, extra)
    ensures var (a, ab) := SendStep(c, s.a, s.ab, text, extra); SystemOk(c, s.(a := a, ab := ab))
  {
    SendKeepsLink(c, s.a, s.b, s.ab, text, extra);
    SendKeepsReverse(c, s.a, s.b, s.ab, s.ba, text, extra);
    SendKeepsParty(c, s.a, s.ab, text, extra);
    var (a, _) := SendStep(c, s.a, s.ab, text, extra);
    SameKeysDiffer(s.a, s.b, a);
  }

  lemma SameKeysDiffer(x: Party, y: Party, x': Party)
    requires KeysDiffer(x, y) && x'.keys == x.keys
    ensures KeysDiffer(x', y)
  {
    forall i, j | 0 <= i < |x'.keys| && 0 <= j < |y.keys|
      ensures Pub(x', i) != Pub(y, j)
    {
      assert Pub(x, i) != Pub(y, j);
    }
  }

  lemma DeliverKeepsSystem(c: Primitives, s: System, freshPriv: nat)
    requires SystemOk(c, s) && DeliverFits(s.a, s.b, freshPriv) && s.ab != []
    ensures SystemOk(c, s.(b := ReceiveStep(c, s.b, s.ab[0], freshPriv), ab := s.ab[1..]))
  {
    DeliverKeepsLink(c, s.a, s.b, s.ab, freshPriv);
    DeliverKeepsReverse(c, s.a, s.b, s.ab, s.ba, freshPriv);
  }

  lemma ApplyABKeeps(c: Primitives, s: System, op: Operation)
    requires SystemOk(c, s) && FitsAB(c, s, op)
    ensures SystemOk(c, ApplyAB(c, s, op))
  {
    if op.SendOp? {
      SendKeepsSystem(c, s, op.text, op.extra);
    } else if s.ab != [] {
      DeliverKeepsSystem(c, s, op.freshPriv);
    }
  }

  lemma MirrorOk(c: Primitives, s: System)
    requires SystemOk(c, s)
    ensures SystemOk(c, Mirror(s))
  {
  }

  function Steps(c: Primitives, s: System, actions: seq<Action>): System {
    if actions == [] then s else Apply(c, Steps(c, s, actions[..|actions| - 1]), actions[|actions| - 1])
  }

  ghost predicate RunFits(c: Primitives, s: System, actions: seq<Action>) {
    actions != [] ==>
      && RunFits(c, s, actions[..|actions| - 1])
      && Fits(c, Steps(c, s, actions[..|actions| - 1]), actions[|actions| - 1])
  }

  // ---- the state a completed key exchange leaves ----

  /** generateRevealSig or generateSig, and the peer's key taken from its signature message: key id
      1 is the exchange's own key, and the first rotation has drawn key id 2. */
  function Established(agreed: nat, second: nat, peerPub: nat, counter: Counter): Endpoint {
    var before := Endpoint(1, NewKeyPair(agreed), NewKeyPair(0), 1, peerPub, None, NO_SLOTS, counter, []);
    var after := RotateMine(before, second);
    after.(myCounter := Incremented(counter))
  }

  function NewParty(agreed: nat, second: nat, peerPub: nat, counter: Counter): Party {
    Party(Established(agreed, second, peerPub, counter), [agreed, agreed, second], 1, [], [])
  }

  /** Both ends right after the exchange, with nothing in flight. */
  function Start(x: nat, x2: nat, y: nat, y2: nat, ctrA: Counter, ctrB: Counter): System {
    System(NewParty(x, x2, NewKeyPair(y).pub, ctrA), NewParty(y, y2, NewKeyPair(x).pub, ctrB), [], [])
  }

  lemma StartOk(c: Primitives, x: nat, x2: nat, y: nat, y2: nat, ctrA: Counter, ctrB: Counter)
    requires Num(ctrA) + 1 < TWO64 && Num(ctrB) + 1 < TWO64
    requires KeysDiffer(Start(x, x2, y, y2, ctrA, ctrB).a, Start(x, x2, y, y2, ctrA, ctrB).b)
    ensures SystemOk(c, Start(x, x2, y, y2, ctrA, ctrB))
  {
    var s := Start(x, x2, y, y2, ctrA, ctrB);
    CounterAdvances(ctrA);
    CounterAdvances(ctrB);
    assert forall i :: 0 <= i < 4 ==> !s.a.e.slots[i].used && !s.b.e.slots[i].used;
  }

  /** The ratchet never loses step: after any run from a completed key exchange, each side has given
      exactly one verdict per delivered message, every verdict accepts, the accepted plaintexts are
      the sent ones in order, and those not yet delivered are the queues. */
  lemma {:induction false} NeverOutOfStep(c: Primitives, s: System, actions: seq<Action>)
    requires SystemOk(c, s) && RunFits(c, s, actions)
    ensures var t := Steps(c, s, actions);
            && SystemOk(c, t)
            && Delivered(t.a, t.b, t.ab) && Delivered(t.b, t.a, t.ba)
    decreases |actions|
  {
    if actions != [] {
      var prefix, action := actions[..|actions| - 1], actions[|actions| - 1];
      NeverOutOfStep(c, s, prefix);
      var t := Steps(c, s, prefix);
      if action.fromA {
        ApplyABKeeps(c, t, action.op);
      } else {
        MirrorOk(c, t);
        ApplyABKeeps(c, Mirror(t), action.op);
        MirrorOk(c, ApplyAB(c, Mirror(t), action.op));
      }
    }
  }

  /** In particular neither side ever reports a key-id, slot, MAC or counter error. */
  lemma EveryVerdictAccepts(c: Primitives, x: nat, x2: nat, y: nat, y2: nat, ctrA: Counter, ctrB: Counter,
                            actions: seq<Action>, i: nat)
    requires Num(ctrA) + 1 < TWO64 && Num(ctrB) + 1 < TWO64
    requires KeysDiffer(Start(x, x2, y, y2, ctrA, ctrB).a, Start(x, x2, y, y2, ctrA, ctrB).b)
    requires RunFits(c, Start(x, x2, y, y2, ctrA, ctrB), actions)
    ensures var t := Steps(c, Start(x, x2, y, y2, ctrA, ctrB), actions);
            && (i < |t.b.got| ==> i < |t.a.sent| && t.b.got[i] == Accepted(t.a.sent[i]))
            && (i < |t.a.got| ==> i < |t.b.sent| && t.a.got[i] == Accepted(t.b.sent[i]))
  {
    StartOk(c, x, x2, y, y2, ctrA, ctrB);
    NeverOutOfStep(c, Start(x, x2, y, y2, ctrA, ctrB), actions);
  }

  // ---- why the counter must not wrap ----

  /** The message after the one with the last counter has counter zero. */
  lemma CounterWraps(c: Primitives, e: Endpoint, text: seq<byte>, extra: Option<Tlv>)
    requires Num(e.myCounter) + 1 == TWO64 && Send(c, e, text, extra).Some?
    ensures var (e', s) := Send(c, e, text, extra).value; s.message.counter == e.myCounter && Num(e'.myCounter) == 0
  {
    IncrementedValue(e.myCounter);
    assert Pow256(8) == TWO64;
  }

  /** And a message with counter zero is refused in every state. */
  lemma ZeroCounterRefused(c: Primitives, e: Endpoint, m: DataMessage, maced: seq<byte>, freshPriv: nat)
    requires |m.counter| == 8 && Num(m.counter) == 0
    ensures !ReceiveParsed(c, e, m, maced, freshPriv).1.Accepted?
  {
    var l := CalcDataKeys(c, e, m.recipientKeyId, m.senderKeyId);
    if l.Found? {
      LexLessIsNumeric(l.slots[l.index].lastCtr, m.counter);
    }
  }
}
