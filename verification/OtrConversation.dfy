/** The data phase of golang-x-crypto/otr/otr.go in the source's own form: a conversation object
    whose methods update its key ids, key slots and counter in place. Each method is proved to do
    what the functions of OtrRatchet say. */
module OtrConversation {
  import opened Bytes
  import opened OtrCodec
  import opened OtrRatchet

  /** One round of the eviction loop. */
  lemma RetiredStep(slots: seq<Slot>, i: nat, ours: bool, id: nat)
    requires i < |slots|
    ensures RetiredMACs(slots[..i + 1], ours, id) ==
            RetiredMACs(slots[..i], ours, id) + if Retired(slots[i], ours, id) then slots[i].keys.recvMAC else []
  {
    assert slots[..i + 1][..i] == slots[..i];
  }

  class Conversation {
    const prims: Primitives
    var myKeyId: nat
    var myCurrent: KeyPair
    var myLast: KeyPair
    var theirKeyId: nat
    var theirCurrent: nat
    var theirLast: Option<nat>
    const keySlots: array<Slot>
    const myCounter: array<byte>
    var oldMACs: seq<byte>

    ghost predicate Valid()
      reads this
    {
      keySlots.Length == 4 && myCounter.Length == 8
    }

    ghost function State(): Endpoint
      reads this, keySlots, myCounter
      requires Valid()
    {
      Endpoint(myKeyId, myCurrent, myLast, theirKeyId, theirCurrent, theirLast, keySlots[..], myCounter[..], oldMACs)
    }

    /** The state a completed key exchange leaves. */
    constructor (prims: Primitives, e: Endpoint)
      ensures Valid() && State() == e && this.prims == prims && fresh(keySlots) && fresh(myCounter)
    {
      this.prims := prims;
      myKeyId, myCurrent, myLast := e.myKeyId, e.myCurrent, e.myLast;
      theirKeyId, theirCurrent, theirLast, oldMACs := e.theirKeyId, e.theirCurrent, e.theirLast, e.oldMACs;
      var slots := new Slot[4](i requires 0 <= i < 4 => e.slots[i]);
      var counter := new byte[8](i requires 0 <= i < 8 => e.myCounter[i]);
      keySlots, myCounter := slots, counter;
      new;
      assert keySlots[..] == e.slots;
      assert myCounter[..] == e.myCounter;
    }

    /** Free one slot if it uses the retired key id, and keep its MAC key. */
    method EvictSlot(i: nat, ours: bool, id: nat)
      requires keySlots.Length == 4 && i < 4
      modifies this`oldMACs, keySlots
      ensures forall j :: 0 <= j < 4 && j != i ==> keySlots[j] == old(keySlots[j])
      ensures var s := old(keySlots[i]);
              if Retired(s, ours, id) then keySlots[i] == s.(used := false) && oldMACs == old(oldMACs) + s.keys.recvMAC
              else keySlots[i] == s && oldMACs == old(oldMACs)
    {
      if Retired(keySlots[i], ours, id) {
        oldMACs := oldMACs + keySlots[i].keys.recvMAC;
        keySlots[i] := keySlots[i].(used := false);
      }
    }

    /** The loop over the four slots. */
    method EvictAll(ours: bool, id: nat)
      requires keySlots.Length == 4
      modifies this`oldMACs, keySlots
      ensures keySlots[..] == Evict(old(keySlots[..]), ours, id)
      ensures oldMACs == old(oldMACs) + RetiredMACs(old(keySlots[..]), ours, id)
    {
      ghost var was := keySlots[..];
      ghost var evicted := Evict(was, ours, id);
      for i := 0 to 4
        invariant forall j :: 0 <= j < 4 ==> keySlots[j] == if j < i then evicted[j] else was[j]
        invariant oldMACs == old(oldMACs) + RetiredMACs(was[..i], ours, id)
      {
        RetiredStep(was, i, ours, id);
        EvictSlot(i, ours, id);
      }
      assert was[..4] == was;
    }

    /** Free the slots that use a retired key id and keep their MAC keys for publication. */
    method EvictSlots(ours: bool, id: nat)
      requires Valid()
      modifies this`oldMACs, keySlots
      ensures State() == old(State()).(slots := Evict(old(keySlots[..]), ours, id),
                                       oldMACs := old(oldMACs) + RetiredMACs(old(keySlots[..]), ours, id))
    {
      EvictAll(ours, id);
    }

    method RotateDHKeys(freshPriv: nat)
      requires Valid()
      modifies this, keySlots
      ensures State() == RotateMine(old(State()), freshPriv)
    {
      EvictSlots(true, Previous(myKeyId));
      myLast := myCurrent;
      myCurrent := NewKeyPair(freshPriv);
      myKeyId := Next(myKeyId);
    }

    /** Find or compute the keys for a pair of key ids; the result is a slot index. */
    method CalcKeys(my: nat, their: nat) returns (r: Lookup)
      requires Valid()
      modifies keySlots
      ensures r == CalcDataKeys(prims, old(State()), my, their)
      ensures State() == old(State()).(slots := if r.Found? then r.slots else old(keySlots[..]))
    {
      var i := 0;
      while i < 4
        invariant 0 <= i <= 4
        invariant forall j :: 0 <= j < i ==> !Holds(keySlots[j], their, my)
      {
        if Holds(keySlots[i], their, my) {
          return Found(keySlots[..], i);
        }
        i := i + 1;
      }
      i := 0;
      while i < 4 && keySlots[i].used
        invariant 0 <= i <= 4
        invariant forall j :: 0 <= j < i ==> keySlots[j].used
      {
        i := i + 1;
      }
      if i == 4 {
        return Failed(NoSlots);
      }
      var mine := if my == myKeyId then Some(myCurrent) else if my == Previous(myKeyId) then Some(myLast) else None;
      var theirs := if their == theirKeyId then Some(theirCurrent)
                    else if their == Previous(theirKeyId) then theirLast else None;
      if mine.None? || theirs.None? {
        return Failed(UnknownKeyId);
      }
      ghost var was := keySlots[..];
      keySlots[i] := Slot(true, their, my, DeriveKeys(prims, mine.value, theirs.value), ZERO_COUNTER);
      assert keySlots[..] == was[i := keySlots[i]];
      return Found(keySlots[..], i);
    }

    /** Decrypt and check one data message. */
    method ProcessData(wire: seq<byte>, freshPriv: nat) returns (verdict: Received)
      requires Valid()
      modifies this, keySlots
      ensures (State(), verdict) == Receive(prims, old(State()), wire, freshPriv)
    {
      var parsed := Parse(wire);
      if parsed.None? {
        return Rejected(Corrupt);
      }
      var (m, maced) := parsed.value;
      var ignoreErrors := m.flags % 2 == 1;
      var l := CalcKeys(m.recipientKeyId, m.senderKeyId);
      if l.Failed? {
        return if ignoreErrors then Ignored else Rejected(l.error);
      }
      var slot := keySlots[l.index];
      if prims.hmac(slot.keys.recvMAC, DATA_HEADER + maced) != m.mac {
        return if ignoreErrors then Ignored else Rejected(BadMAC);
      }
      if !LexLess(slot.lastCtr, m.counter) {
        return Rejected(CounterRegressed);
      }
      verdict := Accepted(Crypt(prims, slot.keys.recvAES, m.counter, m.encrypted));
      RecordAndRotate(l.index, m, freshPriv);
    }

    /** The changes an accepted message makes: its slot's counter, then the key rotations. */
    method RecordAndRotate(i: nat, m: DataMessage, freshPriv: nat)
      requires Valid() && i < 4 && |m.counter| == 8
      modifies this, keySlots
      ensures State() == Accept(old(State()), old(keySlots[..]), i, m, freshPriv)
    {
      ghost var was := keySlots[..];
      keySlots[i] := keySlots[i].(lastCtr := m.counter);
      assert keySlots[..] == was[i := was[i].(lastCtr := m.counter)];
      if m.recipientKeyId == myKeyId {
        RotateDHKeys(freshPriv);
      }
      if m.senderKeyId == theirKeyId {
        EvictSlots(false, Previous(theirKeyId));
        theirLast := Some(theirCurrent);
        theirKeyId := Next(theirKeyId);
        theirCurrent := m.nextDH;
      }
    }

    /** The padded plaintext that generateData encrypts. */
    method BuildPlaintext(text: seq<byte>, extra: Option<Tlv>) returns (plain: seq<byte>)
      ensures plain == Plaintext(text, extra)
    {
      plain := text + [0];
      var padding := PADDING_GRANULARITY - (|plain| + 4) % PADDING_GRANULARITY;
      plain := plain + U16(0) + U16(padding);
      ghost var start := plain;
      for i := 0 to padding
        invariant plain == start + Zeros(i)
      {
        plain := plain + [0];
      }
      if extra.Some? {
        plain := plain + (U16(extra.value.typ) + U16(|extra.value.data|) + extra.value.data);
      } else {
        assert plain == plain + [];
      }
    }

    /** Encrypt and authenticate one message; None stands for the panic without sending keys. */
    method GenerateData(text: seq<byte>, extra: Option<Tlv>) returns (sent: Option<Sent>)
      requires Valid()
      modifies this`oldMACs, keySlots, myCounter
      ensures match Send(prims, old(State()), text, extra)
              case None => sent.None? && State() == old(State())
              case Some((e, s)) => sent == Some(s) && State() == e
    {
      var l := CalcKeys(Previous(myKeyId), theirKeyId);
      if l.Failed? {
        return None;
      }
      var plain := BuildPlaintext(text, extra);
      var k := keySlots[l.index].keys;
      var bare := DataMessage(0, Previous(myKeyId), theirKeyId, myCurrent.pub, myCounter[..],
                              Crypt(prims, k.sendAES, myCounter[..], plain), [], oldMACs);
      var message := bare.(mac := prims.hmac(k.sendMAC, DATA_HEADER + MacedPart(bare)));
      oldMACs := [];
      IncCounter(myCounter);
      return Some(Sent(message, plain));
    }
  }
}
