/** The data phase of an OTR conversation (golang-x-crypto/otr/otr.go) as functions of one
    endpoint's state: key derivation, the four-entry key-slot cache, sending, receiving and the
    two key rotations. The hash, the MAC and the AES keystream are parameters. */
module OtrRatchet {
  import opened Bytes
  import opened ModArith
  import opened OtrCodec
  import Bitwise

  type Digest = s: seq<byte> | |s| == 20 witness seq(20, _ => 0)
  type Counter = s: seq<byte> | |s| == 8 witness seq(8, _ => 0)

  /** SHA-1, HMAC-SHA1 and one byte of the AES-CTR keystream of a key, a counter and a position. */
  datatype Primitives = Primitives(
    sha1: seq<byte> -> Digest,
    hmac: (seq<byte>, seq<byte>) -> Digest,
    keystream: (seq<byte>, seq<byte>, nat) -> byte)

  const GENERATOR: nat := 2
  const GROUP_PRIME: nat := 0xFFFFFFFFFFFFFFFFC90FDAA22168C234C4C6628B80DC1CD129024E088A67CC74020BBEA63B139B22514A08798E3404DDEF9519B3CD3A431B302B0A6DF25F14374FE1356D6D51C245E485B576625E7EC6F44C42E9A637ED6B0BFF5CB6F406B7EDEE386BFB5A899FA5AE9F24117C4B1FE649286651ECE45B3DC2007CB8A163BF0598DA48361C55D39A69163FA8FD24CF5F83655D23DCA3AD961C62F356208552BB9ED529077096966D670C354E4ABC9804F1746C08CA237327FFFFFFFFFFFFFFFF
  const ZERO_COUNTER: Counter := [0, 0, 0, 0, 0, 0, 0, 0]
  const DATA_HEADER: seq<byte> := [0, 2, 3]
  const PADDING_GRANULARITY: nat := 256

  function ModExp(b: nat, e: nat): nat {
    Exp(b, e, GROUP_PRIME)
  }

  datatype KeyPair = KeyPair(priv: nat, pub: nat)

  function NewKeyPair(priv: nat): KeyPair {
    KeyPair(priv, ModExp(GENERATOR, priv))
  }

  datatype Keys = Keys(sendAES: seq<byte>, recvAES: seq<byte>, sendMAC: Digest, recvMAC: Digest)

  datatype Slot = Slot(used: bool, theirKeyId: nat, myKeyId: nat, keys: Keys, lastCtr: Counter)

  const ZERO_DIGEST: Digest := [0, 0, 0, 0, 0, 0, 0, 0, 0, 0, 0, 0, 0, 0, 0, 0, 0, 0, 0, 0]
  const EMPTY_SLOT := Slot(false, 0, 0, Keys([], [], ZERO_DIGEST, ZERO_DIGEST), ZERO_COUNTER)

  type Slots = s: seq<Slot> | |s| == 4 witness [EMPTY_SLOT, EMPTY_SLOT, EMPTY_SLOT, EMPTY_SLOT]

  const NO_SLOTS: Slots := [EMPTY_SLOT, EMPTY_SLOT, EMPTY_SLOT, EMPTY_SLOT]

  datatype Endpoint = Endpoint(
    myKeyId: nat, myCurrent: KeyPair, myLast: KeyPair,
    theirKeyId: nat, theirCurrent: nat, theirLast: Option<nat>,
    slots: Slots, myCounter: Counter, oldMACs: seq<byte>)

  /** Key ids are 32-bit and wrap. */
  function Previous(id: nat): nat { if id == 0 then TWO32 - 1 else id - 1 }
  function Next(id: nat): nat { if id == TWO32 - 1 then 0 else id + 1 }

  // ---- key derivation ----

  function AesKey(c: Primitives, prefix: byte, secret: nat): seq<byte> {
    c.sha1([prefix] + AppendMPI(secret))[..16]
  }

  /** The end with the larger public value sends under prefix 1 and receives under prefix 2. */
  function DeriveKeys(c: Primitives, mine: KeyPair, theirPub: nat): Keys {
    var secret := ModExp(theirPub, mine.priv);
    var sendPrefix, recvPrefix := if mine.pub > theirPub then 1 else 2, if mine.pub > theirPub then 2 else 1;
    var sendAES, recvAES := AesKey(c, sendPrefix, secret), AesKey(c, recvPrefix, secret);
    Keys(sendAES, recvAES, c.sha1(sendAES), c.sha1(recvAES))
  }

  /** Two ends with different public values derive the same keys with the roles swapped. */
  lemma DerivedKeysMirror(c: Primitives, x: nat, y: nat)
    requires NewKeyPair(x).pub != NewKeyPair(y).pub
    ensures var k, l := DeriveKeys(c, NewKeyPair(x), NewKeyPair(y).pub),
        DeriveKeys(c, NewKeyPair(y), NewKeyPair(x).pub);
            k.sendAES == l.recvAES && k.sendMAC == l.recvMAC && k.recvAES == l.sendAES && k.recvMAC == l.sendMAC
  {
    ExpCommutes(GENERATOR, x, y, GROUP_PRIME);
  }

  // ---- the key-slot cache ----

  predicate Holds(s: Slot, their: nat, my: nat) {
    s.used && s.theirKeyId == their && s.myKeyId == my
  }

  /** The first slot for the pair, or the number of slots. */
  function FindSlot(slots: seq<Slot>, their: nat, my: nat): (i: nat)
    ensures i <= |slots|
    ensures i < |slots| ==> Holds(slots[i], their, my)
    ensures forall j :: 0 <= j < i ==> !Holds(slots[j], their, my)
  {
    if slots == [] || Holds(slots[0], their, my) then 0 else 1 + FindSlot(slots[1..], their, my)
  }

  /** The first free slot, or the number of slots. */
  function FindFree(slots: seq<Slot>): (i: nat)
    ensures i <= |slots|
    ensures i < |slots| ==> !slots[i].used
    ensures forall j :: 0 <= j < i ==> slots[j].used
  {
    if slots == [] || !slots[0].used then 0 else 1 + FindFree(slots[1..])
  }

  datatype Error = Corrupt | NoSlots | UnknownKeyId | BadMAC | CounterRegressed

  datatype Lookup = Found(slots: Slots, index: nat) | Failed(error: Error)

  function MyKeyFor(e: Endpoint, my: nat): Option<KeyPair> {
    if my == e.myKeyId then Some(e.myCurrent)
    else if my == Previous(e.myKeyId) then Some(e.myLast)
    else None
  }

  function TheirKeyFor(e: Endpoint, their: nat): Option<nat> {
    if their == e.theirKeyId then Some(e.theirCurrent)
    else if their == Previous(e.theirKeyId) then e.theirLast
    else None
  }

  function CalcDataKeys(c: Primitives, e: Endpoint, my: nat, their: nat): (l: Lookup)
    ensures l.Found? ==> l.index < 4 && Holds(l.slots[l.index], their, my)
  {
    var hit := FindSlot(e.slots, their, my);
    if hit < 4 then Found(e.slots, hit)
    else
      var free := FindFree(e.slots);
      if free == 4 then Failed(NoSlots)
      else
        match (MyKeyFor(e, my), TheirKeyFor(e, their))
        case (Some(mine), Some(theirs)) =>
          Found(e.slots[free := Slot(true, their, my, DeriveKeys(c, mine, theirs), ZERO_COUNTER)], free)
        case _ => Failed(UnknownKeyId)
  }

  // ---- rotation ----

  predicate Retired(s: Slot, ours: bool, id: nat) {
    s.used && (if ours then s.myKeyId else s.theirKeyId) == id
  }

  /** Free the slots that use a retired key id. */
  function Evict(slots: seq<Slot>, ours: bool, id: nat): (r: seq<Slot>)
    ensures |r| == |slots|
    ensures forall i :: 0 <= i < |slots| ==>
              r[i] == if Retired(slots[i], ours, id) then slots[i].(used := false) else slots[i]
  {
    if slots == [] then []
    else
      var last := slots[|slots| - 1];
      Evict(slots[..|slots| - 1], ours, id) + [if Retired(last, ours, id) then last.(used := false) else last]
  }

  /** The receiving MAC keys of the evicted slots, in slot order: they are published later. */
  function RetiredMACs(slots: seq<Slot>, ours: bool, id: nat): seq<byte> {
    if slots == [] then []
    else
      var last := slots[|slots| - 1];
      RetiredMACs(slots[..|slots| - 1], ours, id) + if Retired(last, ours, id) then last.keys.recvMAC else []
  }

  function RotateMine(e: Endpoint, freshPriv: nat): Endpoint {
    var id := Previous(e.myKeyId);
    e.(slots := Evict(e.slots, true, id), oldMACs := e.oldMACs + RetiredMACs(e.slots, true, id),
       myLast := e.myCurrent, myCurrent := NewKeyPair(freshPriv), myKeyId := Next(e.myKeyId))
  }

  function RotateTheirs(e: Endpoint, nextPub: nat): Endpoint {
    var id := Previous(e.theirKeyId);
    e.(slots := Evict(e.slots, false, id), oldMACs := e.oldMACs + RetiredMACs(e.slots, false, id),
       theirLast := Some(e.theirCurrent), theirCurrent := nextPub, theirKeyId := Next(e.theirKeyId))
  }

  // ---- receiving ----

  datatype Received = Accepted(plain: seq<byte>) | Rejected(error: Error) | Ignored

  function XorByte(x: byte, y: byte): byte {
    Bitwise.XorOfBytes(x, y);
    Bitwise.Xor(x, y)
  }

  function Crypt(c: Primitives, key: seq<byte>, counter: seq<byte>, data: seq<byte>): (r: seq<byte>)
    ensures |r| == |data|
  {
    seq<byte>(|data|, i requires 0 <= i < |data| => XorByte(data[i], c.keystream(key, counter, i)))
  }

  /** Decrypting under the same key and counter restores the plaintext. */
  lemma CryptTwice(c: Primitives, key: seq<byte>, counter: seq<byte>, data: seq<byte>)
    ensures Crypt(c, key, counter, Crypt(c, key, counter, data)) == data
  {
    forall i | 0 <= i < |data|
      ensures Crypt(c, key, counter, Crypt(c, key, counter, data))[i] == data[i]
    {
      Bitwise.XorCancel(data[i], c.keystream(key, counter, i));
    }
  }

  /** What a message accepted under slot i changes: the slot's counter, then the rotations. */
  function Accept(e: Endpoint, slots: Slots, i: nat, m: DataMessage, freshPriv: nat): Endpoint
    requires i < 4 && |m.counter| == 8
  {
    var e1 := e.(slots := slots[i := slots[i].(lastCtr := m.counter)]);
    var e2 := if m.recipientKeyId == e1.myKeyId then RotateMine(e1, freshPriv) else e1;
    if m.senderKeyId == e2.theirKeyId then RotateTheirs(e2, m.nextDH) else e2
  }

  /** processData: the new state and the verdict. A slot may be filled even for a message that is
      then rejected. */
  function Receive(c: Primitives, e: Endpoint, wire: seq<byte>, freshPriv: nat): (Endpoint, Received) {
    match Parse(wire)
    case None => (e, Rejected(Corrupt))
    case Some((m, maced)) => ReceiveParsed(c, e, m, maced, freshPriv)
  }

  function ReceiveParsed(c: Primitives, e: Endpoint, m: DataMessage, maced: seq<byte>,
                         freshPriv: nat): (Endpoint, Received)
    requires |m.counter| == 8
  {
    var ignoreErrors := m.flags % 2 == 1;
    match CalcDataKeys(c, e, m.recipientKeyId, m.senderKeyId)
    case Failed(error) => (e, if ignoreErrors then Ignored else Rejected(error))
    case Found(slots, i) =>
      var s := slots[i];
      if c.hmac(s.keys.recvMAC, DATA_HEADER + maced) != m.mac then
        (e.(slots := slots), if ignoreErrors then Ignored else Rejected(BadMAC))
      else if !LexLess(s.lastCtr, m.counter) then
        (e.(slots := slots), Rejected(CounterRegressed))
      else
        (Accept(e, slots, i, m, freshPriv), Accepted(Crypt(c, s.keys.recvAES, m.counter, m.encrypted)))
  }

  // ---- sending ----

  datatype Tlv = Tlv(typ: nat, data: seq<byte>)

  function Zeros(n: nat): seq<byte> { seq(n, _ => 0) }

  /** The text, a NUL, a padding record up to the granularity and an optional further record. */
  function Plaintext(text: seq<byte>, extra: Option<Tlv>): seq<byte> {
    var body := text + [0];
    var padding := PADDING_GRANULARITY - (|body| + 4) % PADDING_GRANULARITY;
    body + U16(0) + U16(padding) + Zeros(padding)
    + match extra case None => [] case Some(t) => U16(t.typ) + U16(|t.data|) + t.data
  }

  datatype Sent = Sent(message: DataMessage, plain: seq<byte>)

  /** The message generateData builds under the keys k. */
  function Compose(c: Primitives, e: Endpoint, k: Keys, plain: seq<byte>): DataMessage {
    var bare := DataMessage(0, Previous(e.myKeyId), e.theirKeyId, e.myCurrent.pub, e.myCounter,
                            Crypt(c, k.sendAES, e.myCounter, plain), [], e.oldMACs);
    bare.(mac := c.hmac(k.sendMAC, DATA_HEADER + MacedPart(bare)))
  }

  /** generateData; None is its panic when no sending keys can be computed. */
  function Send(c: Primitives, e: Endpoint, text: seq<byte>, extra: Option<Tlv>): Option<(Endpoint, Sent)> {
    match CalcDataKeys(c, e, Previous(e.myKeyId), e.theirKeyId)
    case Failed(_) => None
    case Found(slots, i) =>
      var plain := Plaintext(text, extra);
      Some((e.(slots := slots, oldMACs := [], myCounter := Incremented(e.myCounter)),
            Sent(Compose(c, e, slots[i].keys, plain), plain)))
  }
}
