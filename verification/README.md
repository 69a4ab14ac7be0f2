# Verified model of the committee server's cryptographic and protocol core

This project models, in Dafny, the parts of the committee and collective-signing server and of the
`golang.org/x/crypto` copy it carries whose behaviour is decided by state machines, codecs and machine
arithmetic, and proves what they are for. Each source file keeps its form: methods that update an object are
methods of a class over the same fields, loops are loops, and each is proved against a function on values; the
properties are proved of those functions, over all inputs, runs or interleavings.

| component | files |
|---|---|
| bytes, bits, residues, Fermat's theorem | `Bytes`, `Bitwise`, `ModArith`, `Fermat` |
| OTR data phase: codec, key ratchet, slot cache, two-party system, object, fragments | `OtrCodec`, `OtrRatchet`, `OtrSlots`, `OtrSync`, `OtrConversation`, `OtrFragments` |
| OTR authentication (Socialist Millionaires Protocol) | `Smp`, `SmpMachine` |
| collective signing | `CosiGroup`, `CosiMask`, `Cosi`, `Cosigners`, `CosiResidues` |
| committee formation: server, fate of requests and candidates, object | `Committee`, `CommitteeFate`, `CommitteeServer` |
| SSH channel: buffer, two-party flow control, its invariants, discarded streams, end of file, object | `SshBuffer`, `SshFlow`, `SshConserve`, `SshDiscard`, `SshEof`, `SshChannel` |
| SSH rekeying | `SshHandshake` |
| SSH messages | `SshMpint`, `SshMessages` |
| OpenPGP clear-signed text and partial body lengths | `Clearsign`, `PartialLength` |
| SHA-3 sponge | `Sponge`, `SpongeState` |
| Curve25519: values of limbs, multiplication, bytes, other operations, ladder, its formulas | `FieldLimbs`, `FieldMul`, `FieldBytes`, `FieldOps`, `Curve25519`, `Montgomery` |

Conventions. Calls that would wait return a value that says so, and the other side's steps are separate actions
of a transition system. Randomness, the clock, the network and the outcome of input and output are parameters.
Hashes, MACs, block ciphers, the Keccak permutation and the edwards25519 group are parameters too; the group is
any that obeys `CosiGroup.Laws`, which `CosiResidues.ResiduesObeyLaws` shows to be satisfiable. Integer widths
are written out wherever the source's wrap-around can be reached. In the Curve25519 files `FieldOps.Key` guards
statements about limbs so that they enter a proof only where it asks for them.

Where the code and its documentation differ, the model follows the code:

- `AggregateCommit` and `AggregateSignature` (`golang-x-crypto/ed25519/cosi/sign.go:148-223`) sum over all
  cosigners, although their comments exclude disabled ones. A signature made of valid parts is then accepted with
  its mask exactly when the challenge times the sum of the disabled keys is zero and the policy allows the mask
  (`Cosi.MaskedSignature`), and without a mask exactly when the challenge under all keys acts on their sum as the
  challenge under the mask does (`Cosi.BareSignature`). `CosiResidues.MaskedSpoiled` and
  `CosiResidues.BareSpoiled` show one that is refused.
- `tryFinalize` (`network_helper.go:52-108`) runs without the server's lock, so handlers and other finalisations of
  the same round run between its marking of the round and its end. A request is refused exactly in the meantime,
  unless a stream ends first and clears the marks (`CommitteeFate.RefusedExactly`). Then a new candidate can be accepted
  that the end of the finalisation deletes, in no committee; `CommitteeFate.LostExactly` says exactly when and
  `CommitteeFate.LossReachable` gives a run. From the tenth candidate on each request queues a finalisation
  (`CommitteeFate.QueuedTwice`). Two that overlap broadcast the same committee twice: `CommitteeFate.DoubledExactly`
  says exactly when a candidate is in two committees, `CommitteeFate.DoubledReachable` gives a run. Two that follow
  each other broadcast a committee without members (`CommitteeFate.EmptyExactly`, `CommitteeFate.EmptyReachable`).
  Runs without an overlap or a stream's end in between lose and repeat no candidate
  (`CommitteeFate.OrderlyExactlyOnce`). A round that has ended can be run again (`Committee.RoundCanRepeat`).
- The garbage collector's `r + 4` wraps, so a request for one of the last four round numbers loses its own
  candidate (`Committee.RequestKeepsCandidate`).
- `WriteExtended` (`golang-x-crypto/ssh/channel.go:252-276`) compares the low 32 bits of the length, so a write of
  2^32 bytes or more never ends once the window lets it go on (`SshChannel.Channel.WriteExtended`).
- Data on extended streams other than stderr is discarded and its window is never given back
  (`SshDiscard.DiscardsShrinkWindow`, `SshDiscard.OneByteShort`).
- `CloseWrite` does not stop a write in progress, so data can follow the end of file. The other side's end of file
  on a stream means that all of it arrived, in every continuation, exactly when the stream had nothing left to send
  at the close (`SshEof.EofExact`); `SshEof.EofTooEarly` is a run that loses a byte.
- `calcDataKeys` and the replay counters are kept per pair of key ids, and key ids are 32-bit numbers that wrap: a
  message accepted once can be accepted again, but only when 2^32 messages have been accepted since
  (`OtrSlots.AcceptedOnce`, `OtrSlots.AcceptedAgain`).
- `ModInverse` leaves its receiver as it is when there is no inverse, and `smp.go` inverts into a number it used for
  something else, so for a received number without an inverse the quotient is made with what was left there
  (`Smp.HeldMatters`). Powers of the generator always have one.
- `clone` of a squeezing sponge (`golang-x-crypto/sha3/sha3.go:67-77`) counts capacity to the end of the storage and
  is right only at rate 168 (`SpongeState.SqueezingCloneExact`); elsewhere the copy repeats bytes or the call panics
  (`SpongeState.State.Clone`).
- `encode` with a fragment size of exactly 18 and a longer message divides by zero (`OtrFragments.Encode`), and
  fragments outgrow the size beyond 99999 of them (`OtrFragments.FragmentsFit`).
- `NewCosigners` copies keys into one buffer, so a key that is not the first and is shorter than 32 bytes is
  completed with bytes of the ones before it, and only then (`Cosigners.ShortKeyBorrows`);
  `CosiResidues.EmptyKeyCopies` is an example.
- One shift in `feToBytes` (`h[4] << 6`, `golang-x-crypto/curve25519/curve25519.go:233`) passes the sign bit of an
  int32 exactly when the limb is 2^25 or more (`FieldBytes.ShiftsExact`, `FieldBytes.ShiftOverflows`); only its low
  byte is used, and the other shifts are exact.
- `scalarMult` does not mask bit 255 of the base coordinate, which RFC 7748 asks for. The coordinate used is the
  masked one exactly when the bit is clear (`Curve25519.MaskMatters`); `Curve25519.UnmaskedBase` is a base for which
  it is 19 instead of 0.

## Model

| member | source | states |
|---|---|---|
| `OtrCodec.GetDataRoundTrip` | golang-x-crypto/otr/otr.go:1359-1388 | a length-prefixed string is read back, with what follows it |
| `OtrCodec.GetMPIRoundTrip` | golang-x-crypto/otr/otr.go:1350-1395 | an MPI of any size is read back, with what follows it |
| `OtrCodec.ParseSerialize` | golang-x-crypto/otr/otr.go:863-877 | the data-message parser undoes the serialisation, and finds exactly the bytes the MAC covers |
| `OtrCodec.LexLessIsNumeric` | golang-x-crypto/otr/otr.go:900-903 | `bytes.Compare` on counters is comparison of the numbers they denote |
| `OtrCodec.IncrementedValue` | golang-x-crypto/otr/otr.go:1010-1017 | the incremented counter denotes one more, modulo 256 to its length |
| `OtrCodec.IncCounter` | golang-x-crypto/otr/otr.go:1010-1017 | the in-place carry loop computes that increment |
| `OtrRatchet.DerivedKeysMirror` | golang-x-crypto/otr/otr.go:1021-1101 | both ends derive the same secret, with the sending and receiving roles swapped |
| `OtrRatchet.CryptTwice` | golang-x-crypto/otr/otr.go:906-914 | decrypting with the same key and counter undoes encryption |
| `OtrSlots.FreeSlotExists` | golang-x-crypto/otr/otr.go:1022-1040 | an id pair of the 2x2 window that is not cached always finds a free slot |
| `OtrSlots.LookupInWindow` | golang-x-crypto/otr/otr.go:1021-1101 | calcDataKeys succeeds exactly for id pairs in the window, and keeps slots distinct, in the window and equal to recomputation |
| `OtrSlots.RotateMineKeeps` | golang-x-crypto/otr/otr.go:844-861 | rotating our key keeps the cache sound |
| `OtrSlots.RotateTheirsKeeps` | golang-x-crypto/otr/otr.go:916-932 | rotating the peer's key keeps the cache sound |
| `OtrSlots.SendKeeps` | golang-x-crypto/otr/otr.go:956-1008 | sending keeps the cache sound |
| `OtrSlots.ReceiveKeeps` | golang-x-crypto/otr/otr.go:863-954 | receiving any bytes, accepted or rejected, keeps the cache sound and the guard on every message of the last 2^32 accepted |
| `OtrSlots.StepKeeps` | golang-x-crypto/otr/otr.go:844-1101 | every data-phase event keeps the cache and the replay guard |
| `OtrSlots.AcceptedOnce` | golang-x-crypto/otr/otr.go:844-1101 | over every run from empty slots, whatever key ids and bytes the peer sends, the cache is sound, and the same (their id, our id, counter) is accepted twice only with 2^32 accepted messages between |
| `OtrSlots.NeverTwice` | golang-x-crypto/otr/otr.go:844-1101 | so in a run of at most 2^32 accepted messages none is accepted twice |
| `OtrSlots.AcceptedAgain` | golang-x-crypto/otr/otr.go:844-1101 | the bound is exact: from every such state a peer that rotates on each message has its message number 2^32 accepted with the ids and counter of its first |
| `OtrSlots.NeverOutOfSlots` | golang-x-crypto/otr/otr.go:1021-1101 | in every reachable state a lookup succeeds exactly for an id pair in the window |
| `OtrSync.SendKeepsLink` | golang-x-crypto/otr/otr.go:956-1008 | a sent message names ids in the peer's window, is sealed under keys both share and carries a newer counter than all before it |
| `OtrSync.DeliverAccepts` | golang-x-crypto/otr/otr.go:863-954 | the message at the front of the queue finds its keys, passes MAC and counter, and decrypts to the plaintext that was sealed |
| `OtrSync.DeliverKeepsLink` | golang-x-crypto/otr/otr.go:863-954 | delivery and the rotations it triggers keep the messages still in flight acceptable |
| `OtrSync.DeliverKeepsReverse` | golang-x-crypto/otr/otr.go:844-954 | and those in flight in the other direction |
| `OtrSync.StartOk` | golang-x-crypto/otr/otr.go:694-842 | the state a completed key exchange leaves is in step |
| `OtrSync.NeverOutOfStep` | golang-x-crypto/otr/otr.go:844-1101 | over every interleaving of sends and in-order deliveries both ways, each side has accepted exactly the delivered messages, in order, as they were sent |
| `OtrSync.EveryVerdictAccepts` | golang-x-crypto/otr/otr.go:844-1101 | from a completed key exchange no delivery is ever refused for a key id, slot, MAC or counter |
| `OtrSync.CounterWraps` | golang-x-crypto/otr/otr.go:956-1017 | the message after the one with counter 2^64 - 1 has counter zero |
| `OtrSync.ZeroCounterRefused` | golang-x-crypto/otr/otr.go:896-903 | and a message with counter zero is accepted in no state |
| `OtrConversation.Conversation.CalcKeys` | golang-x-crypto/otr/otr.go:1021-1101 | the slot search and fill loops compute the ratchet's lookup on the object's fields |
| `OtrConversation.Conversation.EvictSlots` | golang-x-crypto/otr/otr.go:845-852 | the eviction loop zeroes exactly the retired slots and reveals their MAC keys in order |
| `OtrConversation.Conversation.RotateDHKeys` | golang-x-crypto/otr/otr.go:844-861 | the object's rotation is the ratchet's |
| `OtrConversation.Conversation.ProcessData` | golang-x-crypto/otr/otr.go:863-954 | the object's receive step is the ratchet's, on every input |
| `OtrConversation.Conversation.GenerateData` | golang-x-crypto/otr/otr.go:956-1008 | the object's send step is the ratchet's |
| `OtrConversation.Conversation.BuildPlaintext` | golang-x-crypto/otr/otr.go:962-977 | the padded plaintext buffer |
| `OtrFragments.AtoiItoa` | golang-x-crypto/otr/otr.go:536-543 | the fragment numbers printed are the ones parsed |
| `OtrFragments.Encode` | golang-x-crypto/otr/otr.go:1134-1163 | one message, or the fragments; a fragment size of exactly 18 divides by zero |
| `OtrFragments.Cut` | golang-x-crypto/otr/otr.go:1147-1163 | the fragmenting loop cuts the text into the numbered pieces, the last possibly empty |
| `OtrFragments.Reassembler.ProcessFragment` | golang-x-crypto/otr/otr.go:527-565 | the object's step is the reassembly function, malformed input included |
| `OtrFragments.NextFragment` | golang-x-crypto/otr/otr.go:527-565 | what the i-th fragment does to the state the earlier ones leave |
| `OtrFragments.FragmentRoundTrip` | golang-x-crypto/otr/otr.go:527-565 | fed in order into any earlier state, the fragments give nothing until the last and then the exact message |
| `OtrFragments.FragmentsFit` | golang-x-crypto/otr/otr.go:1134-1163 | every fragment fits the fragment size if and only if there are at most 99999 of them |
| `Smp.LogProofHolds` | golang-x-crypto/otr/smp.go:176-249 | a proof of knowledge made by an honest party is accepted |
| `Smp.PairProofHolds` | golang-x-crypto/otr/smp.go:295-442 | so is the proof of the blinded secret |
| `Smp.SameLogProofHolds` | golang-x-crypto/otr/smp.go:420-554 | so is the proof of equal logarithms |
| `Smp.BobAnswers` | golang-x-crypto/otr/smp.go:65-320 | message 1 is accepted and answered, and fixes the shared bases |
| `Smp.AliceAnswers` | golang-x-crypto/otr/smp.go:322-442 | message 2 is accepted and answered |
| `Smp.BobConcludes` | golang-x-crypto/otr/smp.go:444-523 | message 3 is accepted, and the comparison succeeds exactly when the secrets agree |
| `Smp.AliceConcludes` | golang-x-crypto/otr/smp.go:525-554 | message 4 is accepted, and the comparison succeeds exactly when the secrets agree |
| `Smp.FinalComparison` | golang-x-crypto/otr/smp.go:505-554 | the compared values are equal exactly when g2^(x*a3*b3) is g2^(y*a3*b3) |
| `Smp.AgreeByDifference` | golang-x-crypto/otr/smp.go:505-554 | which is when g2 to the difference of the secrets times a3*b3 is one |
| `Smp.SmpVerdict` | golang-x-crypto/otr/smp.go:65-554 | for any random exponents every check passes and both sides reach the same verdict, which is whether the secrets agree |
| `Smp.EqualSecretsComplete` | golang-x-crypto/otr/smp.go:65-554 | equal secrets complete on both sides and leave both machines expecting message 1 |
| `Smp.ModGroupOk` | golang-x-crypto/otr/smp.go:14-47 | arithmetic modulo p with a generator whose q-th power is one has the laws used |
| `Smp.HeldMatters` | golang-x-crypto/otr/smp.go:414-435 | what an inversion's receiver held before does not matter if and only if there is an inverse |
| `SmpMachine.Machine.LogCheck` | golang-x-crypto/otr/smp.go:229-244 | the check computed in shared, overwritten big integers is the proof of knowledge, also where the source compares with s in place of t |
| `SmpMachine.Machine.PairCheck` | golang-x-crypto/otr/smp.go:363-378 | so is the check of the blinded secret, which reduces once after three products |
| `SmpMachine.Machine.SameLogCheck` | golang-x-crypto/otr/smp.go:480-493 | so is the check of equal logarithms |
| `SmpMachine.Machine.Divide` | golang-x-crypto/otr/smp.go:414-416 | the quotient by way of an inversion into a number that held something else |
| `SmpMachine.Machine.WriteSecond` | golang-x-crypto/otr/smp.go:251-320 | message 2 and the numbers it leaves, with r and s reused throughout, are the protocol function's |
| `SmpMachine.Machine.ReadSecond` | golang-x-crypto/otr/smp.go:322-442 | the handler that overwrites the received cP does what the protocol function says on the numbers, and changes no other number of the message |
| `SmpMachine.Machine.ReadThird` | golang-x-crypto/otr/smp.go:444-523 | so does the handler of message 3, which changes no field |
| `SmpMachine.Machine.ProcessSMP` | golang-x-crypto/otr/smp.go:65-159 | handling any record changes the numbers behind the fields as the protocol function does, aborts and errors included |
| `SmpMachine.Machine.StartSMP` | golang-x-crypto/otr/smp.go:49-57 | starting does so too |
| `SmpMachine.Authenticate` | golang-x-crypto/otr/smp.go:49-554 | one run between two such objects: both complete exactly when the secrets agree |
| `Cosi.HonestPartAccepted` | golang-x-crypto/ed25519/cosi/sign.go:46-134 | a part made by Commit and Cosign is always accepted by VerifyPart |
| `Cosi.CheckPointsAdd` | golang-x-crypto/ed25519/cosi/verify.go:117-150 | the points checked for the parts add up to the point checked for the whole |
| `Cosi.MaskedSignature` | golang-x-crypto/ed25519/cosi/sign.go:148-237 | if every part passes VerifyPart under a mask, Verify accepts the aggregate signature with that mask if and only if the challenge times the sum of the disabled keys is zero and the policy holds |
| `Cosi.BareSignature` | golang-x-crypto/ed25519/cosi/sign.go:148-237 | and without the mask if and only if the challenges under all keys and under the mask act alike on the sum of all keys |
| `Cosi.ValidPartsMakeValidWhole` | golang-x-crypto/ed25519/cosi/sign.go:148-237 | with nobody disabled Verify accepts it, for any number of signers |
| `Cosi.Cosign` | golang-x-crypto/ed25519/cosi/sign.go:83-134 | the part is h*a + r modulo L; the secret works once and is erased |
| `Cosi.AggregateCommit` | golang-x-crypto/ed25519/cosi/sign.go:148-182 | the encoded sum of all commits, nil at one that does not decode, a panic when one is missing |
| `Cosi.AggregateSignature` | golang-x-crypto/ed25519/cosi/sign.go:184-223 | R and the sum of the parts modulo L, nil at a part of the wrong size, a panic when one is missing or R is not 32 bytes |
| `CosiMask.EnabledSumFlip` | golang-x-crypto/ed25519/cosi/cosi.go:414-430 | flipping one bit moves exactly that key into or out of the sum |
| `CosiMask.SumSplits` | golang-x-crypto/ed25519/cosi/cosi.go:380-430 | the sum of all keys is that of the enabled and that of the disabled |
| `CosiMask.TrimUnique` | golang-x-crypto/ed25519/cosi/cosi.go:380-401 | the trimmed mask is determined by the given one |
| `Cosigners.Cosigners.constructor` | golang-x-crypto/ed25519/cosi/cosi.go:302-346 | everyone enabled, the cached key the sum of all keys |
| `Cosigners.Cosigners.SetMaskBit` | golang-x-crypto/ed25519/cosi/cosi.go:414-430 | changes one bit and keeps the cached key equal to the sum of the enabled keys |
| `Cosigners.Cosigners.SetMask` | golang-x-crypto/ed25519/cosi/cosi.go:380-401 | takes over the mask, missing bytes as enabled, and keeps the cached key equal to the sum |
| `Cosigners.Cosigners.CountEnabled` | golang-x-crypto/ed25519/cosi/cosi.go:355-364 | the number of clear bits among the keys |
| `Cosigners.Cosigners.MaskBit` | golang-x-crypto/ed25519/cosi/cosi.go:432-436 | the bit of one signer |
| `Cosigners.Cosigners.VerifyPart` | golang-x-crypto/ed25519/cosi/sign.go:233-237 | the check of one part against the sum of the enabled keys |
| `Cosigners.Cosigners.Verify` | golang-x-crypto/ed25519/cosi/verify.go:74-115 | the verdict depends on keys, policy, message and signature alone, whatever mask was held; keeps the cache |
| `Cosigners.NewCosigners` | golang-x-crypto/ed25519/cosi/cosi.go:302-346 | nil exactly when a key does not decode, else a sound object with the given mask |
| `Cosigners.DecodedFrom` | golang-x-crypto/ed25519/cosi/cosi.go:302-346 | each key is decoded from the bytes the shared buffer holds after it |
| `Cosigners.ShortKeyBorrows` | golang-x-crypto/ed25519/cosi/cosi.go:302-346 | those bytes are the same whatever keys stand before it if and only if it is the first or has at least 32 bytes |
| `Cosigners.CacheDeterminedByMask` | golang-x-crypto/ed25519/cosi/cosi.go:302-436 | two objects with the same keys and mask bits are in the same state, however they got there |
| `CosiResidues.ResiduesObeyLaws` | golang-x-crypto/ed25519/cosi/sign.go:46-134 | the group laws assumed of edwards25519 hold of a concrete cyclic group of order L |
| `CosiResidues.MaskedSpoiled` | golang-x-crypto/ed25519/cosi/sign.go:148-237 | two parts that pass VerifyPart under a mask that disables one signer, and make a signature that Verify refuses with that mask under every policy |
| `CosiResidues.BareSpoiled` | golang-x-crypto/ed25519/cosi/sign.go:148-237 | and that it refuses without the mask |
| `CosiResidues.EmptyKeyCopies` | golang-x-crypto/ed25519/cosi/cosi.go:302-346 | an empty second key is decoded as a copy of the first, whatever that is |
| `Committee.StepKeeps` | network_helper.go:27-116 | every handler, timer and either half of a finalisation keeps the invariant |
| `Committee.ReachableOk` | network_helper.go:27-116 | in every reachable state, whatever runs during finalisations: every pending round has a live timer, a queued finalisation or one under way; the table holds the last arrivals of each round in order; every committee is a run of consecutive arrivals; each candidate is in as many committees as read it; and the broadcasts are the committees |
| `Committee.PendingGetsFinalised` | network_helper.go:52-108 | a pending round with no finalisation under way has one queued or an armed timer that queues one, and if that runs undisturbed it broadcasts exactly the round's candidates in order |
| `CommitteeFate.RefusedExactly` | network_helper.go:27-108 | a request is refused if and only if a finalisation of its round has begun since which neither one of the round nor a stream has ended; otherwise it is entered |
| `CommitteeFate.LostExactly` | network_helper.go:27-116 | an accepted candidate is removed without being in any committee if and only if the first event since that begins or ends a finalisation of its round or drops the round is an end |
| `CommitteeFate.DoubledExactly` | network_helper.go:27-116 | an accepted candidate is in two committees or more if and only if two finalisations of its round began since, before one ended or the round was dropped |
| `CommitteeFate.EmptyExactly` | network_helper.go:52-56 | a finalisation that begins reads no candidate if and only if every one accepted for the round has been removed by an end or the collector |
| `CommitteeFate.OrderlyExactlyOnce` | network_helper.go:27-108 | if no stream ends during a finalisation and no two of a round overlap, no candidate is in two committees, a finalised one is in exactly one, and exactly the rounds under way refuse requests |
| `CommitteeFate.LeaveLoses` | network.go:42-77 | from any state with a finalisation under way a stream's end and a request lose the new candidate |
| `CommitteeFate.LossReachable` | network.go:42-77 | a run from the empty server that does |
| `CommitteeFate.OverlapDoubles` | network_helper.go:44-108 | after any run with two finalisations of a round queued, overlapping them broadcasts the same committee twice |
| `CommitteeFate.SequenceEmpties` | network_helper.go:44-108 | and running them one after the other broadcasts a committee without members |
| `CommitteeFate.DoubledReachable` | network_helper.go:27-108 | a run from the empty server, eleven requests and two overlapping finalisations, that broadcasts the same committee twice |
| `CommitteeFate.EmptyReachable` | network_helper.go:27-108 | and one that broadcasts an empty committee |
| `CommitteeFate.QueuedTwice` | network_helper.go:44-47 | n requests for a round queue a finalisation each from the tenth on |
| `Committee.RoundCanRepeat` | network_helper.go:27-108 | a round that has ended can be run again and broadcast another committee |
| `Committee.RequestKeepsCandidate` | network.go:103-117 | an accepted request leaves its own candidate pending if and only if the round plus four stays below 2^64 |
| `CommitteeServer.MeshServer.AppendCandidate` | network_helper.go:27-49 | files the candidate, starts one timer per round, queues a finalisation at the threshold |
| `CommitteeServer.MeshServer.GcOldRounds` | network_helper.go:110-116 | drops exactly the rounds r with r + 4 below the current one, in 64-bit arithmetic |
| `CommitteeServer.MeshServer.RequestCommittee` | network.go:103-117 | one request is one step of the model |
| `CommitteeServer.MeshServer.TimerExpires` | network_helper.go:38-41 | an expired timer queues one finalisation |
| `CommitteeServer.MeshServer.StreamEnds` | network.go:42-77 | the end of a stream clears the processed rounds |
| `CommitteeServer.MeshServer.BeginFinalize` | network_helper.go:52-56 | the first half of a finalisation is one step of the model |
| `CommitteeServer.MeshServer.EndFinalize` | network_helper.go:62-108 | so is the second; it crashes exactly when a key does not decode |
| `SshBuffer.Buffer.Write` | golang-x-crypto/ssh/buffer.go:44-51 | appends to the queue of bytes |
| `SshBuffer.Buffer.Eof` | golang-x-crypto/ssh/buffer.go:55-61 | closes it and keeps its bytes |
| `SshBuffer.Buffer.Read` | golang-x-crypto/ssh/buffer.go:65-98 | terminates with the first bytes of the queue, with end of file exactly when closed and empty, else waiting; removes what it returned |
| `SshConserve.ActSenderWindow` | golang-x-crypto/ssh/channel.go:230-282 | reservations and transmissions move bytes from the window to the granted packets to the wire |
| `SshConserve.ActReceiverWindow` | golang-x-crypto/ssh/channel.go:333-366 | reads, credits and adjustments move bytes from the buffer to the window to the wire |
| `SshConserve.NextPacketHandled` | golang-x-crypto/ssh/channel.go:284-452 | no packet in flight is ever refused: not as too large, too much, an overflowing update, a second confirmation or for a removed channel |
| `SshConserve.StepOk` | golang-x-crypto/ssh/channel.go:206-560 | every critical section of either side keeps the invariant of both directions |
| `SshConserve.EveryRunOk` | golang-x-crypto/ssh/channel.go:206-560 | so does every interleaving of them |
| `SshConserve.WindowConserved` | golang-x-crypto/ssh/channel.go:230-366 | in every reachable state: sender window + reserved + data in flight + grants in flight = receiver window, and receiver window + unread + uncredited + discarded = 2^21, and no error occurs |
| `SshConserve.InOrder` | golang-x-crypto/ssh/channel.go:230-366 | what Read returned on a stream is a prefix of what WriteExtended was given on it |
| `SshDiscard.DiscardsShrinkWindow` | golang-x-crypto/ssh/channel.go:318-331 | whenever a direction is at rest its sender's window is 2^21 less the bytes ever offered on codes above 1, and whole if and only if there were none |
| `SshDiscard.OneByteShort` | golang-x-crypto/ssh/channel.go:318-331 | a run that comes to rest one byte short |
| `SshEof.EofExact` | golang-x-crypto/ssh/channel.go:536-543 | at CloseWrite on an open channel: in every continuation the peer's end of file on a stream means every byte offered on it was returned, if and only if no write on that stream has bytes left to send |
| `SshEof.EofTooEarly` | golang-x-crypto/ssh/channel.go:536-543 | a run in which end of file comes before a byte that was offered |
| `SshChannel.Window.Add` | golang-x-crypto/ssh/common.go:297-314 | refused exactly when the sum passes 32 bits |
| `SshChannel.Window.Reserve` | golang-x-crypto/ssh/common.go:328-347 | grants the smaller of request and window; a closed window still gives it up but fails |
| `SshChannel.Window.Close` | golang-x-crypto/ssh/common.go:318-323 | later reservations fail |
| `SshChannel.DataPacketUnderstood` | golang-x-crypto/ssh/channel.go:230-331 | a data packet built by the sender is taken by the receiver as the stream and bytes it was built from |
| `SshChannel.PayloadsAre` | golang-x-crypto/ssh/channel.go:252-276 | the packets of a write carry its data in order until the window or the low 32 bits of its length are used up |
| `SshChannel.PayloadsFit` | golang-x-crypto/ssh/channel.go:252-276 | each is non-empty and within the peer's limit |
| `SshChannel.WriteRefinesFlow` | golang-x-crypto/ssh/channel.go:252-276 | they are the packets the transition system sends |
| `SshChannel.Channel.WritePacket` | golang-x-crypto/ssh/channel.go:206-216 | nothing leaves after a close |
| `SshChannel.Channel.WriteExtended` | golang-x-crypto/ssh/channel.go:230-282 | the packets, the count, the window left and the outcome, on an open channel and after a close: done, blocked, closed, or spinning on a length that is a multiple of 2^32 |
| `SshChannel.Channel.HandleData` | golang-x-crypto/ssh/channel.go:284-331 | the raw packet changes window and buffers as the model says, or fails with the model's error and changes nothing |
| `SshChannel.Channel.AdjustWindow` | golang-x-crypto/ssh/channel.go:333-342 | credits the window and tells the peer unless closed |
| `SshChannel.Channel.ReadExtended` | golang-x-crypto/ssh/channel.go:344-366 | returns what the stream's queue gives, leaves the other stream alone, and gives the window back |
| `SshChannel.Channel.HandleEof` | golang-x-crypto/ssh/channel.go:405-411 | both streams end once their buffers are empty |
| `SshChannel.Channel.HandleClose` | golang-x-crypto/ssh/channel.go:368-404 | answers the close once, ends both streams and fails later writes |
| `SshHandshake.RekeyKeeps` | golang-x-crypto/ssh/handshake.go:150-211 | an exchange, whatever fails in it, keeps the trace invariant |
| `SshHandshake.RekeyTraceSafe` | golang-x-crypto/ssh/handshake.go:127-412 | in every interleaving only key-exchange packets lie between our KEXINIT and our NEWKEYS, and an open connection has sent one of each per completed exchange |
| `SshHandshake.OnlyKexBetween` | golang-x-crypto/ssh/handshake.go:305-328 | the same by position on the wire |
| `SshHandshake.SilentAfterFailure` | golang-x-crypto/ssh/handshake.go:178-211 | after a failed exchange nothing more is sent and every writer gets the error |
| `SshHandshake.SessionFixed` | golang-x-crypto/ssh/handshake.go:391-395 | the session id never changes once set |
| `SshHandshake.NoWriterStranded` | golang-x-crypto/ssh/handshake.go:305-328 | a writer waits only while an exchange is outstanding and the reader is alive; every exchange releases the writers |
| `SshHandshake.HandshakeTransport.SendKexInitLocked` | golang-x-crypto/ssh/handshake.go:262-303 | sends an init unless one is outstanding |
| `SshHandshake.HandshakeTransport.SendKexInit` | golang-x-crypto/ssh/handshake.go:227-250 | an initial request after the first exchange does nothing |
| `SshHandshake.HandshakeTransport.WritePacketEnter` | golang-x-crypto/ssh/handshake.go:305-311 | past the threshold asks for an exchange before waiting |
| `SshHandshake.HandshakeTransport.WritePacketLeave` | golang-x-crypto/ssh/handshake.go:312-328 | sends, or reports the dead connection, or refuses a forged KEXINIT or NEWKEYS |
| `SshHandshake.HandshakeTransport.EnterKeyExchangeLocked` | golang-x-crypto/ssh/handshake.go:335-412 | the exchange is the model's |
| `SshHandshake.HandshakeTransport.ReadKexInit` | golang-x-crypto/ssh/handshake.go:150-211 | the reader's step is the model's |
| `SshMpint.MpintRoundTrip` | golang-x-crypto/ssh/messages.go:548-570 | the mpint of any integer, negative included, parses back |
| `SshMpint.IntLengthExact` | golang-x-crypto/ssh/messages.go:586-609 | takes exactly intLength bytes |
| `SshMpint.MpintShortest` | golang-x-crypto/ssh/messages.go:621-666 | is the unique shortest two's-complement form |
| `SshMpint.MarshalInt` | golang-x-crypto/ssh/messages.go:621-666 | the in-place writer produces it and leaves the rest of the buffer |
| `SshMpint.ParseInt` | golang-x-crypto/ssh/messages.go:548-570 | the inverting loop computes the number |
| `SshMessages.NameListExact` | golang-x-crypto/ssh/messages.go:531-546 | a name list survives if and only if no name has a comma and it is not one empty name |
| `SshMessages.FieldRoundTrip` | golang-x-crypto/ssh/messages.go:300-507 | every kind of field is read back, with what follows it |
| `SshMessages.MessageRoundTrip` | golang-x-crypto/ssh/messages.go:300-507 | Unmarshal undoes Marshal for every layout with "rest" last |
| `SshMessages.MarshalStruct` | golang-x-crypto/ssh/messages.go:428-507 | the marshalling loop computes the encoding, name lists with their length patched afterwards |
| `SshMessages.UnmarshalInto` | golang-x-crypto/ssh/messages.go:300-416 | the unmarshalling loop computes the decoding, with the source's error for each failure |
| `Clearsign.AnySplit` | golang-x-crypto/openpgp/clearsign/clearsign.go:193-264 | the split of the text into writes does not matter |
| `Clearsign.FeedText` | golang-x-crypto/openpgp/clearsign/clearsign.go:193-274 | what is written and hashed: the trimmed lines, escaped and ended by LF, or joined by CRLF |
| `Clearsign.NotEndText` | golang-x-crypto/openpgp/clearsign/clearsign.go:193-264 | no line of the body can be taken for the signature header |
| `Clearsign.UnescapeEscape` | golang-x-crypto/openpgp/clearsign/clearsign.go:135-142 | the decoder undoes the escape of a line |
| `Clearsign.ClearsignRoundTrip` | golang-x-crypto/openpgp/clearsign/clearsign.go:116-264 | for every text in any split, the bytes Decode rebuilds are those fed to the hash, and it stops at the signature |
| `Clearsign.DashEscaper.Write` | golang-x-crypto/openpgp/clearsign/clearsign.go:193-264 | the object's loop is the model's fold over the bytes |
| `Clearsign.DashEscaper.Close` | golang-x-crypto/openpgp/clearsign/clearsign.go:266-271 | ends an unfinished line |
| `Clearsign.DecodeLoop` | golang-x-crypto/openpgp/clearsign/clearsign.go:116-148 | the body loop computes the decoding, an incomplete message included |
| `PartialLength.ChunksAre` | golang-x-crypto/openpgp/packet/packet.go:103-125 | the chunks of a write are its bytes |
| `PartialLength.FindPower` | golang-x-crypto/openpgp/packet/packet.go:105-121 | the descending unsigned power loop stops at a chunk before it can wrap |
| `PartialLength.ReadChunkLength` | golang-x-crypto/openpgp/packet/packet.go:31-60 | a partial length octet announces exactly the chunk behind it |
| `PartialLength.ReadReady` | golang-x-crypto/openpgp/packet/packet.go:72-94 | any read returns a prefix of the bytes left without error, and with none left the end of file, however much the source gives and whether or not it reports its end with its last bytes |
| `PartialLength.PartialLengthRoundTrip` | golang-x-crypto/openpgp/packet/packet.go:31-209 | for every split into writes and every sequence of read sizes the bytes come back in order, then end of file, with the source at the first byte behind the packet |
| `PartialLength.HeaderRoundTrip` | golang-x-crypto/openpgp/packet/packet.go:160-238 | a header of known length is read back if and only if the length is below 2^32 |
| `PartialLength.StreamWriter.Write` | golang-x-crypto/openpgp/packet/packet.go:103-125 | appends the framed chunks of its argument |
| `PartialLength.StreamWriter.Close` | golang-x-crypto/openpgp/packet/packet.go:127-134 | ends the packet with a zero length |
| `PartialLength.PartialLengthReader.ReadInto` | golang-x-crypto/openpgp/packet/packet.go:72-94 | the reader's loop is the model's read, errors and the state they leave included |
| `Sponge.XorIsBytewise` | golang-x-crypto/sha3/xor_generic.go:12-21 | exclusive or by 64-bit lanes is exclusive or by bytes |
| `Sponge.PaddedAbsorb` | golang-x-crypto/sha3/sha3.go:99-122 | absorbing the full blocks and then the padded last one is absorbing the padded message |
| `Sponge.PadMessageWhole` | golang-x-crypto/sha3/sha3.go:99-122 | the padded message is a whole number of blocks |
| `Sponge.AnySplitOfInput` | golang-x-crypto/sha3/sha3.go:126-158 | the split of the input into writes does not matter |
| `Sponge.AnySplitOfOutput` | golang-x-crypto/sha3/sha3.go:161-182 | nor that of the output into reads |
| `Sponge.StreamingIsHashing` | golang-x-crypto/sha3/sha3.go:80-182 | for any split of both, the output is the sponge function of the whole message |
| `SpongeState.State.XorIn` | golang-x-crypto/sha3/xor_generic.go:12-21 | the lane loop xors the block in |
| `SpongeState.State.CopyOut` | golang-x-crypto/sha3/xor_generic.go:23-28 | the lane loop copies the output block out |
| `SpongeState.State.Write` | golang-x-crypto/sha3/sha3.go:126-158 | fast and slow path mixed, the state is that of the message so far; refused after a read |
| `SpongeState.State.PadAndPermute` | golang-x-crypto/sha3/sha3.go:99-122 | the state is that of the whole padded message |
| `SpongeState.State.Read` | golang-x-crypto/sha3/sha3.go:161-182 | the bytes and the state left are those of the pure squeeze |
| `SpongeState.State.Sum` | golang-x-crypto/sha3/sha3.go:186-193 | the digest of what was written so far, the state unchanged; after a read, what a copy reads on with, or a panic |
| `SpongeState.State.Clone` | golang-x-crypto/sha3/sha3.go:67-77 | an absorbing state is copied; a squeezing one is copied at the position its capacity gives, or the call panics |
| `SpongeState.State.Reset` | golang-x-crypto/sha3/sha3.go:58-65 | back to the empty message |
| `SpongeState.SqueezingCloneExact` | golang-x-crypto/sha3/sha3.go:67-77 | a squeezing state is cloned at the right position for every position if and only if the rate is 168 |
| `FieldLimbs.ProductElement` | golang-x-crypto/curve25519/curve25519.go:282-411 | the schoolbook product of limbs denotes the product modulo 2^255 - 19 |
| `FieldMul.FeMul` | golang-x-crypto/curve25519/curve25519.go:282-511 | the product of the two values, within the stated bounds, result and operands overlapping or not; no int32 or int64 operation overflows |
| `FieldMul.FeSquare` | golang-x-crypto/curve25519/curve25519.go:520-664 | the square, likewise |
| `FieldMul.FeMul121666` | golang-x-crypto/curve25519/curve25519.go:673-728 | 121666 times the value, likewise |
| `FieldMul.CarrySerial` | golang-x-crypto/curve25519/curve25519.go:413-499 | the twelve carries keep the value modulo 2^255 - 19 and reach the bounds |
| `FieldMul.CarryParallel` | golang-x-crypto/curve25519/curve25519.go:98-128 | so do the ten carries in the other order |
| `FieldBytes.LoadedValue` | golang-x-crypto/curve25519/curve25519.go:86-96 | the ten shifted loads denote the 256-bit little-endian value |
| `FieldBytes.FeFromBytes` | golang-x-crypto/curve25519/curve25519.go:86-141 | the limbs denote the bytes' value modulo 2^255 - 19, within the bounds |
| `FieldBytes.EstimateExact` | golang-x-crypto/curve25519/curve25519.go:143-165 | the quotient estimate is exact for every value within the bounds |
| `FieldBytes.EstimateQuotient` | golang-x-crypto/curve25519/curve25519.go:166-180 | its eleven shifts compute it |
| `FieldBytes.Canonical` | golang-x-crypto/curve25519/curve25519.go:166-218 | the limbs after the carries are those of the residue below 2^255 - 19 |
| `FieldBytes.FeToBytes` | golang-x-crypto/curve25519/curve25519.go:166-253 | the 32 bytes are the little-endian form of the residue in [0, 2^255 - 19), whatever limbs stood for it |
| `FieldBytes.ShiftsExact` | golang-x-crypto/curve25519/curve25519.go:220-253 | of its eight left shifts seven are exact in 32 bits, and that of limb 4 if and only if the limb is below 2^25 |
| `FieldBytes.ShiftOverflows` | golang-x-crypto/curve25519/curve25519.go:233 | an element on which it is not |
| `FieldOps.FeAdd` | golang-x-crypto/curve25519/curve25519.go:31-35 | the sum, within the bounds a multiplication accepts |
| `FieldOps.FeSub` | golang-x-crypto/curve25519/curve25519.go:37-41 | the difference, likewise |
| `FieldOps.FeZero` | golang-x-crypto/curve25519/curve25519.go:20-24 | zero |
| `FieldOps.FeOne` | golang-x-crypto/curve25519/curve25519.go:26-29 | one |
| `FieldOps.FeCopy` | golang-x-crypto/curve25519/curve25519.go:43-47 | the same limbs |
| `FieldOps.FeCSwap` | golang-x-crypto/curve25519/curve25519.go:52-65 | exchanges the two exactly when the bit is 1 |
| `FieldOps.FeInvert` | golang-x-crypto/curve25519/curve25519.go:731-790 | z to the power p - 2 |
| `Fermat.InverseByPower` | golang-x-crypto/curve25519/curve25519.go:731-790 | modulo a prime p that power is the inverse, and zero for zero |
| `Curve25519.SourceStep` | golang-x-crypto/curve25519/curve25519.go:810-828 | the source's formula for z2 is that of RFC 7748 |
| `Curve25519.BitOfScalar` | golang-x-crypto/curve25519/curve25519.go:803-804 | the bit taken from the bytes is that of the scalar |
| `Curve25519.ClampedScalar` | golang-x-crypto/curve25519/curve25519.go:795-798 | the clamped scalar is a multiple of 8 between 2^254 and 2^255 |
| `Curve25519.Workspace.LadderStep` | golang-x-crypto/curve25519/curve25519.go:810-828 | one turn of the loop is the ladder step on field values, every call within its bounds |
| `Curve25519.ClimbLimbs` | golang-x-crypto/curve25519/curve25519.go:800-834 | 255 turns with the swap of each put off to the next are the plain ladder |
| `Curve25519.ScalarMult` | golang-x-crypto/curve25519/curve25519.go:792-841 | the output bytes are X25519 of the clamped scalar and the base coordinate, and of the coordinate with bit 255 masked if that bit is clear |
| `Curve25519.MaskMatters` | golang-x-crypto/curve25519/curve25519.go:792-802 | leaving bit 255 unmasked changes the coordinate if and only if the bit is set |
| `Curve25519.UnmaskedBase` | golang-x-crypto/curve25519/curve25519.go:792-802 | a base whose coordinate is 19 here and 0 when masked |
| `Montgomery.Doubling` | golang-x-crypto/curve25519/curve25519.go:810-828 | a step takes (x : z) to ((x^2 - z^2)^2 : 4xz(x^2 + 486662xz + z^2)) modulo p |
| `Montgomery.DifferentialAddition` | golang-x-crypto/curve25519/curve25519.go:810-828 | and the pair to (4(x2x3 - z2z3)^2 : 4 x1 (x3z2 - x2z3)^2) modulo p |
| `Curve25519.ResultIsQuotient` | golang-x-crypto/curve25519/curve25519.go:836-840 | which is x2 / z2 of the ladder, and zero where z2 is |

## Left out

- OtrSync.EveryVerdictAccepts: runs in which a 64-bit counter or a 32-bit length field would wrap, or in which the two sides draw equal DH keys, are outside its run condition, as the protocol assumes; a message sent after the counter wrapped is refused (`OtrSync.ZeroCounterRefused`). Key ids may wrap.
- Smp.SmpVerdict: takes the laws of the group as hypotheses; `Smp.ModGroupOk` derives them for arithmetic modulo p from the generator having order q, which is not computed for the 1536-bit prime.
- Cosi.MaskedSignature: takes the group laws and the encoding of edwards25519 as hypotheses, because that package is not part of this model.
- FieldOps.FeInvert: states the power p - 2; that this is the inverse is `Fermat.InverseByPower` for a prime, and the primality of 2^255 - 19 is not proved.
- Curve25519.ResultIsQuotient: takes the primality of 2^255 - 19 as a hypothesis.
- Curve25519.ScalarMult: is stated against the ladder of RFC 7748; that the ladder computes scalar multiplication on the curve is not modelled.
- SshChannel.Channel.WriteExtended: one pass over the window found; the interleaving with other goroutines is in SshFlow and SshConserve. The reuse of packet buffers from the pool is not modelled.
- SshHandshake.RekeyTraceSafe: a write on the connection either puts the whole packet on the wire or nothing.
- Committee.ReachableOk: a finalisation is two steps, up to its reading of the candidates and from its broadcast on; simultaneous writes to one map and a request that sets the cosigners to nil between their creation and their use, on which the process dies, are not modelled, and a broadcast reaches the model's list of sent committees even when a subscriber's channel is full.
- SmpMachine.Machine.ProcessSMP: the question text and the encoding of records are not modelled, and numbers that are nil until first set are zero.
- OTR: the authenticated key exchange, query messages, and the parsing of TLV records inside a decrypted message.
- SSH: channel rejection and requests, the multiplexer's channel table, algorithm negotiation, the key-exchange algorithms themselves, and the byte count per key after several writers waited together.
- OpenPGP: the armor, the headers of a clear-signed message, keys and signatures.
- CoSi: custom policies and the package-level Verify wrapper.
- Server: gRPC streams, JoinNetwork, RequestAggregatedCommit and the global node counter.
- Keccak-f, assembly implementations, poly1305, the block ciphers and the older hash functions: they would add constants and bit mixing, not properties of the kind above.
