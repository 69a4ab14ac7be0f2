/** The linked-list byte buffer of an SSH channel (golang-x-crypto/ssh/buffer.go), proved to be a queue
    of bytes. A read that would wait for the producer returns WouldBlock instead. */
module SshBuffer {
  import opened Bytes

  datatype ReadResult = Data(bytes: seq<byte>) | EndOfFile | WouldBlock

  /** What a read of up to n bytes gives on a queue. */
  function ReadSpec(contents: seq<byte>, closed: bool, n: nat): ReadResult {
    if n == 0 then Data([])
    else if contents != [] then Data(contents[..Min(n, |contents|)])
    else if closed then EndOfFile
    else WouldBlock
  }

  function Taken(r: ReadResult): nat {
    if r.Data? then |r.bytes| else 0
  }

  class Element {
    var buf: seq<byte>
    var next: Element?

    constructor (buf: seq<byte>)
      ensures this.buf == buf && next == null
    {
      this.buf, next := buf, null;
    }
  }

  ghost function Flat(es: seq<Element>): seq<byte>
    reads es`buf
  {
    if es == [] then [] else es[0].buf + Flat(es[1..])
  }

  lemma {:induction false} FlatAppend(es: seq<Element>, e: Element)
    ensures Flat(es + [e]) == Flat(es) + e.buf
    decreases |es|
  {
    if es == [] {
      assert Flat([e][1..]) == [];
    } else {
      FlatAppend(es[1..], e);
      assert (es + [e])[1..] == es[1..] + [e];
    }
  }

  twostate lemma FlatFrame(es: seq<Element>)
    requires forall e :: e in es ==> allocated(e) && e.buf == old(e.buf)
    ensures Flat(es) == old(Flat(es))
    decreases |es|
  {
    if es != [] {
      assert es[0] in es && forall e :: e in es[1..] ==> e in es;
      FlatFrame(es[1..]);
    }
  }

  class Buffer {
    var head: Element
    var tail: Element
    var closed: bool
    ghost var spine: seq<Element>

    /** The spine lists the elements from head to tail. */
    ghost predicate Valid()
      reads this, spine
    {
      && spine != [] && head == spine[0] && tail == spine[|spine| - 1]
      && (forall i, j :: 0 <= i < j < |spine| ==> spine[i] != spine[j])
      && (forall i :: 0 <= i < |spine| - 1 ==> spine[i].next == spine[i + 1])
    }

    ghost function Contents(): seq<byte>
      reads this, spine
      requires Valid()
    {
      Flat(spine)
    }

    constructor ()
      ensures Valid() && Contents() == [] && !closed && fresh(spine)
    {
      var e := new Element([]);
      head, tail, closed := e, e, false;
      spine := [e];
      new;
      assert Flat([e][1..]) == [];
    }

    /** Link a new element after the tail. */
    method Write(buf: seq<byte>)
      requires Valid()
      modifies this`tail, this`spine, tail`next
      ensures Valid() && Contents() == old(Contents()) + buf && head == old(head)
      ensures fresh(set e | e in spine && e !in old(spine))
    {
      var e := new Element(buf);
      tail.next := e;
      tail := e;
      FlatAppend(spine, e);
      spine := spine + [e];
    }

    method Eof()
      requires Valid()
      modifies this`closed
      ensures Valid() && closed && Contents() == old(Contents())
    {
      closed := true;
    }

    /** The first k bytes of the first element have been copied out. */
    method ConsumeHead(k: nat)
      requires Valid() && k <= |head.buf|
      modifies head`buf
      ensures Valid() && Contents() == old(Contents())[k..] && |head.buf| == |old(head.buf)| - k
    {
      head.buf := head.buf[k..];
    }

    /** An empty first element with a successor is unlinked. */
    method DropHead()
      requires Valid() && head.buf == [] && head != tail
      modifies this`head, this`spine
      ensures Valid() && Contents() == old(Contents()) && spine == old(spine)[1..]
    {
      assert spine[0].next == spine[1];
      head := head.next;
      spine := spine[1..];
    }

    lemma LastElement()
      requires Valid() && head == tail
      ensures |spine| == 1 && Contents() == head.buf
    {
      assert Flat(spine[1..]) == [];
    }

    /** Copy out as much of a non-empty first element as fits. */
    method TakePart(space: nat) returns (part: seq<byte>)
      requires Valid() && space > 0 && |head.buf| > 0
      modifies head`buf
      ensures Valid() && 0 < |part| <= space && |head.buf| < |old(head.buf)|
      ensures part + Contents() == old(Contents())
    {
      var k := Min(space, |head.buf|);
      part := head.buf[..k];
      assert Contents()[..k] == part;
      ConsumeHead(k);
    }

    /** Take bytes from the front, dropping elements as they empty. */
    method Read(n: nat) returns (r: ReadResult)
      requires Valid()
      modifies this`head, this`spine, spine`buf
      ensures Valid() && r == ReadSpec(old(Contents()), closed, n)
      ensures Contents() == old(Contents())[Taken(r)..]
      ensures forall e :: e in spine ==> e in old(spine)
    {
      var out: seq<byte> := [];
      var space: nat := n;
      ghost var was := Contents();
      while space > 0
        invariant Valid() && out + Contents() == was && |out| + space == n
        invariant forall e :: e in spine ==> e in old(spine)
        decreases |spine|, |head.buf|
      {
        assert head in spine;
        if |head.buf| > 0 {
          var part := TakePart(space);
          out := out + part;
          space := space - |part|;
        } else if head != tail {
          DropHead();
        } else {
          LastElement();
          assert out == was;
          if |out| > 0 {
            break;
          }
          return if closed then EndOfFile else WouldBlock;
        }
      }
      assert out == was[..|out|] && Contents() == was[|out|..];
      r := Data(out);
    }
  }

  /** A buffer none of whose elements changed is the same queue. */
  twostate lemma Untouched(b: Buffer)
    requires old(b.Valid()) && b.spine == old(b.spine) && b.head == old(b.head) && b.tail == old(b.tail)
    requires forall e :: e in b.spine ==> e.buf == old(e.buf) && e.next == old(e.next)
    ensures b.Valid() && b.Contents() == old(b.Contents())
  {
    FlatFrame(b.spine);
  }
}
