/** Fragmentation of an encoded OTR message and its reassembly
    (golang-x-crypto/otr/otr.go, encode and processFragment). */
module OtrFragments {
  import opened Bytes

  const COMMA: byte := 44
  const FRAGMENT_PREFIX: seq<byte> := [63, 79, 84, 82, 44]  // "?OTR,"
  const MESSAGE_PREFIX: seq<byte> := [63, 79, 84, 82, 58]   // "?OTR:"
  const MIN_FRAGMENT_SIZE: nat := 18
  const INT_LIMIT: nat := 0x8000_0000_0000_0000

  // ---- decimal integers ----

  function Itoa(n: nat): (s: seq<byte>)
    ensures |s| >= 1 && forall i :: 0 <= i < |s| ==> 48 <= s[i] <= 57
  {
    if n < 10 then [48 + n] else Itoa(n / 10) + [48 + n % 10]
  }

  function Digits(s: seq<byte>): Option<nat> {
    if s == [] then Some(0)
    else
      var last := s[|s| - 1];
      match Digits(s[..|s| - 1])
      case None => None
      case Some(v) => if 48 <= last <= 57 then Some(v * 10 + (last - 48)) else None
  }

  /** An optional sign, at least one digit and nothing else, within the range of a 64-bit int. */
  function Atoi(s: seq<byte>): Option<int> {
    if s == [] then None
    else
      var signed := s[0] == 43 || s[0] == 45;
      var digits := if signed then s[1..] else s;
      if digits == [] then None
      else
        match Digits(digits)
        case None => None
        case Some(v) =>
          if s[0] == 45 then (if v <= INT_LIMIT then Some(0 - v as int) else None)
          else if v < INT_LIMIT then Some(v) else None
  }

  lemma {:induction false} DigitsItoa(n: nat)
    ensures Digits(Itoa(n)) == Some(n)
  {
    if n < 10 {
      assert Itoa(n)[..0] == [];
    } else {
      DigitsItoa(n / 10);
      assert Itoa(n)[..|Itoa(n)| - 1] == Itoa(n / 10);
    }
  }

  lemma AtoiItoa(n: nat)
    requires n < INT_LIMIT
    ensures Atoi(Itoa(n)) == Some(n)
  {
    DigitsItoa(n);
  }

  function Pow10(k: nat): nat {
    if k == 0 then 1 else 10 * Pow10(k - 1)
  }

  /** A number has at most k digits exactly when it is below 10^k. */
  lemma {:induction false} ItoaLength(n: nat, k: nat)
    requires k >= 1
    ensures |Itoa(n)| <= k <==> n < Pow10(k)
    decreases k
  {
    if k == 1 {
      assert Pow10(1) == 10;
    } else if n >= 10 {
      ItoaLength(n / 10, k - 1);
    } else {
      PowPositive(k - 1);
    }
  }

  lemma {:induction false} PowPositive(k: nat)
    ensures Pow10(k) >= 1
  {
    if k != 0 { PowPositive(k - 1); }
  }

  // ---- splitting at commas ----

  function IndexOf(s: seq<byte>, c: byte): (i: nat)
    ensures i <= |s|
    ensures forall j :: 0 <= j < i ==> s[j] != c
    ensures i < |s| ==> s[i] == c
  {
    if s == [] || s[0] == c then 0 else 1 + IndexOf(s[1..], c)
  }

  /** `bytes.Split` on one byte */
  function Split(s: seq<byte>, c: byte): seq<seq<byte>>
    decreases |s|
  {
    var i := IndexOf(s, c);
    if i == |s| then [s] else [s[..i]] + Split(s[i + 1..], c)
  }

  lemma SplitAt(part: seq<byte>, rest: seq<byte>, c: byte)
    requires c !in part
    ensures Split(part + [c] + rest, c) == [part] + Split(rest, c)
  {
    var s := part + [c] + rest;
    var i := IndexOf(s, c);
    assert s[|part|] == c;
    assert forall j :: 0 <= j < |part| ==> s[j] == part[j] && part[j] in part;
    assert i == |part|;
    assert s[..i] == part && s[i + 1..] == rest;
  }

  // ---- encoding ----

  /** The base64 alphabet. */
  function Base64Char(v: nat): (b: byte)
    requires v < 64
    ensures b != COMMA
  {
    if v < 26 then 65 + v else if v < 52 then 97 + (v - 26) else if v < 62 then 48 + (v - 52) else if v == 62 then 43
        else 47
  }

  function Base64(m: seq<byte>): (s: seq<byte>)
    ensures COMMA !in s
  {
    if m == [] then []
    else if |m| == 1 then [Base64Char(m[0] / 4), Base64Char(m[0] % 4 * 16), 61, 61]
    else if |m| == 2 then
      [Base64Char(m[0] / 4), Base64Char(m[0] % 4 * 16 + m[1] / 16), Base64Char(m[1] % 16 * 4), 61]
    else
      [Base64Char(m[0] / 4), Base64Char(m[0] % 4 * 16 + m[1] / 16),
       Base64Char(m[1] % 16 * 4 + m[2] / 64), Base64Char(m[2] % 64)] + Base64(m[3..])
  }

  function Armored(msg: seq<byte>): (s: seq<byte>)
    ensures COMMA !in s
  {
    MESSAGE_PREFIX + Base64(msg) + [46]
  }

  function FragmentCount(length: nat, perFragment: nat): nat
    requires perFragment > 0
  {
    (length + perFragment) / perFragment
  }

  /** The i-th stretch of the text; the stretches past its end are empty. */
  function Piece(text: seq<byte>, perFragment: nat, i: nat): seq<byte> {
    text[Min(i * perFragment, |text|)..Min(i * perFragment + perFragment, |text|)]
  }

  /** What the first i pieces hold. */
  function Covered(text: seq<byte>, perFragment: nat, i: nat): seq<byte> {
    text[..Min(i * perFragment, |text|)]
  }

  function Fragment(k: nat, n: nat, piece: seq<byte>): (f: seq<byte>)
    ensures |f| == 8 + |Itoa(k)| + |Itoa(n)| + |piece|
  {
    FRAGMENT_PREFIX + (Itoa(k) + [COMMA] + (Itoa(n) + [COMMA] + (piece + [COMMA] + [])))
  }

  function Fragments(text: seq<byte>, perFragment: nat, n: nat, count: nat): (r: seq<seq<byte>>)
    ensures |r| == count
    ensures forall i :: 0 <= i < count ==> r[i] == Fragment(i + 1, n, Piece(text, perFragment, i))
  {
    if count == 0 then []
    else Fragments(text, perFragment, n, count - 1) + [Fragment(count, n, Piece(text, perFragment, count - 1))]
  }

  datatype Encoded = Messages(parts: seq<seq<byte>>) | DivisionByZero

  /** encode: one message, or fragments. A fragment size of exactly 18 leaves no room for payload
      and the fragment count divides by zero. */
  method Encode(msg: seq<byte>, fragmentSize: int) returns (r: Encoded)
    ensures var text := Armored(msg);
            r == if fragmentSize < MIN_FRAGMENT_SIZE || |text| <= fragmentSize then Messages([text])
                 else if fragmentSize == MIN_FRAGMENT_SIZE then DivisionByZero
                 else AllFragments(text, fragmentSize - MIN_FRAGMENT_SIZE)
  {
    var b64 := Armored(msg);
    if fragmentSize < MIN_FRAGMENT_SIZE || |b64| <= fragmentSize {
      return Messages([b64]);
    }
    var per := fragmentSize - MIN_FRAGMENT_SIZE;
    if per == 0 {
      return DivisionByZero;
    }
    r := Cut(b64, per);
  }

  function AllFragments(text: seq<byte>, per: nat): Encoded
    requires per > 0
  {
    var n := FragmentCount(|text|, per);
    Messages(Fragments(text, per, n, n))
  }

  /** The fragmenting loop of encode. */
  method Cut(text: seq<byte>, per: nat) returns (r: Encoded)
    requires per > 0
    ensures r == AllFragments(text, per)
  {
    var b64 := text;
    var n := (|b64| + per) / per;
    var ret := [];
    var i := 0;
    while i < n
      invariant 0 <= i <= n
      invariant b64 == Remaining(text, per, i)
      invariant ret == Fragments(text, per, n, i)
    {
      NextPiece(text, per, i);
      var frag := FRAGMENT_PREFIX + (Itoa(i + 1) + [COMMA] + (Itoa(n) + [COMMA]
          + (b64[..Min(per, |b64|)] + [COMMA] + [])));
      b64 := b64[Min(per, |b64|)..];
      ret := ret + [frag];
      i := i + 1;
    }
    return Messages(ret);
  }

  /** What the first i pieces leave. */
  function Remaining(text: seq<byte>, per: nat, i: nat): seq<byte> {
    text[Min(i * per, |text|)..]
  }

  lemma NextPiece(text: seq<byte>, per: nat, i: nat)
    ensures var rest := Remaining(text, per, i);
            rest[..Min(per, |rest|)] == Piece(text, per, i) && rest[Min(per, |rest|)..] == Remaining(text, per, i + 1)
  {
    assert (i + 1) * per == i * per + per;
  }

  // ---- reassembly ----

  datatype Outcome = Complete(message: seq<byte>) | Incomplete | Invalid

  /** The fragment state of a conversation. */
  datatype State = State(k: int, n: int, frag: seq<byte>)

  /** One well-formed fragment: start, continue or drop the message under assembly. */
  function Accumulate(s: State, k: int, n: int, payload: seq<byte>): (State, Outcome) {
    var t := if k == 1 then State(k, n, payload)
             else if n == s.n && k == s.k + 1 then State(s.k + 1, s.n, s.frag + payload)
             else State(0, 0, []);
    if t.n > 0 && t.k == t.n then (State(0, 0, t.frag), Complete(t.frag)) else (t, Incomplete)
  }

  /** processFragment on a message that starts with the fragment prefix. */
  function Process(s: State, msg: seq<byte>): (State, Outcome)
    requires |msg| >= |FRAGMENT_PREFIX|
  {
    var parts := Split(msg[|FRAGMENT_PREFIX|..], COMMA);
    if |parts| != 4 || |parts[3]| != 0 then (s, Invalid)
    else
      match (Atoi(parts[0]), Atoi(parts[1]))
      case (Some(k), Some(n)) => if k < 1 || n < 1 || k > n then (s, Invalid) else Accumulate(s, k, n, parts[2])
      case _ => (s, Invalid)
  }

  class Reassembler {
    var k: int
    var n: int
    var frag: seq<byte>

    constructor ()
      ensures k == 0 && n == 0 && frag == []
    {
      k, n, frag := 0, 0, [];
    }

    method ProcessFragment(msg: seq<byte>) returns (out: Outcome)
      requires |msg| >= |FRAGMENT_PREFIX|
      modifies this
      ensures (State(k, n, frag), out) == Process(old(State(k, n, frag)), msg)
    {
      var parts := Split(msg[|FRAGMENT_PREFIX|..], COMMA);
      if |parts| != 4 || |parts[3]| != 0 {
        return Invalid;
      }
      var k', n' := Atoi(parts[0]), Atoi(parts[1]);
      if k'.None? || n'.None? || k'.value < 1 || n'.value < 1 || k'.value > n'.value {
        return Invalid;
      }
      if k'.value == 1 {
        frag, k, n := parts[2], 1, n'.value;
      } else if n'.value == n && k'.value == k + 1 {
        frag, k := frag + parts[2], k + 1;
      } else {
        frag, n, k := [], 0, 0;
      }
      if n > 0 && k == n {
        n, k := 0, 0;
        return Complete(frag);
      }
      return Incomplete;
    }
  }

  // ---- the round trip ----

  lemma NoCommaInDigits(n: nat)
    ensures COMMA !in Itoa(n)
  {
  }

  lemma SplitOne(part: seq<byte>, rest: seq<byte>, more: seq<seq<byte>>)
    requires COMMA !in part && Split(rest, COMMA) == more
    ensures Split(part + [COMMA] + rest, COMMA) == [part] + more
  {
    SplitAt(part, rest, COMMA);
  }

  lemma SplitFragment(k: nat, n: nat, piece: seq<byte>)
    requires COMMA !in piece
    ensures Split(Fragment(k, n, piece)[|FRAGMENT_PREFIX|..], COMMA) == [Itoa(k), Itoa(n), piece, []]
  {
    var s2 := piece + [COMMA] + [];
    var s1 := Itoa(n) + [COMMA] + s2;
    var s := Itoa(k) + [COMMA] + s1;
    assert Fragment(k, n, piece)[|FRAGMENT_PREFIX|..] == s;
    NoCommaInDigits(n);
    NoCommaInDigits(k);
    SplitOne(piece, [], [[]]);
    SplitOne(Itoa(n), s2, [piece] + [[]]);
    SplitOne(Itoa(k), s1, [Itoa(n)] + ([piece] + [[]]));
  }

  lemma ProcessOne(s: State, k: nat, n: nat, piece: seq<byte>)
    requires COMMA !in piece && 1 <= k <= n < INT_LIMIT
    ensures Process(s, Fragment(k, n, piece)) == Accumulate(s, k, n, piece)
  {
    SplitFragment(k, n, piece);
    AtoiItoa(k);
    AtoiItoa(n);
  }

  /** The state after the first i fragments, and the outcome of the i-th. */
  function Feed(s: State, parts: seq<seq<byte>>): (State, seq<Outcome>)
    requires forall i :: 0 <= i < |parts| ==> |parts[i]| >= |FRAGMENT_PREFIX|
  {
    if parts == [] then (s, [])
    else
      var (t, outs) := Feed(s, parts[..|parts| - 1]);
      var (u, out) := Process(t, parts[|parts| - 1]);
      (u, outs + [out])
  }

  /** The pieces of the text cover it: all but the last fragment leave part of it or exactly all. */
  lemma PiecesCover(length: nat, per: nat)
    requires per > 0
    ensures var n := FragmentCount(length, per); (n - 1) * per <= length < n * per && n >= 1
    ensures length >= per ==> FragmentCount(length, per) >= 2
  {
    var n := FragmentCount(length, per);
    assert length + per == n * per + (length + per) % per;
    assert n * per == (n - 1) * per + per;
  }

  lemma PieceHasNoComma(text: seq<byte>, per: nat, i: nat)
    requires COMMA !in text
    ensures COMMA !in Piece(text, per, i)
  {
  }

  /** What the i-th fragment does to the state that the ones before it leave. */
  lemma NextFragment(s: State, text: seq<byte>, per: nat, n: nat, i: nat)
    requires per > 0 && COMMA !in text && n == FragmentCount(|text|, per) && 2 <= n < INT_LIMIT && 1 <= i <= n
    requires i == 1 || s == State(i - 1, n, Covered(text, per, i - 1))
    ensures Process(s, Fragment(i, n, Piece(text, per, i - 1))) ==
            if i == n then (State(0, 0, text), Complete(text)) else (State(i, n, Covered(text, per, i)), Incomplete)
  {
    PiecesCover(|text|, per);
    PieceHasNoComma(text, per, i - 1);
    ProcessOne(s, i, n, Piece(text, per, i - 1));
    PieceExtends(text, per, i);
  }

  /** The pieces before the i-th, and the i-th. */
  lemma PieceExtends(text: seq<byte>, per: nat, i: nat)
    requires per > 0 && i >= 1
    ensures Covered(text, per, i - 1) + Piece(text, per, i - 1) == Covered(text, per, i)
    ensures i == 1 ==> Piece(text, per, 0) == Covered(text, per, 1)
    ensures i * per >= |text| ==> Covered(text, per, i) == text
  {
    assert (i - 1) * per + per == i * per;
  }

  /** The outcomes of i fragments none of which completes a message. */
  function Nothing(i: nat): (r: seq<Outcome>)
    ensures |r| == i && forall j :: 0 <= j < i ==> r[j] == Incomplete
  {
    if i == 0 then [] else Nothing(i - 1) + [Incomplete]
  }

  lemma FeedNext(s: State, parts: seq<seq<byte>>, p: seq<byte>)
    requires forall i :: 0 <= i < |parts| ==> |parts[i]| >= |FRAGMENT_PREFIX|
    requires |p| >= |FRAGMENT_PREFIX|
    ensures var (t, outs) := Feed(s, parts);
            Feed(s, parts + [p]) == (Process(t, p).0, outs + [Process(t, p).1])
  {
    assert (parts + [p])[..|parts|] == parts;
  }

  /** After i fragments, from any earlier state, the text assembled so far is the covered prefix. */
  lemma {:induction false} FeedPrefix(s: State, text: seq<byte>, per: nat, n: nat, i: nat)
    requires per > 0 && COMMA !in text && n == FragmentCount(|text|, per) && 2 <= n < INT_LIMIT && 1 <= i <= n
    ensures Feed(s, Fragments(text, per, n, i)) ==
            if i < n then (State(i, n, Covered(text, per, i)), Nothing(i))
            else (State(0, 0, text), Nothing(n - 1) + [Complete(text)])
    decreases i
  {
    var parts, next := Fragments(text, per, n, i - 1), Fragment(i, n, Piece(text, per, i - 1));
    var (t, _) := Feed(s, parts);
    FeedNext(s, parts, next);
    if i > 1 {
      FeedPrefix(s, text, per, n, i - 1);
    }
    NextFragment(t, text, per, n, i);
  }

  /** Fed in order into any earlier fragment state, the fragments of a message give nothing until the
      last one, and then the message itself. */
  lemma FragmentRoundTrip(s: State, msg: seq<byte>, per: nat, n: nat)
    requires 0 < per <= |Armored(msg)| && n == FragmentCount(|Armored(msg)|, per) && n < INT_LIMIT
    ensures n >= 2
    ensures Feed(s, Fragments(Armored(msg), per, n, n)).1 == Nothing(n - 1) + [Complete(Armored(msg))]
  {
    var text := Armored(msg);
    PiecesCover(|text|, per);
    FeedPrefix(s, text, per, n, n);
  }

  lemma FragmentLength(text: seq<byte>, per: nat, n: nat, i: nat)
    requires per > 0 && n == FragmentCount(|text|, per) && i < n
    ensures var f := Fragment(i + 1, n, Piece(text, per, i));
            && |f| <= 8 + |Itoa(i + 1)| + |Itoa(n)| + per
            && (i + 1 < n ==> |f| == 8 + |Itoa(i + 1)| + |Itoa(n)| + per)
  {
    PiecesCover(|text|, per);
    if i + 1 < n {
      assert (i + 1) * per <= (n - 1) * per;
      assert (i + 1) * per == i * per + per;
    }
  }

  /** Every fragment fits in the fragment size exactly when there are at most 99999 of them. */
  lemma FragmentsFit(text: seq<byte>, fragmentSize: int)
    requires fragmentSize > MIN_FRAGMENT_SIZE
    ensures var per := fragmentSize - MIN_FRAGMENT_SIZE;
            var n := FragmentCount(|text|, per);
            (forall i :: 0 <= i < n ==> |Fragment(i + 1, n, Piece(text, per, i))| <= fragmentSize) <==> n <= 99999
  {
    var per := fragmentSize - MIN_FRAGMENT_SIZE;
    var n := FragmentCount(|text|, per);
    assert Pow10(5) == 100000;
    ItoaLength(n, 5);
    if n <= 99999 {
      forall i | 0 <= i < n
        ensures |Fragment(i + 1, n, Piece(text, per, i))| <= fragmentSize
      {
        FragmentLength(text, per, n, i);
        ItoaLength(i + 1, 5);
      }
    } else {
      assert Pow10(4) == 10000;
      ItoaLength(10000, 4);
      FragmentLength(text, per, n, 9999);
      assert |Fragment(10000, n, Piece(text, per, 9999))| > fragmentSize;
    }
  }
}
