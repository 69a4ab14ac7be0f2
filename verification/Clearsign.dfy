/** Clear-signed text (golang-x-crypto/openpgp/clearsign/clearsign.go; section 7.1 of RFC 4880): the escaper
    that writes the body and feeds the hash, and the decoder that rebuilds the hashed bytes from the body. */
module Clearsign {
  import opened Bytes

  const LF: byte := 10
  const CR: byte := 13
  const SPACE: byte := 32
  const TAB: byte := 9
  const DASH: byte := 45
  const CRLF: seq<byte> := [13, 10]
  const DASH_ESCAPE: seq<byte> := [45, 32]

  /** "-----BEGIN PGP SIGNATURE-----" */
  const END_TEXT: seq<byte> :=
    [45, 45, 45, 45, 45, 66, 69, 71, 73, 78, 32, 80, 71, 80, 32, 83, 73, 71, 78, 65, 84, 85, 82, 69, 45, 45, 45, 45, 45]

  // The escaper

  /** The escaper's fields: what it has written and hashed, its line flags and the held-back whitespace. */
  datatype Escaper = Escaper(out: seq<byte>, hashed: seq<byte>, lineStart: bool, firstLine: bool, held: seq<byte>)

  function New(): Escaper { Escaper([], [], true, true, []) }

  predicate Blank(b: byte) { b == SPACE || b == TAB || b == CR }

  /** One turn of Write's loop. */
  function FeedByte(d: Escaper, b: byte): Escaper {
    var d1 := if d.lineStart then d.(hashed := if d.firstLine then d.hashed else d.hashed + CRLF, firstLine := false)
        else d;
    if Blank(b) then d1.(held := d1.held + [b], lineStart := false)
    else if d1.lineStart then
      if b == DASH then d1.(out := d1.out + DASH_ESCAPE + [b], hashed := d1.hashed + [b], lineStart := false)
      else if b == LF then d1.(out := d1.out + [b])
      else d1.(out := d1.out + [b], hashed := d1.hashed + [b], lineStart := false)
    else if b == LF then d1.(out := d1.out + [b], held := [], lineStart := true)
    else d1.(out := d1.out + d1.held + [b], hashed := d1.hashed + d1.held + [b], held := [])
  }

  function Feed(d: Escaper, data: seq<byte>): Escaper
    decreases |data|
  {
    if data == [] then d else FeedByte(Feed(d, data[..|data| - 1]), data[|data| - 1])
  }

  /** Close ends an unfinished line. */
  function Finish(d: Escaper): seq<byte> { if d.lineStart then d.out else d.out + [LF] }

  /** Writing in two parts is writing once: the split of the input does not matter. */
  lemma {:induction false} FeedConcat(d: Escaper, a: seq<byte>, b: seq<byte>)
    ensures Feed(d, a + b) == Feed(Feed(d, a), b)
    decreases |b|
  {
    if b == [] {
      assert a + b == a;
    } else {
      FeedConcat(d, a, b[..|b| - 1]);
      assert (a + b)[..|a + b| - 1] == a + b[..|b| - 1];
    }
  }

  function FeedParts(d: Escaper, parts: seq<seq<byte>>): Escaper
    decreases |parts|
  {
    if parts == [] then d else FeedParts(Feed(d, parts[0]), parts[1..])
  }

  lemma {:induction false} AnySplit(d: Escaper, parts: seq<seq<byte>>)
    ensures FeedParts(d, parts) == Feed(d, Concat(parts))
    decreases |parts|
  {
    if parts != [] {
      AnySplit(Feed(d, parts[0]), parts[1..]);
      FeedConcat(d, parts[0], Concat(parts[1..]));
    }
  }

  // What the escaper means: lines without their trailing blanks

  predicate OneLine(s: seq<byte>) { forall i :: 0 <= i < |s| ==> s[i] != LF }

  function Trim(s: seq<byte>): (r: seq<byte>)
    ensures |r| <= |s| && r == s[..|r|]
    ensures r != [] ==> !Blank(r[|r| - 1])
    ensures forall i :: |r| <= i < |s| ==> Blank(s[i])
  {
    if s == [] then [] else if Blank(s[|s| - 1]) then Trim(s[..|s| - 1]) else s
  }

  function Escape(line: seq<byte>): seq<byte> {
    if line != [] && line[0] == DASH then DASH_ESCAPE + line else line
  }

  /** The position of the first newline, or the length. */
  function LineEnd(s: seq<byte>): (i: nat)
    ensures i <= |s| && (i < |s| ==> s[i] == LF) && OneLine(s[..i])
  {
    if s == [] || s[0] == LF then 0 else 1 + LineEnd(s[1..])
  }

  /** The lines of a text, trimmed; a newline ends a line and what follows the last one counts if not empty. */
  function Lines(text: seq<byte>): seq<seq<byte>>
    decreases |text|
  {
    if text == [] then [] else
    var i := LineEnd(text);
    if i == |text| then [Trim(text)] else [Trim(text[..i])] + Lines(text[i + 1..])
  }

  function Separator(first: bool): seq<byte> { if first then [] else CRLF }

  /** Lines joined by CRLF, continuing earlier ones unless first. */
  function Joined(lines: seq<seq<byte>>, first: bool): seq<byte> {
    if lines == [] then [] else Separator(first) + lines[0] + Joined(lines[1..], false)
  }

  function Body(lines: seq<seq<byte>>): seq<byte> {
    if lines == [] then [] else Escape(lines[0]) + [LF] + Body(lines[1..])
  }

  /** The escaper inside a line that began in state d. */
  function Midway(d: Escaper, line: seq<byte>): Escaper {
    Escaper(d.out + Escape(Trim(line)), d.hashed + Separator(d.firstLine) + Trim(line), false, false,
            line[|Trim(line)|..])
  }

  lemma FirstByte(d: Escaper, b: byte)
    requires d.lineStart && d.held == [] && b != LF
    ensures FeedByte(d, b) == Midway(d, [b])
  {
    if Blank(b) {
      assert [b][..0] == [];
      assert Trim([b]) == [];
      assert d.hashed + Separator(d.firstLine) + [] == d.hashed + Separator(d.firstLine);
    } else {
      assert Trim([b]) == [b];
    }
  }

  lemma BlankByte(d: Escaper, line: seq<byte>, b: byte)
    requires Blank(b)
    ensures FeedByte(Midway(d, line), b) == Midway(d, line + [b])
  {
    assert (line + [b])[..|line|] == line;
  }

  lemma EscapeGrows(t: seq<byte>, blanks: seq<byte>, b: byte)
    requires t == [] ==> blanks != [] && Blank(blanks[0])
    ensures Escape(t) + blanks + [b] == Escape(t + blanks + [b])
  {
  }

  lemma Append3(a: seq<byte>, b: seq<byte>, c: seq<byte>, d: seq<byte>)
    ensures a + b + c + d == a + (b + c + d)
  {
  }

  lemma OtherByte(d: Escaper, line: seq<byte>, b: byte)
    requires !Blank(b) && b != LF && line != []
    ensures FeedByte(Midway(d, line), b) == Midway(d, line + [b])
  {
    var t := Trim(line);
    var blanks := line[|t|..];
    var full := line + [b];
    assert full == t + blanks + [b] && Trim(full) == full;
    EscapeGrows(t, blanks, b);
    Append3(d.out, Escape(t), blanks, [b]);
    Append3(d.hashed + Separator(d.firstLine), t, blanks, [b]);
  }

  /** Part of a line, from the start of the line. */
  lemma {:induction false} FeedPartLine(d: Escaper, line: seq<byte>)
    requires d.lineStart && d.held == [] && OneLine(line) && line != []
    ensures Feed(d, line) == Midway(d, line)
    decreases |line|
  {
    var n := |line| - 1;
    var b := line[n];
    assert line == line[..n] + [b];
    if n == 0 {
      assert Feed(d, line[..0]) == d;
      FirstByte(d, b);
    } else {
      FeedPartLine(d, line[..n]);
      if Blank(b) {
        BlankByte(d, line[..n], b);
      } else {
        OtherByte(d, line[..n], b);
      }
    }
  }

  /** After a whole line. */
  function AfterLine(d: Escaper, line: seq<byte>): Escaper {
    Escaper(d.out + Escape(Trim(line)) + [LF], d.hashed + Separator(d.firstLine) + Trim(line), true, false, [])
  }

  lemma FeedLine(d: Escaper, line: seq<byte>)
    requires d.lineStart && d.held == [] && OneLine(line)
    ensures Feed(d, line + [LF]) == AfterLine(d, line)
  {
    assert (line + [LF])[..|line|] == line;
    if line != [] {
      FeedPartLine(d, line);
    } else {
      assert Feed(d, line) == d;
    }
  }

  lemma OneLineText(t: seq<byte>, first: bool)
    ensures Body([t]) == Escape(t) + [LF] && Joined([t], first) == Separator(first) + t
  {
    var one := [t];
    assert one[1..] == [];
  }

  lemma LastLine(d: Escaper, text: seq<byte>)
    requires d.lineStart && d.held == [] && text != [] && LineEnd(text) == |text|
    ensures Finish(Feed(d, text)) == d.out + Body(Lines(text))
    ensures Feed(d, text).hashed == d.hashed + Joined(Lines(text), d.firstLine)
  {
    assert text[..|text|] == text;
    FeedPartLine(d, text);
    var t := Trim(text);
    assert Lines(text) == [t];
    OneLineText(t, d.firstLine);
    Regroup(d.out, Escape(t), [LF]);
    Regroup(d.hashed, Separator(d.firstLine), t);
  }

  /** What the escaper writes and hashes for a text. */
  lemma {:induction false} FeedText(d: Escaper, text: seq<byte>)
    requires d.lineStart && d.held == []
    ensures Finish(Feed(d, text)) == d.out + Body(Lines(text))
    ensures Feed(d, text).hashed == d.hashed + Joined(Lines(text), d.firstLine)
    decreases |text|
  {
    if text != [] {
      var i := LineEnd(text);
      if i == |text| {
        LastLine(d, text);
      } else {
        var line, rest := text[..i], text[i + 1..];
        FeedSplit(d, text, line, rest);
        var d1 := AfterLine(d, line);
        FeedText(d1, rest);
        BodyStep(d.out, Trim(line), Lines(rest));
        JoinedStep(d.hashed, Trim(line), Lines(rest), d.firstLine);
      }
    }
  }

  lemma FeedSplit(d: Escaper, text: seq<byte>, line: seq<byte>, rest: seq<byte>)
    requires d.lineStart && d.held == [] && OneLine(line)
    requires LineEnd(text) < |text| && line == text[..LineEnd(text)] && rest == text[LineEnd(text) + 1..]
    ensures Feed(d, text) == Feed(AfterLine(d, line), rest) && Lines(text) == [Trim(line)] + Lines(rest)
  {
    assert text == line + [LF] + rest;
    FeedLine(d, line);
    FeedConcat(d, line + [LF], rest);
    LinesStep(text);
  }

  lemma LinesStep(text: seq<byte>)
    requires LineEnd(text) < |text|
    ensures var i := LineEnd(text); Lines(text) == [Trim(text[..i])] + Lines(text[i + 1..])
  {
  }

  lemma BodyStep(out: seq<byte>, l: seq<byte>, more: seq<seq<byte>>)
    ensures out + Escape(l) + [LF] + Body(more) == out + Body([l] + more)
  {
    assert ([l] + more)[1..] == more;
    assert Body([l] + more) == Escape(l) + [LF] + Body(more);
    Append3(out, Escape(l), [LF], Body(more));
  }

  lemma JoinedStep(hashed: seq<byte>, l: seq<byte>, more: seq<seq<byte>>, first: bool)
    ensures hashed + Separator(first) + l + Joined(more, false) == hashed + Joined([l] + more, first)
  {
    assert ([l] + more)[1..] == more;
    assert Joined([l] + more, first) == Separator(first) + l + Joined(more, false);
    Append3(hashed, Separator(first), l, Joined(more, false));
  }

  // The decoder

  /** getLine: the first line without its line ending, and the rest. */
  function GetLine(data: seq<byte>): (r: (seq<byte>, seq<byte>))
    ensures data != [] ==> |r.1| < |data|
  {
    var i := LineEnd(data);
    if i == |data| then (data, []) else
    (if i > 0 && data[i - 1] == CR then data[..i - 1] else data[..i], data[i + 1..])
  }

  function TrimRight(s: seq<byte>): seq<byte> {
    if s != [] && (s[|s| - 1] == SPACE || s[|s| - 1] == TAB) then TrimRight(s[..|s| - 1]) else s
  }

  function Unescape(line: seq<byte>): seq<byte> {
    TrimRight(if |line| >= 2 && line[..2] == DASH_ESCAPE then line[2..] else line)
  }

  datatype Decoded = Block(bytes: seq<byte>, plaintext: seq<byte>, rest: seq<byte>) | Incomplete

  /** Decode's body loop, from a given state of its buffers. */
  function DecodeBody(rest: seq<byte>, first: bool, bytes: seq<byte>, plaintext: seq<byte>): Decoded
    decreases |rest|
  {
    var (line, more) := GetLine(rest);
    if line == [] && more == [] then Incomplete
    else if line == END_TEXT then Block(bytes, plaintext, rest)
    else
      var l := Unescape(line);
      DecodeBody(more, false, bytes + Separator(first) + l, plaintext + l + [LF])
  }

  predicate Clean(line: seq<byte>) { OneLine(line) && (line != [] ==> !Blank(line[|line| - 1])) }

  lemma {:induction false} LinesClean(text: seq<byte>)
    ensures forall i :: 0 <= i < |Lines(text)| ==> Clean(Lines(text)[i])
    decreases |text|
  {
    if text != [] {
      var i := LineEnd(text);
      if i < |text| {
        LinesClean(text[i + 1..]);
      } else {
        assert text[..i] == text;
      }
    }
  }

  lemma UnescapeEscape(line: seq<byte>)
    requires Clean(line)
    ensures Unescape(Escape(line)) == line
  {
    var e := Escape(line);
    if line != [] && line[0] == DASH {
      assert e[2..] == line;
    } else if |line| >= 2 {
      assert line[..2][0] == line[0];
    }
  }

  lemma {:induction false} LineEndAt(line: seq<byte>, rest: seq<byte>)
    requires OneLine(line)
    ensures LineEnd(line + [LF] + rest) == |line|
    decreases |line|
  {
    if line != [] {
      LineEndAt(line[1..], rest);
      assert (line + [LF] + rest)[1..] == line[1..] + [LF] + rest;
    }
  }

  lemma GetLineOf(line: seq<byte>, rest: seq<byte>)
    requires OneLine(line) && (line != [] ==> line[|line| - 1] != CR)
    ensures GetLine(line + [LF] + rest) == (line, rest)
  {
    LineEndAt(line, rest);
    var data := line + [LF] + rest;
    assert data[..|line|] == line && data[|line| + 1..] == rest;
  }

  /** No line of a body can be taken for the signature header. */
  lemma NotEndText(line: seq<byte>)
    ensures Escape(line) != END_TEXT
  {
    if line != [] && line[0] == DASH {
      assert Escape(line)[1] == SPACE;
    } else if line != [] {
      assert Escape(line)[0] != DASH;
    }
  }

  function Plain(lines: seq<seq<byte>>): seq<byte> {
    if lines == [] then [] else lines[0] + [LF] + Plain(lines[1..])
  }

  function Ending(tail: seq<byte>): seq<byte> { END_TEXT + [LF] + tail }

  /** One turn of the decoder on an escaped line. */
  lemma DecodeLine(l: seq<byte>, more: seq<byte>, first: bool, bytes: seq<byte>, plaintext: seq<byte>)
    requires Clean(l) && more != []
    ensures DecodeBody(Escape(l) + [LF] + more, first, bytes, plaintext) ==
      DecodeBody(more, false, bytes + Separator(first) + l, plaintext + l + [LF])
  {
    assert OneLine(Escape(l));
    GetLineOf(Escape(l), more);
    NotEndText(l);
    UnescapeEscape(l);
  }

  lemma {:induction false} DecodeLines(lines: seq<seq<byte>>, tail: seq<byte>, first: bool, bytes: seq<byte>,
                                       plaintext: seq<byte>)
    requires forall i :: 0 <= i < |lines| ==> Clean(lines[i])
    ensures DecodeBody(Body(lines) + Ending(tail), first, bytes, plaintext) ==
      Block(bytes + Joined(lines, first), plaintext + Plain(lines), Ending(tail))
    decreases |lines|
  {
    if lines == [] {
      assert Body(lines) + Ending(tail) == Ending(tail);
      DecodeStops(tail, first, bytes, plaintext);
      assert bytes + Joined(lines, first) == bytes && plaintext + Plain(lines) == plaintext;
    } else {
      var l, more := lines[0], lines[1..];
      var after := Body(more) + Ending(tail);
      assert Body(lines) + Ending(tail) == Escape(l) + [LF] + after;
      DecodeLine(l, after, first, bytes, plaintext);
      DecodeLines(more, tail, false, bytes + Separator(first) + l, plaintext + l + [LF]);
      assert [l] + more == lines;
      JoinedStep(bytes, l, more, first);
      Append3(plaintext, l, [LF], Plain(more));
    }
  }

  lemma DecodeStops(tail: seq<byte>, first: bool, bytes: seq<byte>, plaintext: seq<byte>)
    ensures DecodeBody(Ending(tail), first, bytes, plaintext) == Block(bytes, plaintext, Ending(tail))
  {
    GetLineOf(END_TEXT, tail);
  }

  /** However the text is split into writes, the bytes Decode rebuilds from the emitted body are exactly those
      the escaper fed to the hash, and it stops at the signature. */
  lemma ClearsignRoundTrip(parts: seq<seq<byte>>, tail: seq<byte>)
    ensures var d := FeedParts(New(), parts);
      DecodeBody(Finish(d) + Ending(tail), true, [], []) ==
        Block(d.hashed, Plain(Lines(Concat(parts))), Ending(tail))
  {
    var text := Concat(parts);
    AnySplit(New(), parts);
    FeedText(New(), text);
    LinesClean(text);
    DecodeLines(Lines(text), tail, true, [], []);
    assert [] + Body(Lines(text)) == Body(Lines(text));
    assert [] + Joined(Lines(text), true) == Joined(Lines(text), true);
    assert [] + Plain(Lines(text)) == Plain(Lines(text));
  }

  // The objects

  class DashEscaper {
    var buffered: seq<byte>
    var hashed: seq<byte>
    var atBeginningOfLine: bool
    var isFirstLine: bool
    var whitespace: seq<byte>

    ghost function View(): Escaper
      reads this
    {
      Escaper(buffered, hashed, atBeginningOfLine, isFirstLine, whitespace)
    }

    constructor ()
      ensures View() == New()
    {
      buffered, hashed, atBeginningOfLine, isFirstLine, whitespace := [], [], true, true, [];
    }

    method WriteByte(b: byte)
      modifies this
      ensures View() == FeedByte(old(View()), b)
    {
      if atBeginningOfLine {
        if !isFirstLine {
          hashed := hashed + CRLF;
        }
        isFirstLine := false;
      }
      if b == SPACE || b == TAB || b == CR {
        whitespace := whitespace + [b];
        atBeginningOfLine := false;
        return;
      }
      if atBeginningOfLine {
        if b == DASH {
          buffered := buffered + DASH_ESCAPE;
          hashed := hashed + [b];
          atBeginningOfLine := false;
        } else if b != LF {
          hashed := hashed + [b];
          atBeginningOfLine := false;
        }
        buffered := buffered + [b];
      } else if b == LF {
        whitespace := [];
        buffered := buffered + [b];
        atBeginningOfLine := true;
      } else {
        if |whitespace| > 0 {
          hashed := hashed + whitespace;
          buffered := buffered + whitespace;
          whitespace := [];
        }
        hashed := hashed + [b];
        buffered := buffered + [b];
      }
    }

    method Write(data: seq<byte>) returns (n: nat)
      modifies this
      ensures View() == Feed(old(View()), data) && n == |data|
    {
      for i := 0 to |data|
        invariant View() == Feed(old(View()), data[..i])
      {
        WriteByte(data[i]);
        assert data[..i + 1][..i] == data[..i];
      }
      assert data[..|data|] == data;
      n := |data|;
    }

    method Close()
      modifies this`buffered
      ensures buffered == Finish(old(View()))
    {
      if !atBeginningOfLine {
        buffered := buffered + [LF];
      }
    }
  }

  /** Decode's body loop. */
  method DecodeLoop(data: seq<byte>) returns (b: Decoded)
    ensures b == DecodeBody(data, true, [], [])
  {
    var rest := data;
    var bytes: seq<byte>, plaintext: seq<byte> := [], [];
    var firstLine := true;
    while true
      invariant DecodeBody(rest, firstLine, bytes, plaintext) == DecodeBody(data, true, [], [])
      decreases |rest|
    {
      var begin := rest;
      var split := GetLine(rest);
      var line := split.0;
      rest := split.1;
      if |line| == 0 && |rest| == 0 {
        return Incomplete;
      }
      if line == END_TEXT {
        return Block(bytes, plaintext, begin);
      }
      bytes := bytes + Separator(firstLine);
      firstLine := false;
      line := Unescape(line);
      bytes := bytes + line;
      plaintext := plaintext + line + [LF];
    }
  }
}
