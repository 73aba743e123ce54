/**
 * The pieces of a warning: prefix and suffix as they are, the body with each control
 * character escaped, yielded one after another without building the text.
 */
module Warnings {
  import opened Common

  /** err(3)'s escape for each C0 byte; empty means as is. */
  const WARN_ESCAPES: seq<string> := [
    "", "\\001", "\\002", "\\003", "\\004", "\\005", "\\006", "\\a",
    "\\b", "", "", "\\v", "\\f", "\\r", "\\016", "\\017",
    "\\020", "\\021", "\\022", "\\023", "\\024", "\\025", "\\026", "\\027",
    "\\030", "\\031", "\\032", "\\033", "\\034", "\\035", "\\036", "\\037"]

  function WarnEscape(byte: char): string {
    if byte as int < |WARN_ESCAPES| then WARN_ESCAPES[byte as int] else ""
  }

  /** The body with each byte replaced by its escape, or itself. */
  function Escaped(body: string): string {
    if body == "" then ""
    else (if WarnEscape(body[0]) != "" then WarnEscape(body[0]) else [body[0]]) + Escaped(body[1..])
  }

  lemma {:induction false} EscapedConcat(a: string, b: string)
    ensures Escaped(a + b) == Escaped(a) + Escaped(b)
  {
    if a == "" {
      assert a + b == b;
    } else {
      assert (a + b)[1..] == a[1..] + b;
      EscapedConcat(a[1..], b);
    }
  }

  lemma {:induction false} EscapedRaw(run: string)
    requires forall i | 0 <= i < |run| :: WarnEscape(run[i]) == ""
    ensures Escaped(run) == run
  {
    if run != "" { EscapedRaw(run[1..]); }
  }

  // ---- Escapes read back ----

  /** C's named escapes, by their letters. */
  function Named(letter: char): Option<int> {
    match letter
    case 'a' => Some(7)
    case 'b' => Some(8)
    case 'v' => Some(11)
    case 'f' => Some(12)
    case 'r' => Some(13)
    case _ => None
  }

  predicate OctalDigit(c: char) {
    '0' <= c <= '7'
  }

  /** The byte at the head of escaped text, and how many characters stand for it. */
  function ReadByte(s: string): (int, nat)
    requires s != ""
  {
    if s[0] != '\\' || |s| < 2 then (s[0] as int, 1)
    else if Named(s[1]).Some? then (Named(s[1]).value, 2)
    else if |s| >= 4 && OctalDigit(s[1]) && OctalDigit(s[2]) && OctalDigit(s[3]) then
      ((s[1] as int - 48) * 64 + (s[2] as int - 48) * 8 + (s[3] as int - 48), 4)
    else (s[0] as int, 1)
  }

  /** Which bytes are escaped at all: all below 32 but NUL, tab and newline. */
  lemma EscapedBytes(byte: char)
    ensures WarnEscape(byte) == "" <==> byte as int >= 32 || byte as int == 0 || byte as int == 9 || byte as int == 10
  {
    var code := byte as int;
    if code < 32 { assert code <= 7 || 8 <= code <= 15 || 16 <= code <= 23 || 24 <= code; }
  }

  /** An escape names its byte, by letter or by three octal digits, whatever follows it. */
  lemma EscapeReadsBack(byte: char, behind: string)
    requires WarnEscape(byte) != ""
    ensures ReadByte(WarnEscape(byte) + behind) == (byte as int, |WarnEscape(byte)|)
  {
    var code, s := byte as int, WarnEscape(byte) + behind;
    assert s[0] == WarnEscape(byte)[0] && s[1] == WarnEscape(byte)[1];
    if |WarnEscape(byte)| == 4 { assert s[2] == WarnEscape(byte)[2] && s[3] == WarnEscape(byte)[3]; }
    assert code <= 7 || 8 <= code <= 15 || 16 <= code <= 23 || 24 <= code;
  }

  /** The bytes that escaped text stands for. */
  function ReadBack(s: string): seq<int>
    decreases |s|
  {
    if s == "" then []
    else
      var (byte, n) := ReadByte(s);
      [byte] + if n <= |s| then ReadBack(s[n..]) else []
  }

  function Codes(s: string): (codes: seq<int>)
    ensures |codes| == |s| && forall i | 0 <= i < |s| :: codes[i] == s[i] as int
  {
    if s == "" then [] else [s[0] as int] + Codes(s[1..])
  }

  /** A body without backslashes can be read back from what is printed of it. */
  lemma {:induction false} EscapedReadsBack(body: string)
    requires forall i | 0 <= i < |body| :: body[i] != '\\'
    ensures ReadBack(Escaped(body)) == Codes(body)
  {
    if body != "" {
      EscapedReadsBack(body[1..]);
      var behind, escape := Escaped(body[1..]), WarnEscape(body[0]);
      if escape != "" {
        EscapeReadsBack(body[0], behind);
        assert (escape + behind)[|escape|..] == behind;
      } else {
        assert Escaped(body) == [body[0]] + behind;
        assert ([body[0]] + behind)[1..] == behind;
      }
    }
  }

  predicate Printable(c: char) {
    c as int >= 32 || c as int == 0 || c as int == 9 || c as int == 10
  }

  lemma EscapeIsPrintable(byte: char)
    ensures var out := if WarnEscape(byte) != "" then WarnEscape(byte) else [byte];
      forall i | 0 <= i < |out| :: Printable(out[i])
  {
    var code := byte as int;
    if code < 32 {
      assert code <= 7 || 8 <= code <= 15 || 16 <= code <= 23 || 24 <= code;
    }
  }

  /** No control character but NUL, tab and newline gets through. */
  lemma {:induction false} EscapedIsPrintable(body: string)
    ensures forall i | 0 <= i < |Escaped(body)| :: Printable(Escaped(body)[i])
  {
    if body != "" {
      EscapeIsPrintable(body[0]);
      EscapedIsPrintable(body[1..]);
    }
  }

  const BODY := 1
  const END := 3

  /** Head, body and tail, each of any number of pieces, empty ones too. */
  type Parts = p: seq<seq<string>> | |p| == END witness [[], [], []]

  function Printed(p: nat, text: string): string {
    if p == BODY then Escaped(text) else text
  }

  /** What the parts from `p` on print, and how many bytes they hold. */
  function Later(parts: Parts, p: nat): string
    requires p <= END
    decreases END - p
  {
    if p == END then "" else Printed(p, Flatten(parts[p])) + Later(parts, p + 1)
  }

  function Bytes(parts: Parts, p: nat): nat
    requires p <= END
    decreases END - p
  {
    if p == END then 0 else |Flatten(parts[p])| + Bytes(parts, p + 1)
  }

  /** A place between two bytes, pieces or parts. */
  ghost predicate Place(parts: Parts, part: nat, index: nat, offset: nat) {
    && part <= END
    && (part == END ==> index == 0 && offset == 0)
    && (part < END ==> index <= |parts[part]| && (index == |parts[part]| ==> offset == 0))
    && (part < END && index < |parts[part]| ==> offset <= |parts[part][index]|)
  }

  /** The raw text of a part from a place in it. */
  function RawAt(parts: Parts, part: nat, index: nat, offset: nat): string
    requires Place(parts, part, index, offset) && part < END
  {
    if index == |parts[part]| then "" else parts[part][index][offset..] + Flatten(parts[part][index + 1..])
  }

  /** What is printed from a place on. */
  function TextAt(parts: Parts, part: nat, index: nat, offset: nat): string
    requires Place(parts, part, index, offset)
  {
    if part == END then "" else Printed(part, RawAt(parts, part, index, offset)) + Later(parts, part + 1)
  }

  function BytesAt(parts: Parts, part: nat, index: nat, offset: nat): nat
    requires Place(parts, part, index, offset)
  {
    if part == END then 0 else |RawAt(parts, part, index, offset)| + Bytes(parts, part + 1)
  }

  lemma WholeText(head: seq<string>, body: seq<string>, tail: seq<string>)
    ensures TextAt([head, body, tail], 0, 0, 0) == Flatten(head) + Escaped(Flatten(body)) + Flatten(tail)
  {
    hide WarnEscape, Flatten;
    var parts: Parts := [head, body, tail];
    PartStart(parts, 0);
    assert Later(parts, 1) == Escaped(Flatten(body)) + Later(parts, 2);
    assert Later(parts, 2) == Flatten(tail) + Later(parts, 3);
    hide Escaped;
    ThreeParts(Flatten(head), Escaped(Flatten(body)), Flatten(tail));
  }

  lemma ThreeParts(a: string, b: string, c: string)
    ensures a + (b + (c + "")) == a + b + c
  {
  }

  lemma PartStart(parts: Parts, p: nat)
    requires p < END
    ensures RawAt(parts, p, 0, 0) == Flatten(parts[p])
  {
  }

  /** Nothing is printed between the end of a part and the start of the next. */
  lemma PartSkipped(parts: Parts, p: nat)
    requires p < END
    ensures TextAt(parts, p, |parts[p]|, 0) == TextAt(parts, p + 1, 0, 0)
    ensures BytesAt(parts, p, |parts[p]|, 0) == BytesAt(parts, p + 1, 0, 0)
  {
    assert Escaped("") == "";
    hide Escaped, Flatten;
    if p + 1 < END { PartStart(parts, p + 1); }
  }

  lemma PieceSkipped(parts: Parts, p: nat, i: nat)
    requires p < END && i < |parts[p]|
    ensures TextAt(parts, p, i, |parts[p][i]|) == TextAt(parts, p, i + 1, 0)
    ensures BytesAt(parts, p, i, |parts[p][i]|) == BytesAt(parts, p, i + 1, 0)
  {
    hide Escaped, WarnEscape;
    assert RawAt(parts, p, i, |parts[p][i]|) == RawAt(parts, p, i + 1, 0) by {
      if i + 1 < |parts[p]| { assert parts[p][i + 1..][1..] == parts[p][i + 2..]; }
    }
  }

  lemma PrintedConcat(p: nat, a: string, b: string)
    ensures Printed(p, a + b) == Printed(p, a) + Printed(p, b)
  {
    EscapedConcat(a, b);
    hide Escaped;
  }

  lemma SplitAt(s: string, n: nat, behind: string)
    requires n <= |s|
    ensures s + behind == s[..n] + (s[n..] + behind)
  {
    assert s == s[..n] + s[n..];
  }

  lemma DropTwice(s: string, o: nat, n: nat)
    requires o + n <= |s|
    ensures s[o..][n..] == s[o + n..]
  {
  }

  lemma RawTaken(parts: Parts, p: nat, i: nat, o: nat, n: nat)
    requires p < END && i < |parts[p]| && o + n <= |parts[p][i]|
    ensures RawAt(parts, p, i, o) == parts[p][i][o..][..n] + RawAt(parts, p, i, o + n)
  {
    hide Flatten;
    SplitAt(parts[p][i][o..], n, Flatten(parts[p][i + 1..]));
    DropTwice(parts[p][i], o, n);
  }

  /** Taking `n` bytes of a piece prints what they print. */
  lemma BytesTaken(parts: Parts, p: nat, i: nat, o: nat, n: nat)
    requires p < END && i < |parts[p]| && o + n <= |parts[p][i]|
    ensures TextAt(parts, p, i, o) == Printed(p, parts[p][i][o..][..n]) + TextAt(parts, p, i, o + n)
    ensures BytesAt(parts, p, i, o) == n + BytesAt(parts, p, i, o + n)
  {
    hide RawAt, Printed, Later, Bytes;
    RawTaken(parts, p, i, o, n);
    PrintedConcat(p, parts[p][i][o..][..n], RawAt(parts, p, i, o + n));
  }

  class Iterator {
    const parts: Parts
    var part: nat
    var index: nat
    var offset: nat

    ghost predicate Valid()
      reads this
    {
      Place(parts, part, index, offset)
    }

    /** Standing at a byte, or at the end. */
    ghost predicate Settled()
      reads this
      requires Valid()
    {
      part < END ==> index < |parts[part]| && offset < |parts[part][index]|
    }

    /** What is still to be printed. */
    ghost function Remaining(): string
      reads this
      requires Valid()
    {
      TextAt(parts, part, index, offset)
    }

    ghost function Todo(): nat
      reads this
      requires Valid()
    {
      BytesAt(parts, part, index, offset)
    }

    constructor (head: seq<string>, body: seq<string>, tail: seq<string>)
      ensures Valid() && Settled()
      ensures Remaining() == Flatten(head) + Escaped(Flatten(body)) + Flatten(tail)
    {
      parts := [head, body, tail];
      part, index, offset := 0, 0, 0;
      new;
      hide Escaped, Flatten, TextAt, BytesAt;
      WholeText(head, body, tail);
      Settle();
    }

    /** Skips what is used up or empty. */
    method Settle()
      requires Valid()
      modifies this
      ensures Valid() && Settled()
      ensures Remaining() == old(Remaining()) && Todo() == old(Todo())
    {
      hide TextAt, BytesAt;
      while part < END
        invariant Valid() && Remaining() == old(Remaining()) && Todo() == old(Todo())
        decreases END - part, if part < END then |parts[part]| - index else 0
      {
        if index == |parts[part]| {
          PartSkipped(parts, part);
          part := part + 1;
          index := 0;
          offset := 0;
        } else if offset == |parts[part][index]| {
          PieceSkipped(parts, part, index);
          index := index + 1;
          offset := 0;
        } else {
          return;
        }
      }
    }

    function Rest(): (rest: string)
      reads this
      requires Valid() && Settled() && part < END
      ensures rest != ""
    {
      parts[part][index][offset..]
    }

    /** How many bytes of the piece are yielded next. */
    ghost function Take(): (n: nat)
      reads this
      requires Valid() && Settled() && part < END
      ensures 0 < n <= |Rest()|
    {
      RawRunStops(Rest());
      if part != BODY then |Rest()| else if WarnEscape(Rest()[0]) != "" then 1 else RawRun(Rest())
    }

    method Current() returns (piece: string)
      requires Valid() && Settled() && part < END
      ensures piece != "" && piece == Printed(part, Rest()[..Take()])
    {
      hide WarnEscape;
      var rest := Rest();
      if part != BODY { return rest; }
      if WarnEscape(rest[0]) != "" {
        assert rest[..1] == [rest[0]];
        assert Escaped([rest[0]]) == WarnEscape(rest[0]) + Escaped("");
        return WarnEscape(rest[0]);
      }
      RawRunStops(rest);
      EscapedRaw(rest[..RawRun(rest)]);
      piece := rest[..RawRun(rest)];
    }

    /** Past the piece that was current: what it printed is what is no longer to be printed. */
    method Next()
      requires Valid() && Settled() && part < END
      modifies this
      ensures Valid() && Settled() && Todo() < old(Todo())
      ensures old(Remaining()) == old(Printed(part, Rest()[..Take()])) + Remaining()
    {
      hide TextAt, BytesAt, WarnEscape, Printed;
      var rest := Rest();
      BytesTaken(parts, part, index, offset, Take());
      RawRunStops(rest);
      if part != BODY {
        offset := offset + |rest|;
      } else if WarnEscape(rest[0]) != "" {
        offset := offset + 1;
      } else {
        offset := offset + RawRun(rest);
      }
      Settle();
    }
  }

  /** Bytes at the front that need no escape. */
  function RawRun(rest: string): nat {
    if rest == "" || WarnEscape(rest[0]) != "" then 0 else 1 + RawRun(rest[1..])
  }

  lemma {:induction false} RawRunStops(rest: string)
    ensures var n := RawRun(rest);
      && n <= |rest| && (forall i | 0 <= i < n :: WarnEscape(rest[i]) == "")
      && (n < |rest| ==> WarnEscape(rest[n]) != "")
  {
    hide WarnEscape;
    if rest != "" && WarnEscape(rest[0]) == "" { RawRunStops(rest[1..]); }
  }

  lemma PieceTaken(pieces: seq<string>, piece: string, behind: string)
    ensures Flatten(pieces) + (piece + behind) == Flatten(pieces + [piece]) + behind
  {
    FlattenPush(pieces, piece);
  }

  /** From begin to end: no piece is empty, and one after another they are the warning. */
  method Pieces(head: seq<string>, body: seq<string>, tail: seq<string>) returns (pieces: seq<string>)
    ensures Flatten(pieces) == Flatten(head) + Escaped(Flatten(body)) + Flatten(tail)
    ensures forall piece | piece in pieces :: piece != ""
  {
    hide Flatten, Escaped, WarnEscape, Printed, BytesAt, TextAt;
    var it := new Iterator(head, body, tail);
    ghost var text := it.Remaining();
    pieces := [];
    NoneYet(text);
    while it.part < END
      invariant it.Valid() && it.Settled() && fresh(it)
      invariant Flatten(pieces) + it.Remaining() == text
      invariant forall piece | piece in pieces :: piece != ""
      decreases it.Todo()
    {
      var piece := it.Current();
      ghost var before := it.Remaining();
      it.Next();
      assert before == piece + it.Remaining();
      PieceTaken(pieces, piece, it.Remaining());
      pieces := pieces + [piece];
    }
    NothingAfterEnd(it.parts);
  }

  lemma NoneYet(text: string)
    ensures Flatten<char>([]) + text == text
  {
  }

  lemma NothingAfterEnd(parts: Parts)
    ensures TextAt(parts, END, 0, 0) == ""
  {
  }
}
