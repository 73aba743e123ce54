/**
 * The buffered reader, and the question -I asks: whatever chunks the input comes in, the
 * bytes are consumed one after another and the answer is a function of them.
 */
module Reading {
  import opened Common

  datatype Errno = Errno(code: int)

  /**
   * An input: `left` has not been delivered. A read gives as much as `chunks` says, at
   * least a byte and at most what is asked for, or fails where `chunks` says so.
   */
  class Source {
    var left: string
    var chunks: seq<Option<nat>>
    var failures: nat

    constructor (text: string, chunks: seq<Option<nat>>)
      ensures left == text && failures == 0
    {
      this.left, this.chunks, this.failures := text, chunks, 0;
    }

    method Read(buf: array<char>) returns (r: Result<nat, Errno>)
      requires buf.Length > 0
      modifies this, buf
      ensures r.Err? ==> left == old(left) && failures == old(failures) + 1
      ensures r.Ok? ==>
        && failures == old(failures) && r.value <= buf.Length
        && old(left) == buf[..r.value] + left && (r.value == 0 <==> old(left) == "")
    {
      var size := buf.Length;
      if chunks != [] {
        if chunks[0].None? {
          failures := failures + 1;
          chunks := chunks[1..];
          return Err(Errno(5));
        }
        if 0 < chunks[0].value < size { size := chunks[0].value; }
        chunks := chunks[1..];
      }
      if |left| < size { size := |left|; }
      for i := 0 to size
        invariant left == old(left) && failures == old(failures)
        invariant buf[..i] == left[..i]
      {
        buf[i] := left[i];
      }
      left := left[size..];
      r := Ok(size);
    }
  }

  class BufferedReader {
    const reader: Source
    const buf: array<char>
    var pos: nat
    var len: nat

    constructor (capacity: nat, reader: Source)
      requires capacity > 0
      ensures Valid() && this.reader == reader && fresh(buf) && buf.Length == capacity && Pending() == reader.left
    {
      this.reader := reader;
      buf := new char[capacity];
      pos, len := 0, 0;
    }

    ghost predicate Valid()
      reads this
    {
      buf.Length > 0 && pos <= len <= buf.Length
    }

    function Buffered(): string
      reads this, buf
      requires Valid()
    {
      buf[pos..len]
    }

    /** Every byte still to be read. */
    ghost function Pending(): string
      requires Valid()
      reads this, buf, reader
    {
      Buffered() + reader.left
    }

    /** Drops what is buffered and reads anew. */
    method Fill() returns (r: Result<nat, Errno>)
      requires Valid()
      modifies this`pos, this`len, buf, reader
      ensures Valid() && pos == 0
      ensures r.Ok? ==>
        && reader.failures == old(reader.failures) && |Buffered()| == r.value
        && old(reader.left) == Pending() && (r.value == 0 <==> Pending() == "")
      ensures r.Err? ==> Buffered() == "" && reader.left == old(reader.left) && reader.failures > old(reader.failures)
    {
      pos := 0;
      len := 0;
      r := reader.Read(buf);
      if r.Ok? { len := r.value; }
    }

    /**
      * Some of the next bytes, none only at the end of the input or after a failure: what is
      * buffered if anything is, else a block read straight into `out` unless that is the smaller.
      */
    method Read(out: array<char>) returns (r: Result<nat, Errno>)
      requires Valid() && out.Length > 0 && out != buf
      modifies this`pos, this`len, buf, reader, out
      ensures Valid()
      ensures r.Ok? ==>
        && reader.failures == old(reader.failures) && r.value <= out.Length
        && old(Pending()) == out[..r.value] + Pending() && (r.value == 0 <==> old(Pending()) == "")
      ensures r.Err? ==> Pending() == old(Pending()) && reader.failures > old(reader.failures)
      ensures old(Buffered()) != "" ==>
        && r.Ok? && reader.left == old(reader.left)
        && (r.value == out.Length || Buffered() == "")
      ensures old(Buffered()) == "" && out.Length >= buf.Length ==> buf[..] == old(buf[..]) && Buffered() == ""
      ensures old(Buffered()) == "" && out.Length < buf.Length && r.Ok? ==>
        && pos == r.value && buf[..pos] == out[..pos]
        && (r.value == out.Length || Buffered() == "")
    {
      if Buffered() == "" {
        if out.Length >= buf.Length {
          assert Pending() == reader.left;
          r := reader.Read(out);
          assert Pending() == reader.left;
          return;
        }
        r := Fill();
        if r.Err? || r.value == 0 { return; }
      }
      var size := if out.Length < |Buffered()| then out.Length else |Buffered()|;
      Take(out, size);
      r := Ok(size);
    }

    /** The first buffered bytes into `out`. */
    method Take(out: array<char>, size: nat)
      requires Valid() && out != buf && size <= out.Length && size <= |Buffered()|
      modifies this`pos, out
      ensures Valid() && old(Pending()) == out[..size] + Pending()
      ensures pos == old(pos) + size && out[..size] == old(buf[pos..pos + size])
    {
      for i := 0 to size
        invariant Valid() && Buffered() == old(Buffered()) && pos == old(pos)
        invariant out[..i] == Buffered()[..i]
      {
        out[i] := buf[pos + i];
      }
      ghost var before := Buffered();
      pos := pos + size;
      assert before == before[..size] + Buffered();
      assert before + reader.left == before[..size] + Buffered() + reader.left;
    }

    /** The next byte. */
    method ReadByte() returns (byte: Option<char>)
      requires Valid()
      modifies this`pos, this`len, buf, reader
      ensures Valid() && reader.failures >= old(reader.failures)
      ensures byte.Some? ==> old(Pending()) == [byte.value] + Pending() && reader.failures == old(reader.failures)
      ensures byte.None? ==> Pending() == old(Pending()) && (Pending() == "" || reader.failures > old(reader.failures))
    {
      if Buffered() == "" {
        var filled := Fill();
        if filled.Err? || filled.value == 0 { return None; }
      }
      byte := Some(buf[pos]);
      assert Buffered() == [buf[pos]] + buf[pos + 1..len];
      pos := pos + 1;
    }

    /** Past the next `delim`: everything before it goes with it. */
    method SkipPast(delim: char) returns (found: bool, ghost skipped: string)
      requires Valid()
      modifies this`pos, this`len, buf, reader
      ensures Valid() && delim !in skipped && reader.failures >= old(reader.failures)
      ensures found ==> old(Pending()) == skipped + [delim] + Pending() && reader.failures == old(reader.failures)
      ensures !found ==> old(Pending()) == skipped + Pending() && (Pending() == "" || reader.failures > old(reader.failures))
    {
      skipped := "";
      assert old(Pending()) == "" + Pending();
      while true
        invariant Valid() && delim !in skipped && reader.failures == old(reader.failures)
        invariant old(Pending()) == skipped + Pending()
        decreases |reader.left|
      {
        var at := Find(delim);
        ghost var buffered, left := Buffered(), reader.left;
        if at < |Buffered()| {
          SkippedTo(skipped, buffered, at, left);
          pos := pos + at + 1;
          assert Buffered() == buffered[at + 1..];
          return true, skipped + buffered[..at];
        }
        SkippedAll(skipped, buffered, left);
        var filled := Fill();
        skipped := skipped + buffered;
        if filled.Err? || filled.value == 0 { return false, skipped; }
      }
    }

    method Find(delim: char) returns (at: nat)
      requires Valid()
      ensures at <= |Buffered()| && delim !in Buffered()[..at] && (at < |Buffered()| ==> Buffered()[at] == delim)
    {
      at := 0;
      while at < |Buffered()| && Buffered()[at] != delim
        invariant at <= |Buffered()| && delim !in Buffered()[..at]
      {
        at := at + 1;
      }
    }
  }

  lemma SkippedTo(skipped: string, buffered: string, at: nat, left: string)
    requires at < |buffered|
    ensures skipped + (buffered + left) == skipped + buffered[..at] + [buffered[at]] + (buffered[at + 1..] + left)
  {
    assert buffered == buffered[..at] + [buffered[at]] + buffered[at + 1..];
  }

  lemma SkippedAll(skipped: string, buffered: string, left: string)
    ensures skipped + (buffered + left) == skipped + buffered + left
  {
  }

  // ---- The question ----

  predicate IsYes(c: char) { c == 'y' || c == 'Y' }

  predicate IsNo(c: char) { c == 'n' || c == 'N' }

  predicate NoNewline(s: string) {
    forall i | 0 <= i < |s| :: s[i] != '\n'
  }

  function LineEnd(s: string): (n: nat)
    ensures n <= |s| && NoNewline(s[..n]) && (n < |s| ==> s[n] == '\n')
  {
    if s == "" || s[0] == '\n' then 0 else 1 + LineEnd(s[1..])
  }

  /** What ConfirmPromptOnce decides on these bytes. */
  function Decision(s: string): bool
    decreases |s|
  {
    if s == "" then false
    else if IsYes(s[0]) then true
    else if IsNo(s[0]) || LineEnd(s) == |s| then false
    else Decision(s[LineEnd(s) + 1..])
  }

  /** The lines, the last one perhaps without its newline. */
  function Lines(s: string): (lines: seq<string>)
    decreases |s|
  {
    if LineEnd(s) == |s| then [s] else [s[..LineEnd(s)]] + Lines(s[LineEnd(s) + 1..])
  }

  predicate Says(line: string, yes: bool) {
    line != "" && if yes then IsYes(line[0]) else IsNo(line[0])
  }

  /** The first line that says yes or no is the answer; without one it is no. */
  ghost predicate YesFirst(lines: seq<string>) {
    exists i | 0 <= i < |lines| :: Says(lines[i], true) && forall j | 0 <= j < i :: !Says(lines[j], false)
  }

  /** A line that says neither passes the question on. */
  lemma UndecidedLine(line: string, rest: seq<string>)
    requires !Says(line, true) && !Says(line, false)
    ensures YesFirst([line] + rest) <==> YesFirst(rest)
  {
    hide Says;
    var lines := [line] + rest;
    if YesFirst(rest) {
      var i :| 0 <= i < |rest| && Says(rest[i], true) && forall j | 0 <= j < i :: !Says(rest[j], false);
      assert Says(lines[i + 1], true);
      forall j | 0 <= j < i + 1 ensures !Says(lines[j], false) { assert j > 0 ==> lines[j] == rest[j - 1]; }
    }
    if YesFirst(lines) {
      var i :| 0 <= i < |lines| && Says(lines[i], true) && forall j | 0 <= j < i :: !Says(lines[j], false);
      assert Says(rest[i - 1], true);
      forall j | 0 <= j < i - 1 ensures !Says(rest[j], false) { assert lines[j + 1] == rest[j]; }
    }
  }

  /** A first line that says something settles it. */
  lemma DecidedLine(lines: seq<string>)
    requires lines != [] && (Says(lines[0], true) || Says(lines[0], false))
    ensures YesFirst(lines) <==> Says(lines[0], true)
  {
  }

  lemma FirstLine(s: string)
    requires s != ""
    ensures Lines(s) != [] && forall yes :: Says(Lines(s)[0], yes) <==> if yes then IsYes(s[0]) else IsNo(s[0])
  {
  }

  lemma {:induction false} DecisionIsFirstAnswer(s: string)
    ensures Decision(s) <==> YesFirst(Lines(s))
    decreases |s|
  {
    var n := LineEnd(s);
    if s != "" {
      FirstLine(s);
      hide Says, LineEnd, YesFirst;
      if IsYes(s[0]) || IsNo(s[0]) {
        DecidedLine(Lines(s));
      } else if n < |s| {
        UndecidedLine(s[..n], Lines(s[n + 1..]));
        DecisionIsFirstAnswer(s[n + 1..]);
      } else {
        UndecidedLine(s, []);
        NoLines();
      }
    }
  }

  lemma NoLines()
    ensures !YesFirst([])
  {
  }

  datatype Kind = File | Directory

  function Count(stats: seq<Option<Kind>>, kind: Kind): nat {
    if stats == [] then 0 else (if stats[0] == Some(kind) then 1 else 0) + Count(stats[1..], kind)
  }

  lemma {:induction false} CountPush(stats: seq<Option<Kind>>, k: Option<Kind>, kind: Kind)
    ensures Count(stats + [k], kind) == Count(stats, kind) + if k == Some(kind) then 1 else 0
  {
    if stats == [] {
      assert stats + [k] == [k];
    } else {
      assert (stats + [k])[1..] == stats[1..] + [k];
      CountPush(stats[1..], k, kind);
    }
  }

  /** -I asks when a directory is to go with -r, or more than three operands exist. */
  predicate Asks(stats: seq<Option<Kind>>, recursive: bool) {
    (recursive && Count(stats, Directory) > 0) || Count(stats, Directory) + Count(stats, File) > 3
  }

  /**
   * `stats` are the operands' lstat results, none for those that do not exist; `read` is
   * what was read of the input. A read that fails ends the input.
   */
  method ConfirmPromptOnce(stats: seq<Option<Kind>>, recursive: bool, input: BufferedReader)
    returns (go: bool, ghost read: string)
    requires input.Valid()
    modifies input`pos, input`len, input.buf, input.reader
    ensures input.Valid()
    ensures !Asks(stats, recursive) ==> go && input.Pending() == old(input.Pending())
    ensures Asks(stats, recursive) && input.reader.failures == old(input.reader.failures) ==> go == Decision(old(input.Pending()))
    ensures Asks(stats, recursive) ==> old(input.Pending()) == read + input.Pending() && go == Decision(read)
  {
    var dirs, files := 0, 0;
    assert stats[..|stats|] == stats;
    for i := 0 to |stats|
      invariant dirs == Count(stats[..i], Directory) && files == Count(stats[..i], File)
      modifies {}
    {
      assert stats[..i + 1] == stats[..i] + [stats[i]];
      CountPush(stats[..i], stats[i], Directory);
      CountPush(stats[..i], stats[i], File);
      if stats[i] == Some(Directory) { dirs := dirs + 1; } else if stats[i] == Some(File) { files := files + 1; }
    }
    var askRecursive := recursive && dirs > 0;
    if !askRecursive && dirs + files <= 3 { return true, ""; }
    go, read := AskUntilAnswered(input);
  }

  lemma LineEndIs(s: string, n: nat)
    requires n < |s| && s[n] == '\n' && NoNewline(s[..n])
    ensures LineEnd(s) == n
  {
    hide LineEnd;
    var m := LineEnd(s);
    forall i | 0 <= i < m ensures s[i] != '\n' { assert s[..m][i] == s[i]; }
    forall i | 0 <= i < n ensures s[i] != '\n' { assert s[..n][i] == s[i]; }
  }

  /** Nothing read so far answers the question. */
  ghost predicate Undecided(read: string) {
    forall more: string :: Decision(read + more) == Decision(more)
  }

  lemma NothingRead()
    ensures Undecided("")
  {
    assert forall more: string :: "" + more == more;
  }

  /** A whole line that says neither, after others. */
  lemma UndecidedMore(read: string, line: string)
    requires Undecided(read) && line != "" && !IsYes(line[0]) && !IsNo(line[0])
    requires line[|line| - 1] == '\n' && NoNewline(line[..|line| - 1])
    ensures Undecided(read + line)
  {
    hide LineEnd;
    forall more: string ensures Decision(read + line + more) == Decision(more) {
      assert read + line + more == read + (line + more);
      var text, n := line + more, |line| - 1;
      assert text[..n] == line[..n] && text[n + 1..] == more;
      LineEndIs(text, n);
    }
  }

  /** A line that settles the question, or the last, not come to its end. */
  lemma DecidedBy(read: string, line: string, behind: string)
    requires Undecided(read)
    requires line == "" || IsYes(line[0]) || IsNo(line[0]) || NoNewline(line)
    ensures Decision(read + line) == (line != "" && IsYes(line[0]))
    ensures (line != "" && (IsYes(line[0]) || IsNo(line[0]))) || behind == "" ==>
      Decision(read + line + behind) == Decision(read + line)
  {
    hide LineEnd;
    assert read + line + behind == read + (line + behind);
    assert behind == "" ==> line + behind == line;
    assert Decision(read + line) == Decision(line) && Decision(read + line + behind) == Decision(line + behind);
    if line != "" && NoNewline(line) { assert LineEnd(line) == |line|; }
  }

  lemma LineOf(first: char, skipped: string, behind: string)
    requires first != '\n' && '\n' !in skipped
    ensures NoNewline([first] + skipped)
    ensures ([first] + skipped + ['\n'])[..|skipped| + 1] == [first] + skipped
    ensures [first] + (skipped + ['\n'] + behind) == [first] + skipped + ['\n'] + behind
    ensures [first] + (skipped + behind) == [first] + skipped + behind
  {
  }

  /** The next line: its first byte, whether it came to its end, and all of it. */
  method ReadLine(input: BufferedReader) returns (first: Option<char>, ended: bool, ghost line: string)
    requires input.Valid()
    modifies input`pos, input`len, input.buf, input.reader
    ensures input.Valid() && input.reader.failures >= old(input.reader.failures)
    ensures old(input.Pending()) == line + input.Pending()
    ensures if first.None? then line == "" else line != "" && line[0] == first.value
    ensures ended ==>
      && input.reader.failures == old(input.reader.failures)
      && line != "" && line[|line| - 1] == '\n' && NoNewline(line[..|line| - 1])
    ensures !ended ==> NoNewline(line) && (input.Pending() == "" || input.reader.failures > old(input.reader.failures))
  {
    first := input.ReadByte();
    ended := first == Some('\n');
    line := "";
    if first.None? {
      assert old(input.Pending()) == "" + input.Pending();
    } else {
      line := [first.value];
      if !ended {
        ghost var skipped;
        ended, skipped := input.SkipPast('\n');
        LineOf(first.value, skipped, input.Pending());
        line := if ended then [first.value] + skipped + ['\n'] else [first.value] + skipped;
      }
    }
  }

  /** The answer is the one the bytes read give: a read that fails is taken for the end of the input. */
  method AskUntilAnswered(input: BufferedReader) returns (go: bool, ghost read: string)
    requires input.Valid()
    modifies input`pos, input`len, input.buf, input.reader
    ensures input.Valid() && input.reader.failures >= old(input.reader.failures)
    ensures old(input.Pending()) == read + input.Pending() && go == Decision(read)
    ensures input.reader.failures == old(input.reader.failures) ==> go == Decision(old(input.Pending()))
  {
    hide Decision, Undecided;
    read := "";
    NothingRead();
    assert old(input.Pending()) == "" + input.Pending();
    while true
      invariant input.Valid() && input.reader.failures == old(input.reader.failures)
      invariant old(input.Pending()) == read + input.Pending() && Undecided(read)
      decreases |input.Pending()|
    {
      ghost var text := input.Pending();
      var first, ended, line := ReadLine(input);
      Joined(read, line, input.Pending());
      if first.Some? && IsYes(first.value) {
        DecidedBy(read, line, input.Pending());
        return true, read + line;
      }
      if (first.Some? && IsNo(first.value)) || !ended {
        DecidedBy(read, line, input.Pending());
        return false, read + line;
      }
      UndecidedMore(read, line);
      read := read + line;
    }
  }

  lemma Joined(a: string, b: string, c: string)
    ensures a + (b + c) == a + b + c
  {
  }
}
