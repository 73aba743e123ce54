/**
 * Writing pieces to a descriptor in batches, through partial writes and interruptions,
 * and the buffer in front of it.
 */
module Writers {
  import opened Common

  datatype Errno = Interrupted | InputOutput | OtherError(code: int)

  /** What the system says to a writev: some bytes taken, or an error. */
  datatype Answer = Wrote(bytes: nat) | Failed(error: Errno)

  const MAX_PIECES := 64
  const MAX_BYTES := 0x7FFF_FFFF

  /**
   * The open file: `sink` is what has arrived. It answers from `answers`, taking never
   * more than it is given, and takes everything once those are used up.
   */
  class File {
    var sink: string
    var answers: seq<Answer>

    constructor (answers: seq<Answer>)
      ensures sink == "" && this.answers == answers
    {
      this.sink, this.answers := "", answers;
    }

    method Writev(batch: seq<string>) returns (answer: Answer)
      requires 1 <= |batch| <= MAX_PIECES && |Flatten(batch)| <= MAX_BYTES
      modifies this
      ensures answer.Wrote? ==> answer.bytes <= |Flatten(batch)| && sink == old(sink) + Flatten(batch)[..answer.bytes]
      ensures answer.Failed? ==> sink == old(sink) && |answers| < |old(answers)|
      ensures answers == if old(answers) == [] then [] else old(answers)[1..]
      ensures answer == if old(answers) != [] && (old(answers)[0].Failed? || old(answers)[0].bytes <= |Flatten(batch)|)
        then old(answers)[0] else Wrote(|Flatten(batch)|)
    {
      answer := Wrote(|Flatten(batch)|);
      if answers != [] {
        if answers[0].Failed? || answers[0].bytes <= |Flatten(batch)| { answer := answers[0]; }
        answers := answers[1..];
      }
      if answer.Wrote? { sink := sink + Flatten(batch)[..answer.bytes]; }
    }
  }

  // ---- What an error is due to ----

  /** An answer that stops nothing: try again, or some bytes taken. */
  predicate Harmless(a: Answer) {
    a == Failed(Interrupted) || (a.Wrote? && a.bytes > 0)
  }

  /** What the system has answered, from what it was going to and what it still is. */
  ghost function Used(before: seq<Answer>, after: seq<Answer>): seq<Answer> {
    if |after| <= |before| then before[..|before| - |after|] else []
  }

  ghost predicate Answered(before: seq<Answer>, after: seq<Answer>) {
    before == Used(before, after) + after
  }

  ghost predicate AllHarmless(used: seq<Answer>) {
    forall a | a in used :: Harmless(a)
  }

  /** The last answer is the error, or none of the bytes was taken; those before did no harm. */
  ghost predicate Blames(used: seq<Answer>, e: Errno) {
    && used != [] && AllHarmless(used[..|used| - 1])
    && var last := used[|used| - 1];
       (last == Failed(e) && e != Interrupted) || (last == Wrote(0) && e == InputOutput)
  }

  /** A call's result is what the answers it used make of it. */
  ghost predicate Accounts(before: seq<Answer>, after: seq<Answer>, r: Result<(), Errno>) {
    && Answered(before, after)
    && if r.Ok? then AllHarmless(Used(before, after)) else Blames(Used(before, after), r.error)
  }

  lemma OneAnswer(before: seq<Answer>, now: seq<Answer>, after: seq<Answer>)
    requires Answered(before, now) && now != [] && after == now[1..]
    ensures Answered(before, after) && Used(before, after) == Used(before, now) + [now[0]]
  {
    var n := |before| - |now|;
    assert before[..n + 1] == before[..n] + [now[0]];
  }

  /** What one answer to a batch of `size` bytes adds to the account. */
  lemma AfterAnswer(before: seq<Answer>, now: seq<Answer>, after: seq<Answer>, answer: Answer, size: nat)
    requires Answered(before, now) && after == (if now == [] then [] else now[1..])
    requires answer == if now != [] && (now[0].Failed? || now[0].bytes <= size) then now[0] else Wrote(size)
    ensures Answered(before, after)
    ensures AllHarmless(Used(before, now)) && size > 0 ==>
      && (Harmless(answer) ==> AllHarmless(Used(before, after)))
      && (answer.Failed? && answer.error != Interrupted ==> Blames(Used(before, after), answer.error))
      && (answer == Wrote(0) ==> Blames(Used(before, after), InputOutput))
  {
    if now != [] {
      OneAnswer(before, now, after);
      var used := Used(before, now);
      assert (used + [now[0]])[..|used|] == used;
    }
  }

  lemma AccountsOn(before: seq<Answer>, now: seq<Answer>, after: seq<Answer>, r: Result<(), Errno>)
    requires Answered(before, now) && AllHarmless(Used(before, now)) && Accounts(now, after, r)
    ensures Accounts(before, after, r)
  {
    assert Used(before, after) == Used(before, now) + Used(now, after);
    if r.Err? { assert Used(before, after)[..|Used(before, after)| - 1] == Used(before, now) + Used(now, after)[..|Used(now, after)| - 1]; }
  }

  lemma BlameIsHarm(before: seq<Answer>, after: seq<Answer>, e: Errno)
    requires Answered(before, after) && Blames(Used(before, after), e)
    ensures !AllHarmless(before)
  {
    var used := Used(before, after);
    assert used[|used| - 1] in before;
  }

  ghost predicate NoneEmpty(batch: seq<string>) {
    forall piece | piece in batch :: piece != ""
  }

  lemma NothingAnswered(answers: seq<Answer>)
    ensures Answered(answers, answers) && AllHarmless(Used(answers, answers))
  {
  }

  lemma CutNoneEmpty(batch: seq<string>, k: nat, cut: string)
    requires k < |batch| && cut != ""
    ensures NoneEmpty(batch) ==> NoneEmpty([cut] + batch[k + 1..])
  {
    var left := [cut] + batch[k + 1..];
    forall piece | piece in left ensures NoneEmpty(batch) ==> piece != "" {
      assert piece == cut || piece in batch;
    }
  }

  lemma BytesLeft(batch: seq<string>)
    requires NoneEmpty(batch) && batch != []
    ensures Flatten(batch) != ""
  {
    assert batch[0] in batch;
  }

  /** What is left of a batch after `n` bytes: whole pieces fall away, one may be cut. */
  lemma FlattenCut(batch: seq<string>, n: nat)
    requires batch != [] && n <= |batch[0]|
    ensures Flatten(batch) == batch[0] + Flatten(batch[1..])
    ensures Flatten([batch[0][n..]] + batch[1..]) == Flatten(batch)[n..]
  {
    var cut := [batch[0][n..]] + batch[1..];
    assert cut[0] == batch[0][n..] && cut[1..] == batch[1..];
    assert Flatten(cut) == batch[0][n..] + Flatten(batch[1..]);
  }

  class FdWriter {
    const file: File

    constructor (file: File)
      ensures this.file == file
    {
      this.file := file;
    }

    /** As many bytes as one writev takes, from what is left of a piece and the pieces behind it. */
    method FillBatch(iov: array<string>, pieces: seq<string>, next: nat, left: string)
      returns (count: nat, next': nat, left': string)
      requires iov.Length == MAX_PIECES && next <= |pieces|
      modifies iov
      ensures count <= MAX_PIECES && next <= next' <= |pieces|
      ensures Flatten(iov[..count]) + left' + Flatten(pieces[next'..]) == left + Flatten(pieces[next..])
      ensures |Flatten(iov[..count])| <= MAX_BYTES
      ensures count > 0 ==> Flatten(iov[..count]) != ""
      ensures count == 0 ==> left' == "" && next' == |pieces|
      ensures NoneEmpty(iov[..count])
    {
      count, next', left' := 0, next, left;
      var bytes := 0;
      while count < MAX_PIECES && bytes < MAX_BYTES
        invariant count <= MAX_PIECES && next <= next' <= |pieces|
        invariant bytes == |Flatten(iov[..count])| <= MAX_BYTES && (count == 0 ==> bytes == 0)
        invariant count > 0 ==> Flatten(iov[..count]) != ""
        invariant NoneEmpty(iov[..count])
        invariant Flatten(iov[..count]) + left' + Flatten(pieces[next'..]) == left + Flatten(pieces[next..])
        decreases |pieces| - next', |left'|
      {
        if left' == "" {
          if next' == |pieces| { break; }
          assert Flatten(pieces[next'..]) == pieces[next'] + Flatten(pieces[next' + 1..]) by {
            assert pieces[next'..][1..] == pieces[next' + 1..];
          }
          left' := pieces[next'];
          next' := next' + 1;
        } else {
          var take := if |left'| < MAX_BYTES - bytes then |left'| else MAX_BYTES - bytes;
          ghost var before := iov[..count];
          iov[count] := left'[..take];
          assert iov[..count + 1] == before + [left'[..take]];
          FlattenPush(before, left'[..take]);
          Regroup(Flatten(before), left', take, Flatten(pieces[next'..]));
          count := count + 1;
          bytes := bytes + take;
          left' := left'[take..];
        }
      }
    }

    /**
     * One batch, written until nothing of it is left or the system refuses: partial writes
     * and interruptions are no error.
     */
    method Drain(iov: array<string>, count: nat) returns (r: Result<(), Errno>)
      requires 1 <= count <= iov.Length <= MAX_PIECES && |Flatten(iov[..count])| <= MAX_BYTES
      modifies iov, file
      ensures r.Ok? ==> file.sink == old(file.sink) + old(Flatten(iov[..count]))
      ensures r.Err? ==> r.error != Interrupted && Partly(old(file.sink), old(Flatten(iov[..count])), file.sink)
      ensures old(NoneEmpty(iov[..count])) ==> Accounts(old(file.answers), file.answers, r)
    {
      hide Flatten, Used, Answered, AllHarmless, Blames, NoneEmpty;
      NothingAnswered(file.answers);
      assert iov[0..count] == iov[..count];
      ghost var before, whole := file.answers, NoneEmpty(iov[..count]);
      ghost var all := Flatten(iov[..count]);
      ghost var sent: nat := 0;
      var first: nat := 0;
      while first < count
        invariant first <= count && sent <= |all|
        invariant Flatten(iov[first..count]) == all[sent..] && file.sink == old(file.sink) + all[..sent]
        invariant Answered(before, file.answers)
        invariant whole ==> NoneEmpty(iov[first..count]) && AllHarmless(Used(before, file.answers))
        decreases |all| - sent, |file.answers|, count - first
      {
        ghost var now := file.answers;
        if whole { BytesLeft(iov[first..count]); }
        var answer := file.Writev(iov[first..count]);
        AfterAnswer(before, now, file.answers, answer, |Flatten(iov[first..count])|);
        if answer.Failed? {
          if answer.error == Interrupted { continue; }
          return Err(answer.error);
        }
        ghost var from := sent;
        sent := sent + answer.bytes;
        assert all[..sent] == all[..from] + all[from..][..answer.bytes];
        if answer.bytes == 0 { return Err(InputOutput); }
        first := Consume(iov, first, count, answer.bytes);
        assert all[sent..] == all[from..][answer.bytes..];
      }
      NothingBehind([]);
      assert iov[first..count] == [];
      assert all[..sent] == all;
      r := Ok(());
    }

    /** Steps over `written` bytes of the batch: whole pieces, then into one. */
    method Consume(iov: array<string>, start: nat, count: nat, written: nat) returns (first: nat)
      requires start <= count <= iov.Length && written <= |Flatten(iov[start..count])|
      modifies iov
      ensures start <= first <= count
      ensures Flatten(iov[first..count]) == old(Flatten(iov[start..count]))[written..]
      ensures old(NoneEmpty(iov[start..count])) ==> NoneEmpty(iov[first..count])
    {
      ghost var all := Flatten(iov[start..count]);
      var remaining: nat := written;
      first := start;
      assert all[0..] == all;
      while first < count && remaining >= |iov[first]|
        invariant start <= first <= count
        invariant remaining <= |Flatten(iov[first..count])|
        invariant iov[..] == old(iov[..])
        invariant Flatten(iov[first..count])[remaining..] == all[written..]
      {
        assert iov[first..count][1..] == iov[first + 1..count];
        DropPiece(iov[first..count], remaining);
        remaining := remaining - |iov[first]|;
        first := first + 1;
      }
      if first < count {
        FlattenCut(iov[first..count], remaining);
        assert iov[first..count][1..] == iov[first + 1..count];
        ghost var behind := iov[first + 1..count];
        assert behind == old(iov[start..count])[first - start + 1..];
        iov[first] := iov[first][remaining..];
        assert iov[first..count] == [iov[first]] + behind;
        assert iov[first..count] == [iov[first]] + old(iov[start..count])[first - start + 1..];
        CutNoneEmpty(old(iov[start..count]), first - start, iov[first]);
      }
    }

    /**
     * Everything arrives in order, however the pieces are cut and however the system takes
     * them; after an error what has arrived is a prefix. An error is the system's last
     * answer, and without such an answer there is none. Writev's own precondition keeps
     * every batch within 64 pieces and INT_MAX bytes.
     */
    method WriteMany(pieces: seq<string>) returns (r: Result<(), Errno>)
      modifies file
      ensures r.Ok? ==> file.sink == old(file.sink) + Flatten(pieces)
      ensures r.Err? ==> r.error != Interrupted && Partly(old(file.sink), Flatten(pieces), file.sink)
      ensures Accounts(old(file.answers), file.answers, r)
      ensures AllHarmless(old(file.answers)) ==> r.Ok?
    {
      hide Flatten, Partly, Used, Answered, AllHarmless, Blames, NoneEmpty;
      ghost var before := file.answers;
      NothingAnswered(before);
      var iov := new string[MAX_PIECES](_ => "");
      var next, left := 0, "";
      ghost var sent := "";
      assert pieces[0..] == pieces;
      while true
        invariant next <= |pieces| && fresh(iov)
        invariant file.sink == old(file.sink) + sent
        invariant sent + left + Flatten(pieces[next..]) == Flatten(pieces)
        invariant Answered(before, file.answers) && AllHarmless(Used(before, file.answers))
        decreases |Flatten(pieces)| - |sent|
      {
        ghost var now := file.answers;
        var count, next', left' := FillBatch(iov, pieces, next, left);
        if count == 0 {
          NothingBehind(pieces);
          assert iov[..0] == [];
          assert left + Flatten(pieces[next..]) == "";
          return Ok(());
        }
        ghost var batch := Flatten(iov[..count]);
        Onward(sent, left + Flatten(pieces[next..]), batch, left' + Flatten(pieces[next'..]), Flatten(pieces));
        var drained := Drain(iov, count);
        AccountsOn(before, now, file.answers, drained);
        if drained.Err? {
          BlameIsHarm(before, file.answers, drained.error);
          PartlySent(old(file.sink), sent, batch, left' + Flatten(pieces[next'..]), Flatten(pieces), file.sink);
          return drained;
        }
        sent := sent + batch;
        next, left := next', left';
      }
    }
  }

  class BufferedWriter {
    const writer: FdWriter
    const buf: array<char>
    var used: nat

    constructor (capacity: nat, writer: FdWriter)
      ensures Valid() && this.writer == writer && fresh(buf) && buf.Length == capacity && used == 0
    {
      this.writer := writer;
      buf := new char[capacity];
      used := 0;
    }

    ghost predicate Valid()
      reads this
    {
      used <= buf.Length
    }

    /** Everything written so far, as long as nothing went wrong. */
    ghost function Stream(): string
      requires Valid()
      reads this, buf, writer.file
    {
      writer.file.sink + buf[..used]
    }

    method Total(pieces: seq<string>) returns (total: nat)
      ensures total == |Flatten(pieces)|
    {
      total := 0;
      for i := 0 to |pieces|
        invariant total + |Flatten(pieces[i..])| == |Flatten(pieces)|
      {
        assert pieces[i..][1..] == pieces[i + 1..];
        total := total + |pieces[i]|;
      }
    }

    /** The pieces one after another into the buffer. */
    method Append(pieces: seq<string>)
      requires Valid() && |Flatten(pieces)| <= buf.Length - used
      modifies this`used, buf
      ensures Valid() && buf[..used] == old(buf[..used]) + Flatten(pieces)
    {
      ghost var start := used;
      assert pieces[0..] == pieces;
      for i := 0 to |pieces|
        invariant used + |Flatten(pieces[i..])| == start + |Flatten(pieces)|
        invariant buf[..used] + Flatten(pieces[i..]) == old(buf[..used]) + Flatten(pieces)
      {
        assert Flatten(pieces[i..]) == pieces[i] + Flatten(pieces[i + 1..]) by {
          assert pieces[i..][1..] == pieces[i + 1..];
        }
        AppendOne(pieces[i]);
      }
    }

    method AppendOne(piece: string)
      requires Valid() && |piece| <= buf.Length - used
      modifies this`used, buf
      ensures Valid() && used == old(used) + |piece| && buf[..used] == old(buf[..used]) + piece
    {
      for j := 0 to |piece|
        invariant used == old(used)
        invariant buf[..used + j] == old(buf[..used]) + piece[..j]
      {
        buf[used + j] := piece[j];
      }
      used := used + |piece|;
    }

    /** What fits is kept; otherwise what is buffered and the pieces go out together. */
    method WriteMany(pieces: seq<string>) returns (r: Result<(), Errno>)
      requires Valid()
      modifies this`used, buf, writer.file
      ensures Valid()
      ensures r.Ok? ==> Stream() == old(Stream()) + Flatten(pieces)
      ensures r.Err? ==> used == 0 && Partly(old(writer.file.sink), old(buf[..used]) + Flatten(pieces), writer.file.sink)
      ensures Accounts(old(writer.file.answers), writer.file.answers, r)
      ensures AllHarmless(old(writer.file.answers)) ==> r.Ok?
      ensures |Flatten(pieces)| <= old(buf.Length - used) ==>
        r.Ok? && writer.file.sink == old(writer.file.sink) && writer.file.answers == old(writer.file.answers)
      ensures |Flatten(pieces)| > old(buf.Length - used) ==> used == 0
    {
      NothingAnswered(writer.file.answers);
      var total := Total(pieces);
      if total <= buf.Length - used {
        Append(pieces);
        assert writer.file.sink + (old(buf[..used]) + Flatten(pieces)) == old(Stream()) + Flatten(pieces);
        return Ok(());
      }
      var buffered := buf[..used];
      used := 0;
      assert ([buffered] + pieces)[1..] == pieces;
      r := writer.WriteMany([buffered] + pieces);
    }

    /** Where views::concat is missing: the buffer first, then the pieces. */
    method WriteManyInTwo(pieces: seq<string>) returns (r: Result<(), Errno>)
      requires Valid()
      modifies this`used, buf, writer.file
      ensures Valid()
      ensures r.Ok? ==> Stream() == old(Stream()) + Flatten(pieces)
      ensures r.Err? ==> used == 0 && Partly(old(writer.file.sink), old(buf[..used]) + Flatten(pieces), writer.file.sink)
      ensures Accounts(old(writer.file.answers), writer.file.answers, r)
      ensures AllHarmless(old(writer.file.answers)) ==> r.Ok?
      ensures |Flatten(pieces)| <= old(buf.Length - used) ==>
        r.Ok? && writer.file.sink == old(writer.file.sink) && writer.file.answers == old(writer.file.answers)
      ensures |Flatten(pieces)| > old(buf.Length - used) ==> used == 0
    {
      hide Flatten, Used, Answered, AllHarmless, Blames, Partly;
      NothingAnswered(writer.file.answers);
      var total := Total(pieces);
      if total <= buf.Length - used {
        Append(pieces);
        assert writer.file.sink + (old(buf[..used]) + Flatten(pieces)) == old(Stream()) + Flatten(pieces);
        return Ok(());
      }
      ghost var before, buffered := writer.file.sink, buf[..used];
      r := Flush();
      if r.Err? {
        PartlySent(before, "", buffered, Flatten(pieces), buffered + Flatten(pieces), writer.file.sink);
        return;
      }
      ghost var now := writer.file.answers;
      r := writer.WriteMany(pieces);
      AccountsOn(old(writer.file.answers), now, writer.file.answers, r);
      if r.Err? {
        BlameIsHarm(old(writer.file.answers), writer.file.answers, r.error);
        assert buffered + Flatten(pieces) + "" == buffered + Flatten(pieces);
        PartlySent(before, buffered, Flatten(pieces), "", buffered + Flatten(pieces), writer.file.sink);
      }
    }

    /** On success the sink has it all; on an error what was buffered is lost but for a prefix. */
    method Flush() returns (r: Result<(), Errno>)
      requires Valid()
      modifies this`used, writer.file
      ensures Valid() && used == 0
      ensures r.Ok? ==> writer.file.sink == old(Stream())
      ensures r.Err? ==> Partly(old(writer.file.sink), old(buf[..used]), writer.file.sink)
      ensures Accounts(old(writer.file.answers), writer.file.answers, r)
      ensures AllHarmless(old(writer.file.answers)) ==> r.Ok?
    {
      NothingAnswered(writer.file.answers);
      if used == 0 { return Ok(()); }
      var buffered := buf[..used];
      used := 0;
      assert Flatten([buffered]) == buffered;
      r := writer.WriteMany([buffered]);
    }
  }

  /** `now` is `before` and some first bytes of `text`. */
  ghost predicate Partly(before: string, text: string, now: string) {
    exists n: nat | n <= |text| :: now == before + text[..n]
  }

  lemma NothingBehind(pieces: seq<string>)
    ensures Flatten(pieces[|pieces|..]) == "" && Flatten<char>([]) == ""
  {
  }

  lemma Regroup(done: string, left: string, take: nat, behind: string)
    requires take <= |left|
    ensures done + left + behind == done + left[..take] + left[take..] + behind
  {
    assert left == left[..take] + left[take..];
    assert done + left == done + left[..take] + left[take..];
  }

  lemma Onward(sent: string, todo: string, batch: string, todo': string, all: string)
    requires sent + todo == all && batch + todo' == todo
    ensures (sent + batch) + todo' == all && |sent| + |batch| <= |all|
  {
  }

  lemma PartlySent(before: string, sent: string, batch: string, behind: string, all: string, now: string)
    requires (sent + batch) + behind == all && Partly(before + sent, batch, now)
    ensures Partly(before, all, now)
  {
    var n: nat :| n <= |batch| && now == before + sent + batch[..n];
    assert all[..|sent| + n] == sent + batch[..n];
    assert now == before + all[..|sent| + n];
  }

  lemma DropPiece(batch: seq<string>, n: nat)
    requires batch != [] && |batch[0]| <= n <= |Flatten(batch)|
    ensures Flatten(batch[1..]) == Flatten(batch)[|batch[0]|..]
    ensures n - |batch[0]| <= |Flatten(batch[1..])| && Flatten(batch[1..])[n - |batch[0]|..] == Flatten(batch)[n..]
  {
  }
}
