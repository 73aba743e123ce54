/**
 * Reading a directory through a buffer that holds a block of records at a time: the range
 * yields the directory's records, however they are cut into blocks.
 */
module DirEntries {
  import opened Common

  datatype Errno = Errno(code: int)

  /** A record and how many bytes it takes in a block. */
  datatype Record = Record(name: string, reclen: nat)

  /** A read: a block of that many records, a signal, or an error. */
  datatype Answer = Block(records: nat) | Interrupted | Failed(error: Errno)

  type Item = Result<Record, Errno>

  predicate Sized(records: seq<Record>) {
    forall r | r in records :: r.reclen > 0
  }

  function Size(block: seq<Record>): nat {
    if block == [] then 0 else block[0].reclen + Size(block[1..])
  }

  lemma {:induction false} SizePush(block: seq<Record>, r: Record)
    ensures Size(block + [r]) == Size(block) + r.reclen
  {
    if block == [] {
      assert block + [r] == [r];
    } else {
      assert (block + [r])[1..] == block[1..] + [r];
      SizePush(block[1..], r);
    }
  }

  lemma {:induction false} SizeUpTo(block: seq<Record>, at: nat)
    requires Sized(block) && at <= |block|
    ensures Size(block[..at]) <= Size(block)
    ensures Size(block[..at]) == Size(block) <==> at == |block|
    decreases |block| - at
  {
    if at < |block| {
      assert block[..at + 1] == block[..at] + [block[at]];
      SizePush(block[..at], block[at]);
      SizeUpTo(block, at + 1);
    } else {
      assert block[..at] == block;
    }
  }

  /** The buffer has each record of the block where the ones before it end. */
  ghost predicate Holds(buffer: map<nat, Record>, block: seq<Record>) {
    forall i | 0 <= i < |block| :: Size(block[..i]) in buffer && buffer[Size(block[..i])] == block[i]
  }

  // ---- What a directory delivers ----

  function Oks(records: seq<Record>): seq<Item> {
    seq(|records|, i requires 0 <= i < |records| => Ok(records[i]))
  }

  /** How many records a block brings: some, if any are left. */
  function Taken(left: seq<Record>, asked: nat): nat {
    if asked == 0 then if left == [] then 0 else 1 else if asked < |left| then asked else |left|
  }

  /** The items of a reading that meets these answers; once they are used up, all that is left. */
  function Items(left: seq<Record>, answers: seq<Answer>): seq<Item> {
    if answers == [] then Oks(left)
    else match answers[0]
      case Interrupted => Items(left, answers[1..])
      case Failed(e) => [Err(e)]
      case Block(n) => if left == [] then [] else Oks(left[..Taken(left, n)]) + Items(left[Taken(left, n)..], answers[1..])
  }

  lemma OksJoin(a: seq<Record>, b: seq<Record>)
    ensures Oks(a + b) == Oks(a) + Oks(b)
  {
  }

  ghost predicate NoFailure(answers: seq<Answer>) {
    forall a | a in answers :: !a.Failed?
  }

  /**
   * Every record once, in order; or the first of them, then one error, then nothing. With
   * no error the blocks make no difference.
   */
  lemma {:induction false} ItemsAreRecords(left: seq<Record>, answers: seq<Answer>)
    ensures NoFailure(answers) ==> Items(left, answers) == Oks(left)
    ensures
      || Items(left, answers) == Oks(left)
      || exists k: nat, e :: k <= |left| && Failed(e) in answers && Items(left, answers) == Oks(left[..k]) + [Err(e)]
  {
    if answers != [] {
      match answers[0]
      case Failed(e) =>
        assert Failed(e) in answers && Items(left, answers) == Oks(left[..0]) + [Err(e)];
      case Interrupted =>
        ItemsAreRecords(left, answers[1..]);
        assert NoFailure(answers) ==> NoFailure(answers[1..]);
      case Block(n) =>
        if left == [] {
          assert Oks(left) == [];
        } else {
          var m := Taken(left, n);
          var behind := left[m..];
          ItemsAreRecords(behind, answers[1..]);
          assert NoFailure(answers) ==> NoFailure(answers[1..]);
          assert left == left[..m] + behind;
          OksJoin(left[..m], behind);
          if k: nat, e :| k <= |behind| && Failed(e) in answers[1..] && Items(behind, answers[1..]) == Oks(behind[..k]) + [Err(e)] {
            assert left[..m + k] == left[..m] + behind[..k];
            OksJoin(left[..m], behind[..k]);
            assert Items(left, answers) == Oks(left[..m + k]) + [Err(e)];
          }
        }
    }
  }

  /** A block's records come first, then what is left. */
  lemma NoBlockFirst(left: seq<Record>, answers: seq<Answer>)
    requires answers != [] && !answers[0].Block?
    ensures answers[0].Interrupted? ==> Items(left, answers) == Items(left, answers[1..])
    ensures answers[0].Failed? ==> Items(left, answers) == [Err(answers[0].error)]
  {
  }

  lemma BlockFirst(left: seq<Record>, answers: seq<Answer>)
    requires answers != [] ==> answers[0].Block?
    ensures var n, later := Taken(left, if answers == [] then |left| else answers[0].records), if answers == [] then [] else answers[1..];
      && n <= |left| && (n == 0 <==> left == [])
      && (left != [] ==> Items(left, answers) == Oks(left[..n]) + Items(left[n..], later))
      && (left == [] ==> Items(left, answers) == [])
  {
    if answers == [] {
      assert left[..|left|] == left && left[|left|..] == [];
      assert Oks(left) == Oks(left) + [];
    }
  }

  lemma SizePositive(block: seq<Record>)
    requires Sized(block) && block != []
    ensures Size(block) > 0
  {
  }

  /** The open directory. */
  class Dir {
    var left: seq<Record>
    var answers: seq<Answer>

    constructor (records: seq<Record>, answers: seq<Answer>)
      ensures left == records && this.answers == answers
    {
      this.left, this.answers := records, answers;
    }

    /** getdents64: bytes of whole records, none at the end, or an error. */
    method GetDirEntries() returns (bytes: nat, answer: Answer, buffer: map<nat, Record>, ghost block: seq<Record>)
      requires Sized(left)
      modifies this
      ensures Sized(left)
      ensures answer.Interrupted? ==> |answers| < |old(answers)| && Items(left, answers) == Items(old(left), old(answers))
      ensures answer.Failed? ==> Items(old(left), old(answers)) == [Err(answer.error)]
      ensures answer.Block? ==>
        && bytes == Size(block) && Holds(buffer, block) && Sized(block)
        && (bytes > 0 ==> Items(old(left), old(answers)) == Oks(block) + Items(left, answers))
        && (bytes == 0 ==> block == [] && Items(old(left), old(answers)) == [])
    {
      hide Items, Oks;
      buffer, bytes, block := map[], 0, [];
      answer := if answers == [] then Block(|left|) else answers[0];
      if answer.Block? { BlockFirst(left, answers); } else { NoBlockFirst(left, answers); }
      if answers != [] { answers := answers[1..]; }
      if answer.Block? {
        var n := Taken(left, answer.records);
        block := left[..n];
        if block != [] { SizePositive(block); }
        for i := 0 to n
          invariant bytes == Size(block[..i]) && left == old(left)
          invariant forall j | 0 <= j < i :: Size(block[..j]) in buffer && buffer[Size(block[..j])] == block[j]
          modifies {}
        {
          SizeGrows(block, i);
          assert block[..i + 1] == block[..i] + [block[i]];
          SizePush(block[..i], block[i]);
          buffer := buffer[bytes := left[i]];
          bytes := bytes + left[i].reclen;
        }
        assert block[..n] == block;
        left := left[n..];
      }
    }
  }

  /** Records start at different offsets. */
  lemma {:induction false} SizeGrows(block: seq<Record>, i: nat)
    requires Sized(block) && i <= |block|
    ensures forall j | 0 <= j < i :: Size(block[..j]) < Size(block[..i])
    decreases i
  {
    if i > 0 {
      assert block[..i] == block[..i - 1] + [block[i - 1]];
      SizePush(block[..i - 1], block[i - 1]);
      SizeGrows(block, i - 1);
    }
  }

  lemma NextOffset(block: seq<Record>, at: nat)
    requires at < |block|
    ensures Size(block[..at + 1]) == Size(block[..at]) + block[at].reclen
  {
    assert block[..at + 1] == block[..at] + [block[at]];
    SizePush(block[..at], block[at]);
  }

  lemma OksRest(block: seq<Record>, at: nat, later: seq<Item>)
    requires at < |block|
    ensures (Oks(block[at..]) + later)[1..] == Oks(block[at + 1..]) + later
    ensures at + 1 == |block| ==> Oks(block[at + 1..]) + later == later
  {
    assert Oks(block[at..])[1..] == Oks(block[at + 1..]);
  }

  class DirEntries {
    const dir: Dir
    var buffer: map<nat, Record>
    var filled: nat
    var offset: nat
    var error: Errno
    var failed: bool
    ghost var block: seq<Record>
    ghost var at: nat

    ghost predicate Valid()
      reads this, dir
    {
      && Sized(block) && Sized(dir.left) && Holds(buffer, block) && filled == Size(block)
      && at <= |block| && offset == Size(block[..at])
      && (failed ==> block == [])
    }

    /** What the range is still to yield. */
    ghost function ToCome(): seq<Item>
      requires Valid()
      reads this, dir
    {
      if failed then [Err(error)] else if at == |block| then [] else Oks(block[at..]) + Items(dir.left, dir.answers)
    }

    constructor (dir: Dir)
      requires Sized(dir.left)
      modifies dir
      ensures Valid() && this.dir == dir
      ensures ToCome() == Items(old(dir.left), old(dir.answers))
    {
      this.dir := dir;
      buffer, filled, offset, error, failed := map[], 0, 0, Errno(0), false;
      block, at := [], 0;
      new;
      Fill();
    }

    method AtEnd() returns (end: bool)
      requires Valid()
      ensures end <==> ToCome() == []
    {
      end := !failed && offset >= filled;
      SizeUpTo(block, at);
    }

    method Current() returns (item: Item)
      requires Valid() && ToCome() != []
      ensures item == ToCome()[0]
    {
      SizeUpTo(block, at);
      if failed { return Err(error); }
      item := Ok(buffer[offset]);
    }

    method Advance()
      requires Valid() && ToCome() != []
      modifies this, dir
      ensures Valid() && ToCome() == old(ToCome())[1..]
    {
      if failed {
        failed := false;
        filled, offset := 0, 0;
        at := 0;
        return;
      }
      hide Items, Size;
      NextOffset(block, at);
      OksRest(block, at, Items(dir.left, dir.answers));
      offset := offset + buffer[offset].reclen;
      at := at + 1;
      SizeUpTo(block, at);
      if offset >= filled { Fill(); }
    }

    method Fill()
      requires Valid() && !failed
      modifies this, dir
      ensures Valid() && ToCome() == Items(old(dir.left), old(dir.answers))
    {
      offset, filled := 0, 0;
      buffer, block, at := map[], [], 0;
      while true
        invariant Valid() && !failed && block == []
        invariant Items(dir.left, dir.answers) == Items(old(dir.left), old(dir.answers))
        decreases |dir.answers|
      {
        ghost var read;
        var bytes, answer, contents;
        bytes, answer, contents, read := dir.GetDirEntries();
        if answer.Block? {
          filled, buffer, block := bytes, contents, read;
          assert block[0..] == block && block[..0] == [];
          return;
        }
        if answer.Interrupted? { continue; }
        error := answer.error;
        failed := true;
        return;
      }
    }
  }

  lemma OneMore(items: seq<Item>, come: seq<Item>)
    requires come != []
    ensures items + come == items + [come[0]] + come[1..]
  {
  }

  /** The range from begin to end. */
  method ReadAll(dir: Dir) returns (items: seq<Item>)
    requires Sized(dir.left)
    modifies dir
    ensures items == Items(old(dir.left), old(dir.answers))
  {
    hide Items, Oks, Size, Sized, Holds, DirEntries.Valid, DirEntries.ToCome;
    var entries := new DirEntries(dir);
    items := [];
    ghost var all := entries.ToCome();
    var end := entries.AtEnd();
    while !end
      invariant entries.Valid() && entries.dir == dir && fresh(entries)
      invariant items + entries.ToCome() == all
      invariant end <==> entries.ToCome() == []
      decreases |entries.ToCome()|
    {
      var item := entries.Current();
      ghost var come := entries.ToCome();
      entries.Advance();
      OneMore(items, come);
      items := items + [item];
      end := entries.AtEnd();
    }
  }
}
