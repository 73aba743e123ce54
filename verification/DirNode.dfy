/**
 * A directory's path, built backwards from its chain of parents in two passes: one that
 * counts the bytes, one that fills them in from the end.
 */
module DirNodes {
  import Walk

  class DirNode {
    const name: string
    const parent: DirNode?
    ghost const height: nat

    /** The parent is made first, so the chain ends. */
    constructor (name: string, parent: DirNode?)
      requires parent != null ==> parent.Valid()
      ensures Valid() && this.name == name && this.parent == parent
    {
      this.name, this.parent := name, parent;
      this.height := if parent == null then 0 else parent.height + 1;
    }

    ghost predicate Valid()
      decreases height
    {
      parent != null ==> parent.height < height && parent.Valid()
    }

    ghost function PathOf(): string
      requires Valid()
      decreases height
    {
      if parent == null then name else parent.PathOf() + "/" + name
    }

    /** The names from the operand down. */
    ghost function Chain(): (chain: seq<string>)
      requires Valid()
      ensures chain != []
      decreases height
    {
      if parent == null then [name] else parent.Chain() + [name]
    }

    /** The path is the one the walk renders for these names. */
    lemma {:induction false} PathIsRendered()
      requires Valid()
      ensures PathOf() == Walk.Render(Chain())
      decreases height
    {
      if parent != null {
        parent.PathIsRendered();
        assert Chain()[..|Chain()| - 1] == parent.Chain();
      }
    }

    /** The first pass. */
    method PathSize() returns (total: nat)
      requires Valid()
      ensures total == |PathOf()|
    {
      var t: DirNode? := this;
      total := 0;
      while t != null
        invariant t != null ==> t.Valid()
        invariant total + (if t == null then 0 else |t.PathOf()|) == |PathOf()|
        decreases if t == null then 0 else t.height + 1
      {
        total := total + |t.name| + if t.parent != null then 1 else 0;
        t := t.parent;
      }
    }

    /** What one node adds to a path. */
    function Segment(): string {
      if parent == null then name else "/" + name
    }

    ghost function ParentPath(): string
      requires Valid()
    {
      if parent == null then "" else parent.PathOf()
    }

    lemma PathParts(tail: string)
      requires Valid()
      ensures PathOf() + tail == ParentPath() + (Segment() + tail)
      ensures |PathOf()| == |ParentPath()| + |Segment()|
    {
      if parent != null {
        assert PathOf() == parent.PathOf() + Segment();
      }
    }

    /** One node's name and its slash, written in front of what is there. */
    method WriteBefore(out: array<char>, end: nat) returns (cursor: nat)
      requires |Segment()| <= end <= out.Length
      modifies out
      ensures cursor == end - |Segment()| && out[cursor..] == Segment() + old(out[end..])
    {
      ghost var tail := out[end..];
      cursor := end - |name|;
      CopyInto(out, cursor, name);
      if parent != null {
        cursor := cursor - 1;
        CopyInto(out, cursor, "/");
        assert "/" + (name + tail) == "/" + name + tail;
      }
    }

    /** The bytes counted are the bytes filled: the cursor ends at the buffer's start. */
    method PathInto() returns (out: array<char>)
      requires Valid()
      ensures fresh(out) && out[..] == PathOf()
    {
      var total := PathSize();
      out := new char[total];
      var cursor, t: DirNode? := total, this;
      assert out[total..] == "" && PathOf() + "" == PathOf();
      while t != null
        invariant t != null ==> t.Valid()
        invariant cursor == (if t == null then 0 else |t.PathOf()|) <= out.Length
        invariant (if t == null then "" else t.PathOf()) + out[cursor..] == PathOf()
        decreases if t == null then 0 else t.height + 1
      {
        t.PathParts(out[cursor..]);
        cursor := t.WriteBefore(out, cursor);
        t := t.parent;
      }
      assert out[..] == out[0..];
    }
  }

  /** std::copy_n into the buffer; what was behind stays behind. */
  method CopyInto(out: array<char>, at: nat, text: string)
    requires at + |text| <= out.Length
    modifies out
    ensures out[at..] == text + old(out[at + |text|..])
  {
    for i := 0 to |text|
      invariant out[at..at + i] == text[..i]
      invariant out[at + |text|..] == old(out[at + |text|..])
    {
      out[at + i] := text[i];
    }
    assert out[at..] == out[at..at + |text|] + out[at + |text|..];
  }
}
