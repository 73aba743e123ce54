/**
 * The Chase-Lev queue as one thread sees it: a ring of cells between `top` and `bottom`
 * that doubles when full, held to a plain sequence.
 */
module ChaseLevQueue {
  import opened Common
  import opened DequeSpec

  datatype Call<T> = Put(val: T) | TakeBack | StealFront

  class ChaseLev<T(0)> {
    var top: int
    var bottom: int
    var data: array<T>
    /** The active buffer, last, and every retired one. */
    var buffers: seq<array<T>>

    ghost predicate Valid()
      reads this, data
    {
      && 0 < |buffers| && data == buffers[|buffers| - 1]
      && 0 < data.Length
      && 0 <= top <= bottom && bottom - top <= data.Length
    }

    ghost function Contents(): (q: seq<T>)
      requires Valid()
      reads this, data
      ensures |q| == bottom - top
      ensures forall k | 0 <= k < |q| :: q[k] == data[(top + k) % data.Length]
    {
      var a, t, n := data, top, bottom - top;
      seq(n, k requires 0 <= k < n reads a => a[(t + k) % a.Length])
    }

    constructor ()
      ensures Valid() && Contents() == [] && data.Length == INIT_CAP
      ensures fresh(data) && buffers == [data]
    {
      top, bottom := 0, 0;
      data := new T[INIT_CAP];
      buffers := [data];
    }

    /** Removes the element inserted last. */
    method Take() returns (r: Option<T>)
      requires Valid()
      modifies this`top, this`bottom
      ensures Valid() && data[..] == old(data[..])
      ensures old(Contents()) == [] ==> r == None && Contents() == []
      ensures old(Contents()) != [] ==> var q := old(Contents());
        r == Some(q[|q| - 1]) && Contents() == q[..|q| - 1]
    {
      ghost var q := Contents();
      var b := bottom - 1;
      bottom := b;
      var t := top;
      if t <= b {
        var val := data[b % data.Length];
        assert val == q[|q| - 1];
        if t == b {
          var claimed := top == t;
          if claimed { top := t + 1; }
          bottom := b + 1;
          if !claimed { return None; }
        }
        assert Contents() == q[..|q| - 1];
        return Some(val);
      }
      bottom := b + 1;
      return None;
    }

    /** Adds an element at the back, growing the ring first when it is full. */
    method Insert(val: T)
      requires Valid()
      modifies this, data
      ensures Valid() && Contents() == old(Contents()) + [val]
      ensures |old(Contents())| < old(data.Length) ==> data == old(data) && buffers == old(buffers)
      ensures |old(Contents())| == old(data.Length) ==>
        fresh(data) && data.Length == 2 * old(data.Length) && buffers == old(buffers) + [data]
      ensures top == old(top) && bottom == old(bottom) + 1
    {
      ghost var q := Contents();
      var b, t := bottom, top;
      if b - t > data.Length - 1 {
        Resize();
      }
      assert Contents() == q;
      forall i | t <= i < b ensures i % data.Length != b % data.Length {
        RingSlotsDiffer(i, b, data.Length);
      }
      data[b % data.Length] := val;
      bottom := b + 1;
      assert forall k | 0 <= k < |q| :: Contents()[k] == q[k];
      assert Contents()[|q|] == val;
    }

    /** Removes the element inserted first. */
    method Steal() returns (r: Option<T>)
      requires Valid()
      modifies this`top
      ensures Valid() && data[..] == old(data[..])
      ensures old(Contents()) == [] ==> r == None && Contents() == []
      ensures old(Contents()) != [] ==> r == Some(old(Contents())[0]) && Contents() == old(Contents())[1..]
    {
      ghost var q := Contents();
      var t, b := top, bottom;
      if t < b {
        var val := data[t % data.Length];
        assert val == q[0];
        if top != t { return None; }
        top := t + 1;
        assert Contents() == q[1..];
        return Some(val);
      }
      return None;
    }

    /** Resize's loop: the cells of indices t to b, moved to where a longer ring wants them. */
    static method CopyCells(from: array<T>, to: array<T>, t: int, b: int)
      requires from != to && 0 < from.Length < to.Length
      requires 0 <= t <= b && b - t <= from.Length
      modifies to
      ensures forall j | t <= j < b :: to[j % to.Length] == from[j % from.Length]
    {
      var i := t;
      while i < b
        invariant t <= i <= b
        invariant forall j | t <= j < i :: to[j % to.Length] == from[j % from.Length]
      {
        forall j | t <= j < i ensures j % to.Length != i % to.Length { RingSlotsDiffer(j, i, to.Length); }
        to[i % to.Length] := from[i % from.Length];
        i := i + 1;
      }
    }

    /** Doubles the ring: other cells, same contents; the old cells are kept as they are. */
    method Resize()
      requires Valid()
      modifies this`data, this`buffers
      ensures Valid() && Contents() == old(Contents())
      ensures fresh(data) && data.Length == 2 * old(data.Length)
      ensures buffers == old(buffers) + [data]
    {
      ghost var q := Contents();
      var next := new T[2 * data.Length];
      CopyCells(data, next, top, bottom);
      data := next;
      buffers := buffers + [next];
      assert Contents() == q;
    }

    /** The call and its result are what the event says happened. */
    static ghost predicate Tells(call: Call<T>, r: Option<T>, e: Event<T>) {
      match call
      case Put(v) => e.Inserted? && e.val == v && r.None?
      case TakeBack => if r.Some? then e == Taken(r.value) else e == TookNothing
      case StealFront => if r.Some? then e.Stolen? && e.val == r.value else e == TookNothing
    }

    /** Any calls one after another, through any number of resizes: the history of a plain queue. */
    method Calls(calls: seq<Call<T>>) returns (results: seq<Option<T>>, ghost log: seq<Event<T>>)
      requires Valid() && Contents() == []
      modifies this, data
      ensures Valid() && |results| == |log| == |calls|
      ensures Replay(log) == Some(Contents())
      ensures forall k | 0 <= k < |calls| :: Tells(calls[k], results[k], log[k])
    {
      results, log := [], [];
      for i := 0 to |calls|
        invariant Valid() && |results| == |log| == i && (data == old(data) || fresh(data))
        invariant Replay(log) == Some(Contents())
        invariant forall k | 0 <= k < i :: Tells(calls[k], results[k], log[k])
      {
        var r, e := Call(calls[i]);
        ReplayAppend(log, e);
        results, log := results + [r], log + [e];
      }
    }

    method Call(call: Call<T>) returns (r: Option<T>, ghost e: Event<T>)
      requires Valid()
      modifies this, data
      ensures Valid() && (data == old(data) || fresh(data))
      ensures Tells(call, r, e) && Apply(old(Contents()), e) == Some(Contents())
    {
      r := None;
      match call {
        case Put(v) => e := Inserted(v, bottom); Insert(v);
        case TakeBack => r := Take(); e := if r.Some? then Taken(r.value) else TookNothing;
        case StealFront => e := TookNothing; var at := top; r := Steal(); if r.Some? { e := Stolen(r.value, at); }
      }
    }
  }
}
