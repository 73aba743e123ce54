/**
 * The sequential double-ended queue both models of the Chase-Lev queue are held to:
 * the owner adds and removes at the back, thieves remove at the front.
 */
module DequeSpec {
  import opened Common

  const INIT_CAP := 1024

  /** What a call did; `at` is the index the element lay at. */
  datatype Event<T> =
    | Inserted(val: T, at: int)
    | Taken(val: T)
    | Stolen(val: T, at: int)
    | TookNothing

  /** The queue after `e`, or None when no sequential queue holding `q` could answer so. */
  ghost function Apply<T>(q: seq<T>, e: Event<T>): Option<seq<T>> {
    match e
    case Inserted(v, _) => Some(q + [v])
    case Taken(v) => if q != [] && q[|q| - 1] == v then Some(q[..|q| - 1]) else None
    case Stolen(v, _) => if q != [] && q[0] == v then Some(q[1..]) else None
    case TookNothing => if q == [] then Some(q) else None
  }

  /** The queue a history leaves behind, or None when the history is not one of a queue. */
  ghost function Replay<T>(log: seq<Event<T>>): Option<seq<T>> {
    if log == [] then Some([])
    else
      var before := Replay(log[..|log| - 1]);
      if before.None? then None else Apply(before.value, log[|log| - 1])
  }

  ghost function Insertions<T>(log: seq<Event<T>>): multiset<T> {
    if log == [] then multiset{}
    else
      var last := log[|log| - 1];
      Insertions(log[..|log| - 1]) + if last.Inserted? then multiset{last.val} else multiset{}
  }

  ghost function Claims<T>(log: seq<Event<T>>): multiset<T> {
    if log == [] then multiset{}
    else
      var last := log[|log| - 1];
      Claims(log[..|log| - 1]) + if last.Taken? || last.Stolen? then multiset{last.val} else multiset{}
  }

  /** The element last inserted at index `i`, if any was. */
  ghost function LastInsertedAt<T>(log: seq<Event<T>>, i: int): Option<T> {
    if log == [] then None
    else
      var last := log[|log| - 1];
      if last.Inserted? && last.at == i then Some(last.val) else LastInsertedAt(log[..|log| - 1], i)
  }

  /** Every steal got the element last inserted at its index, and indices only went up. */
  ghost predicate StealsInOrder<T>(log: seq<Event<T>>) {
    forall k | 0 <= k < |log| && log[k].Stolen? ::
      && LastInsertedAt(log[..k], log[k].at) == Some(log[k].val)
      && forall j | 0 <= j < k && log[j].Stolen? :: log[j].at < log[k].at
  }

  lemma LastInsertedAppend<T>(log: seq<Event<T>>, e: Event<T>, i: int)
    ensures LastInsertedAt(log + [e], i) == if e.Inserted? && e.at == i then Some(e.val) else LastInsertedAt(log, i)
  {
    assert (log + [e])[..|log|] == log;
  }

  lemma StealsInOrderAppend<T>(log: seq<Event<T>>, e: Event<T>)
    requires StealsInOrder(log)
    requires e.Stolen? ==>
      && LastInsertedAt(log, e.at) == Some(e.val)
      && forall j | 0 <= j < |log| && log[j].Stolen? :: log[j].at < e.at
    ensures StealsInOrder(log + [e])
  {
    hide LastInsertedAt;
    forall k | 0 <= k < |log| ensures (log + [e])[..k] == log[..k] {}
    assert (log + [e])[..|log|] == log;
  }

  /** The queue `q` starts at index `top`, and its elements are those last inserted at their indices. */
  ghost predicate HeldAt<T>(log: seq<Event<T>>, top: int, q: seq<T>) {
    forall i | 0 <= i < |q| :: LastInsertedAt(log, top + i) == Some(q[i])
  }

  lemma HeldAppend<T>(log: seq<Event<T>>, e: Event<T>, top: int, q: seq<T>, top': int, q': seq<T>)
    requires HeldAt(log, top, q) && Apply(q, e) == Some(q')
    requires e.Inserted? ==> e.at == top + |q| && top' == top
    requires e.Stolen? ==> top' == top + 1
    requires e.Taken? ==> top' == top || q' == []
    ensures HeldAt(log + [e], top', q')
  {
    hide LastInsertedAt;
    forall i | 0 <= i < |q'| ensures LastInsertedAt(log + [e], top' + i) == Some(q'[i]) {
      LastInsertedAppend(log, e, top' + i);
      var j := top' + i - top;
      if j < |q| { assert LastInsertedAt(log, top + j) == Some(q[j]); }
    }
  }

  lemma ReplayAppend<T>(log: seq<Event<T>>, e: Event<T>)
    requires Replay(log).Some?
    ensures Replay(log + [e]) == Apply(Replay(log).value, e)
  {
    assert (log + [e])[..|log|] == log;
  }

  /** In a queue's history nothing is lost, invented or handed out twice. */
  lemma {:induction false} Conservation<T>(log: seq<Event<T>>)
    requires Replay(log).Some?
    ensures Insertions(log) == Claims(log) + multiset(Replay(log).value)
  {
    if log != [] {
      var before, e := log[..|log| - 1], log[|log| - 1];
      Conservation(before);
      ApplyConserves(Replay(before).value, e);
      Rebalance(Insertions(before), Claims(before), multiset(Replay(before).value), multiset(Replay(log).value),
                if e.Inserted? then multiset{e.val} else multiset{},
                if e.Taken? || e.Stolen? then multiset{e.val} else multiset{});
    }
  }

  lemma Rebalance<T>(inserted: multiset<T>, claimed: multiset<T>, held: multiset<T>, held': multiset<T>,
                     more: multiset<T>, gone: multiset<T>)
    requires inserted == claimed + held && held + more == held' + gone
    ensures inserted + more == (claimed + gone) + held'
  {
    assert inserted + more == claimed + (held + more) == claimed + (held' + gone);
  }

  lemma ApplyConserves<T>(q: seq<T>, e: Event<T>)
    requires Apply(q, e).Some?
    ensures multiset(q) + (if e.Inserted? then multiset{e.val} else multiset{})
         == multiset(Apply(q, e).value) + (if e.Taken? || e.Stolen? then multiset{e.val} else multiset{})
  {
    match e
    case Inserted(v, _) =>
    case Taken(v) => assert q == q[..|q| - 1] + [v];
    case Stolen(v, _) => assert q == [v] + q[1..];
    case TookNothing =>
  }
}
