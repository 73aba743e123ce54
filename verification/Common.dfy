/** Vocabulary shared by the other modules. */
module Common {

  datatype Option<+T> = None | Some(value: T)

  datatype Result<+T, +E> = Ok(value: T) | Err(error: E)

  /** What the descriptor pool's word encodes: leases out now, and closes so far modulo 2^32. */
  datatype Leases = Leases(live: int, epoch: int)

  const EPOCHS := 0x1_0000_0000

  /** Refused's answer: one of ours is leased now, or was closed since `before`. */
  predicate MayFree(now: Leases, before: Leases) {
    now.live != 0 || now.epoch != before.epoch
  }

  /** The pieces one after another. */
  function Flatten<T>(pieces: seq<seq<T>>): seq<T> {
    if pieces == [] then [] else pieces[0] + Flatten(pieces[1..])
  }

  lemma {:induction false} FlattenConcat<T>(a: seq<seq<T>>, b: seq<seq<T>>)
    ensures Flatten(a + b) == Flatten(a) + Flatten(b)
  {
    if a == [] {
      assert a + b == b;
    } else {
      assert (a + b)[1..] == a[1..] + b;
      FlattenConcat(a[1..], b);
    }
  }

  lemma FlattenPush<T>(a: seq<seq<T>>, s: seq<T>)
    ensures Flatten(a + [s]) == Flatten(a) + s
  {
    FlattenConcat(a, [s]);
    assert Flatten([s]) == s;
  }

  /** The state a run of states ends in. */
  function Final<S>(run: seq<S>): S
    requires run != []
  {
    run[|run| - 1]
  }

  /** Taking or dropping within the first part of a concatenation. */
  lemma AppendTakeDrop<T>(a: seq<T>, b: seq<T>, n: nat)
    requires n <= |a|
    ensures (a + b)[..n] == a[..n] && (a + b)[n..] == a[n..] + b
  {
  }

  lemma MultipleOfAtLeast(q: int, len: nat)
    ensures q >= 1 ==> q * len >= len
    ensures q <= 0 ==> q * len <= 0
    decreases if q < 0 then -q else q
  {
    if q > 1 {
      MultipleOfAtLeast(q - 1, len);
    } else if q < 0 {
      assert q * len == (q + 1) * len - len;
      MultipleOfAtLeast(q + 1, len);
    }
  }

  /** Two indices less than `len` apart share a ring slot only if they are equal. */
  lemma RingSlotsDiffer(i: int, j: int, len: nat)
    requires 0 <= i < j && j - i < len
    ensures i % len != j % len
  {
    if i % len == j % len {
      var qi, qj := i / len, j / len;
      assert i == qi * len + i % len && j == qj * len + j % len;
      assert j - i == (qj - qi) * len;
      MultipleOfAtLeast(qj - qi, len);
    }
  }
}
