/**
 * The pool's globals and the Fd object as one thread sees them: each method against the
 * count of leases and of closed descriptors that the packed word stands for.
 */
module FdHandle {
  import opened Common
  import P = FdPool

  /** `live` and `closes` are what the word encodes. */
  class AtomicLeases {
    var bits: int
    ghost var live: int
    ghost var closes: int

    ghost predicate Valid()
      reads this
    {
      0 <= live < EPOCHS && bits == P.Packed(live, closes)
    }

    constructor ()
      ensures Valid() && live == 0 && closes == 0
    {
      bits, live, closes := 0, 0, 0;
    }

    method Load() returns (now: Leases)
      requires Valid()
      ensures now == Leases(live, closes % EPOCHS)
    {
      P.UnpackPacked(live, closes);
      now := P.Unpack(bits);
    }

    method Acquire() returns (before: Leases)
      requires Valid() && live + 1 < EPOCHS
      modifies this
      ensures Valid() && live == old(live) + 1 && closes == old(closes)
      ensures before == Leases(old(live), closes % EPOCHS)
    {
      P.UnpackPacked(live, closes);
      P.NoCarry(live, closes);
      before := P.Unpack(bits);
      bits := P.AcquireBits(bits);
      live := live + 1;
    }

    method Release()
      requires Valid() && live >= 1
      modifies this
      ensures Valid() && live == old(live) - 1 && closes == old(closes) + 1
    {
      P.NoCarry(live, closes);
      bits := P.ReleaseBits(bits);
      live, closes := live - 1, closes + 1;
    }

    method Forget()
      requires Valid() && live >= 1
      modifies this
      ensures Valid() && live == old(live) - 1 && closes == old(closes)
    {
      P.NoCarry(live, closes);
      bits := P.ForgetBits(bits);
      live := live - 1;
    }
  }

  /** What is known of the system's limit: what can be opened, and how much was too much. */
  datatype Limits = Limits(capacity: nat, ceiling: int, raiseAttempted: bool) {

    /** The capacity, asked for where it is not known yet; 0 if it cannot be had. */
    function Capacity(limit: Option<nat>): nat {
      if capacity != 0 then capacity else if limit.Some? then limit.value else 0
    }

    /** The limit is raised now: half of the capacity is leased, and nobody tried before. */
    predicate RaisesAt(live: nat, limit: Option<nat>) {
      Capacity(limit) != 0 && live * 100 >= Capacity(limit) * 50 && !raiseAttempted
    }

    function Raise(live: nat, limit: Option<nat>, raised: Option<nat>): Limits {
      if !RaisesAt(live, limit) then this.(capacity := Capacity(limit))
      else if raised.Some? then Limits(raised.value, 0, true)
      else Limits(Capacity(limit), ceiling, true)
    }

    /** A refusal while `held` leases were out says that those are too many, if any were. */
    function Lower(held: int): Limits {
      if held != 0 && P.Lowers(held, ceiling) then this.(ceiling := held) else this
    }
  }

  /** A reservation with the answers it gets about the limit, or a refusal. */
  datatype Use = Reserved(live: nat, limit: Option<nat>, raised: Option<nat>) | TurnedDown(held: nat)

  function After(l: Limits, uses: seq<Use>): Limits {
    if uses == [] then l
    else
      var before := After(l, uses[..|uses| - 1]);
      match uses[|uses| - 1]
      case Reserved(live, limit, raised) => before.Raise(live, limit, raised)
      case TurnedDown(held) => before.Lower(held)
  }

  /** How often these uses ask the system for a higher limit. */
  function Raises(l: Limits, uses: seq<Use>): nat {
    if uses == [] then 0
    else
      var before, last := uses[..|uses| - 1], uses[|uses| - 1];
      Raises(l, before) + if last.Reserved? && After(l, before).RaisesAt(last.live, last.limit) then 1 else 0
  }

  /** Over any reservations and refusals the limit is raised at most once, and the flag says whether it was. */
  lemma {:induction false} RaisedOnce(l: Limits, uses: seq<Use>)
    ensures Raises(l, uses) + (if l.raiseAttempted then 1 else 0) == if After(l, uses).raiseAttempted then 1 else 0
  {
    if uses != [] { RaisedOnce(l, uses[..|uses| - 1]); }
  }

  /** With the attempt behind it and the capacity known, no reservation changes anything any more. */
  lemma {:induction false} LimitSettles(l: Limits, uses: seq<Use>)
    requires l.raiseAttempted && l.capacity != 0
    ensures After(l, uses).raiseAttempted && After(l, uses).capacity == l.capacity
    ensures (forall u | u in uses :: u.Reserved?) ==> After(l, uses) == l
  {
    if uses != [] { LimitSettles(l, uses[..|uses| - 1]); }
  }

  /**
   * The interleaved model takes the same decisions: a reservation's two steps after the
   * word do to ceiling and flag what Raise does.
   */
  lemma SameRaise(s: P.State, t: nat, capacity: nat, raised: Option<nat>)
    requires t < |s.threads| && s.threads[t].Raising? && s.threads[t].before.live >= 0
    ensures var s1 := P.Step(s, t, P.RaiseIfNeeded(capacity, raised.Some?));
      && |s1.threads| == |s.threads|
      && var s2 := P.Step(s1, t, P.ResetCeiling);
         var l := Limits(0, s.ceiling, s.raiseAttempted).Raise(s.threads[t].before.live + 1, Some(capacity), raised);
         s2.ceiling == l.ceiling && s2.raiseAttempted == l.raiseAttempted && s2.threads[t].Opening?
  {
    hide P.DescriptorStep, P.AcquireBits, P.ForgetBits, P.Live, P.Lowers;
  }

  /** The globals of limits/fd.cpp. */
  class Pool {
    const leases: AtomicLeases
    var knownCapacity: nat
    var observedCeiling: int
    var raiseAttempted: bool

    ghost function Known(): Limits
      reads this
    {
      Limits(knownCapacity, observedCeiling, raiseAttempted)
    }

    constructor ()
      ensures fresh(leases) && leases.Valid() && leases.live == 0 && leases.closes == 0
      ensures knownCapacity == 0 && observedCeiling == 0 && !raiseAttempted
    {
      leases := new AtomicLeases();
      knownCapacity, observedCeiling, raiseAttempted := 0, 0, false;
    }

    method Exhausted() returns (exhausted: bool)
      requires leases.Valid()
      ensures exhausted <==> observedCeiling != 0 && leases.live >= observedCeiling
    {
      var now := leases.Load();
      exhausted := observedCeiling != 0 && now.live >= observedCeiling;
    }

    /** Once, at half of what can be opened: `limit` and `raised` are getrlimit's and setrlimit's answers. */
    method RaiseIfNeeded(live: nat, limit: Option<nat>, raised: Option<nat>)
      modifies this
      ensures Known() == old(Known()).Raise(live, limit, raised)
      ensures old(knownCapacity) != 0 && old(raiseAttempted) ==> Known() == old(Known())
      ensures old(raiseAttempted) ==> raiseAttempted && observedCeiling == old(observedCeiling)
      ensures raiseAttempted == old(raiseAttempted) ==>
        && observedCeiling == old(observedCeiling)
        && (old(knownCapacity) != 0 ==> knownCapacity == old(knownCapacity))
      ensures raiseAttempted && !old(raiseAttempted) && raised.Some? ==> observedCeiling == 0 && knownCapacity == raised.value
      ensures old(knownCapacity) != 0 && !old(raiseAttempted) ==>
        (raiseAttempted <==> live * 100 >= old(knownCapacity) * 50)
      ensures old(knownCapacity) == 0 && limit.Some? && limit.value > 0 ==>
        && (raiseAttempted <==> old(raiseAttempted) || live * 100 >= limit.value * 50)
        && (raiseAttempted == old(raiseAttempted) || raised.None? ==> knownCapacity == limit.value)
      ensures old(knownCapacity) == 0 && (limit.None? || limit.value == 0) ==> Known() == old(Known())
      ensures raised.None? ==> observedCeiling == old(observedCeiling) && (old(knownCapacity) != 0 ==> knownCapacity == old(knownCapacity))
    {
      if knownCapacity == 0 {
        knownCapacity := if limit.Some? then limit.value else 0;
      }
      if knownCapacity == 0 || live * 100 < knownCapacity * 50 { return; }
      if raiseAttempted { return; }
      raiseAttempted := true;
      if raised.Some? {
        knownCapacity := raised.value;
        observedCeiling := 0;
      }
    }

    method CompareExchangeWeak(expected: int, desired: int, spurious: bool) returns (swapped: bool, seen: int)
      modifies this`observedCeiling
      ensures swapped <==> !spurious && old(observedCeiling) == expected
      ensures seen == old(observedCeiling)
      ensures observedCeiling == if swapped then desired else old(observedCeiling)
    {
      seen := observedCeiling;
      swapped := !spurious && observedCeiling == expected;
      if swapped { observedCeiling := desired; }
    }

    /** The first `spurious` tries of the exchange fail for no reason. */
    method Refused(before: Leases, spurious: nat) returns (retryable: bool)
      requires leases.Valid() && leases.live >= 1 && 0 <= before.live
      modifies this`observedCeiling, leases
      ensures leases.Valid() && leases.live == old(leases.live) - 1 && leases.closes == old(leases.closes)
      ensures Known() == old(Known()).Lower(before.live)
      ensures before.live == 0 ==> observedCeiling == old(observedCeiling)
      ensures before.live > 0 ==>
        observedCeiling == if old(observedCeiling) != 0 && old(observedCeiling) < before.live then old(observedCeiling) else before.live
      ensures retryable <==> leases.live != 0 || leases.closes % EPOCHS != before.epoch
    {
      leases.Forget();
      var held := before.live;
      if held != 0 {
        var ceiling, swapped, left := observedCeiling, false, spurious;
        while P.Lowers(held, ceiling) && !swapped
          invariant !swapped ==> ceiling == observedCeiling == old(observedCeiling)
          invariant swapped ==> observedCeiling == held && P.Lowers(held, old(observedCeiling))
          invariant leases.Valid() && leases.live == old(leases.live) - 1 && leases.closes == old(leases.closes)
          decreases if swapped then 0 else 1, left
        {
          swapped, ceiling := CompareExchangeWeak(ceiling, held, left > 0);
          left := if left > 0 then left - 1 else 0;
        }
      }
      var now := leases.Load();
      retryable := MayFree(now, before);
    }
  }

  /** What the system says to an open: a descriptor or an errno, perhaps EMFILE or ENFILE. */
  datatype OpenAnswer = Descriptor(number: nat) | Errno(code: int, outOfDescriptors: bool)

  datatype OpenError = OpenError(code: int, retryable: bool)

  const INVALID := -1

  class Fd {
    const pool: Pool
    var fd: int

    /** An Fd that holds a descriptor holds a lease. */
    ghost predicate Valid()
      reads this, pool.leases
    {
      pool.leases.Valid() && (fd >= 0 ==> pool.leases.live >= 1)
    }

    constructor (pool: Pool, number: int)
      ensures this.pool == pool && fd == number
    {
      this.pool, this.fd := pool, number;
    }

    /** A lease is taken first and kept by the Fd, or given back when the open fails. */
    static method Open(pool: Pool, answer: OpenAnswer, limit: Option<nat>, raised: Option<nat>, spurious: nat)
      returns (r: Result<Fd, OpenError>)
      requires pool.leases.Valid() && pool.leases.live + 1 < EPOCHS
      modifies pool, pool.leases
      ensures pool.leases.Valid() && pool.leases.closes == old(pool.leases.closes)
      ensures r.Ok? <==> answer.Descriptor?
      ensures r.Ok? ==>
        && fresh(r.value) && r.value.pool == pool && r.value.Valid() && r.value.fd == answer.number
        && pool.leases.live == old(pool.leases.live) + 1
      ensures r.Err? ==>
        && pool.leases.live == old(pool.leases.live)
        && r.error == OpenError(answer.code, answer.outOfDescriptors && old(pool.leases.live) != 0)
      ensures
        var known := old(pool.Known()).Raise(old(pool.leases.live) + 1, limit, raised);
        pool.Known() == if answer.Errno? && answer.outOfDescriptors then known.Lower(old(pool.leases.live)) else known
    {
      var before := pool.leases.Acquire();
      pool.RaiseIfNeeded(before.live + 1, limit, raised);
      match answer
      case Descriptor(number) =>
        var handle := new Fd(pool, number);
        r := Ok(handle);
      case Errno(code, outOfDescriptors) =>
        var retryable := false;
        if outOfDescriptors {
          retryable := pool.Refused(before, spurious);
        } else {
          pool.leases.Forget();
        }
        r := Err(OpenError(code, retryable));
    }

    /** Closing twice closes once. */
    method Close()
      requires Valid()
      modifies this, pool.leases
      ensures Valid() && fd == INVALID
      ensures old(fd) >= 0 ==> pool.leases.live == old(pool.leases.live) - 1 && pool.leases.closes == old(pool.leases.closes) + 1
      ensures old(fd) < 0 ==> pool.leases.live == old(pool.leases.live) && pool.leases.closes == old(pool.leases.closes)
    {
      if fd >= 0 {
        pool.leases.Release();
      }
      fd := INVALID;
    }

    /** The descriptor leaves still open: the lease goes, the epoch stays. */
    method Release() returns (number: int)
      requires Valid()
      modifies this, pool.leases
      ensures Valid() && fd == INVALID && number == old(fd) && pool.leases.closes == old(pool.leases.closes)
      ensures pool.leases.live == old(pool.leases.live) - if old(fd) >= 0 then 1 else 0
    {
      if fd >= 0 {
        pool.leases.Forget();
      }
      number := fd;
      fd := INVALID;
    }

    /** Move assignment: what this Fd held is closed, what `other` held changes hands. */
    method MoveFrom(other: Fd)
      requires other.pool == pool && Valid() && other.Valid()
      requires this != other && fd >= 0 && other.fd >= 0 ==> pool.leases.live >= 2
      modifies this, other, pool.leases
      ensures Valid() && other.Valid() && fd == old(other.fd)
      ensures this != other ==> other.fd == INVALID
      ensures
        var closed := if this != other && old(fd) >= 0 then 1 else 0;
        pool.leases.live == old(pool.leases.live) - closed && pool.leases.closes == old(pool.leases.closes) + closed
    {
      if this != other {
        Close();
        fd := other.fd;
        other.fd := INVALID;
      }
    }
  }
}
