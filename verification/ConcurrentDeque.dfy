/**
 * The Chase-Lev queue as its threads really run it: one owner and any number of thieves,
 * every load, store or compare-exchange of a shared location one step of its own.
 * Atomic accesses are sequentially consistent and indices do not overflow.
 * The owner's loads of `bottom_` and `data_`, which it alone writes, share a step with
 * the load next to them.
 */
module ConcurrentDeque {
  import opened Common
  import opened DequeSpec

  /** Where the owner stands inside Take, Insert or Resize, with its local variables. */
  datatype Owner<T> =
    | Resting
    | TakeBegun(b: int, a: nat)
    | TakeLowered(b: int, a: nat)
    | TakeSeen(b: int, a: nat, t: int)
    | TakeRead(b: int, t: int, val: T)
    | TakeRestoring(b: int)
    | InsertBegun(val: T, b: int)
    | InsertSeen(val: T, b: int, t: int)
    | GrowBegun(val: T, b: int, next: seq<T>)
    | GrowCopying(val: T, b: int, next: seq<T>, t: int, i: int)
    | InsertReady(val: T, b: int)
    | InsertWritten(val: T, b: int)

  /** Where a thief stands inside Steal; `since` is the length of the log when it loaded top. */
  datatype Thief<T> =
    | Away
    | SawTop(t: int, since: nat)
    | SawBottom(t: int, since: nat)
    | SawData(t: int, a: nat, since: nat)
    | Read(t: int, val: T, since: nat)

  /**
   * Shared memory, the threads, and the log of what the calls that have taken effect
   * returned. `bufs` holds the active buffer and every retired one.
   */
  datatype State<T> = State(
    zero: T,
    top: int,
    bottom: int,
    data: nat,
    bufs: seq<seq<T>>,
    owner: Owner<T>,
    thieves: seq<Thief<T>>,
    log: seq<Event<T>>)

  /** One scheduling choice: who moves, and which call an idle thread enters. */
  datatype Action<T> =
    | BeginTake
    | BeginInsert(val: T)
    | OwnerStep
    | BeginSteal(thief: nat)
    | ThiefStep(thief: nat)

  ghost function Initial<T>(zero: T, thiefCount: nat): State<T> {
    State(zero, 0, 0, 0, [seq(INIT_CAP, _ => zero)], Resting, seq(thiefCount, _ => Away), [])
  }

  /** Shape every step relies on: the buffers named by data and by the threads exist. */
  ghost predicate InBounds<T>(s: State<T>) {
    && 0 < |s.bufs| && s.data == |s.bufs| - 1
    && (forall k | 0 <= k < |s.bufs| :: 0 < |s.bufs[k]|)
    && match s.owner
       case TakeBegun(_, a) => a < |s.bufs|
       case TakeLowered(_, a) => a < |s.bufs|
       case TakeSeen(b, a, _) => a < |s.bufs|
       case GrowBegun(_, _, next) => 0 < |next|
       case GrowCopying(_, _, next, _, i) => 0 < |next| && 0 <= i
       case InsertReady(_, b) => 0 <= b
       case _ => true
  }

  ghost predicate ThiefInBounds<T>(s: State<T>, k: nat) {
    k < |s.thieves| && (s.thieves[k].SawData? ==> s.thieves[k].a < |s.bufs|)
  }

  ghost function Active<T>(s: State<T>): seq<T>
    requires InBounds(s)
  {
    s.bufs[s.data]
  }

  /** What index `i` finds in a buffer, and the buffer after index `i` is written. */
  ghost function Cell<T>(buf: seq<T>, i: int): T
    requires 0 < |buf|
  {
    buf[i % |buf|]
  }

  ghost function Put<T>(buf: seq<T>, i: int, val: T): (r: seq<T>)
    requires 0 < |buf| && 0 <= i
    ensures |r| == |buf| && Cell(r, i) == val
    ensures forall j | 0 <= j < i && i - j < |buf| :: Cell(r, j) == Cell(buf, j)
  {
    var r := buf[i % |buf| := val];
    assert forall j | 0 <= j < i && i - j < |buf| :: Cell(r, j) == Cell(buf, j) by {
      forall j | 0 <= j < i && i - j < |buf| ensures Cell(r, j) == Cell(buf, j) {
        RingSlotsDiffer(j, i, |buf|);
      }
    }
    r
  }

  ghost function OwnerNext<T>(s: State<T>): State<T>
    requires InBounds(s)
  {
    match s.owner
    case Resting => s
    case TakeBegun(b, a) => s.(bottom := b, owner := TakeLowered(b, a))
    case TakeLowered(b, a) =>
      if s.top <= b then s.(owner := TakeSeen(b, a, s.top))
      else s.(owner := TakeRestoring(b), log := s.log + [TookNothing])
    case TakeSeen(b, a, t) => s.(owner := TakeRead(b, t, Cell(s.bufs[a], b)))
    case TakeRead(b, t, val) =>
      if t != b then s.(owner := Resting, log := s.log + [Taken(val)])
      else if s.top == t then s.(top := t + 1, owner := TakeRestoring(b), log := s.log + [Taken(val)])
      else s.(owner := TakeRestoring(b), log := s.log + [TookNothing])
    case TakeRestoring(b) => s.(bottom := b + 1, owner := Resting)
    case InsertBegun(val, b) => s.(owner := InsertSeen(val, b, s.top))
    case InsertSeen(val, b, t) =>
      if b - t > |Active(s)| - 1
      then s.(owner := GrowBegun(val, b, seq(2 * |Active(s)|, _ => s.zero)))
      else s.(owner := InsertReady(val, b))
    case GrowBegun(val, b, next) => s.(owner := GrowCopying(val, b, next, s.top, s.top))
    case GrowCopying(val, b, next, t, i) =>
      if i < s.bottom
      then s.(owner := GrowCopying(val, b, Put(next, i, Cell(Active(s), i)), t, i + 1))
      else s.(bufs := s.bufs + [next], data := |s.bufs|, owner := InsertReady(val, b))
    case InsertReady(val, b) =>
      s.(bufs := s.bufs[s.data := Put(Active(s), b, val)], owner := InsertWritten(val, b))
    case InsertWritten(val, b) =>
      s.(bottom := b + 1, owner := Resting, log := s.log + [Inserted(val, b)])
  }

  ghost function ThiefNext<T>(s: State<T>, k: nat): State<T>
    requires InBounds(s) && ThiefInBounds(s, k)
  {
    match s.thieves[k]
    case Away => s
    case SawTop(t, since) =>
      s.(thieves := s.thieves[k := if t < s.bottom then SawBottom(t, since) else Away])
    case SawBottom(t, since) => s.(thieves := s.thieves[k := SawData(t, s.data, since)])
    case SawData(t, a, since) =>
      s.(thieves := s.thieves[k := Read(t, Cell(s.bufs[a], t), since)])
    case Read(t, val, since) =>
      if s.top == t
      then s.(top := t + 1, thieves := s.thieves[k := Away], log := s.log + [Stolen(val, t)])
      else s.(thieves := s.thieves[k := Away])
  }

  /** A choice that does not apply (a busy thread entering a call) changes nothing. */
  ghost function Step<T>(s: State<T>, act: Action<T>): State<T>
    requires InBounds(s) && forall k: nat | k < |s.thieves| :: ThiefInBounds(s, k)
  {
    match act
    case BeginTake =>
      if s.owner.Resting? then s.(owner := TakeBegun(s.bottom - 1, s.data)) else s
    case BeginInsert(val) =>
      if s.owner.Resting? then s.(owner := InsertBegun(val, s.bottom)) else s
    case OwnerStep => OwnerNext(s)
    case BeginSteal(k) =>
      if k < |s.thieves| && s.thieves[k].Away?
      then s.(thieves := s.thieves[k := SawTop(s.top, |s.log|)]) else s
    case ThiefStep(k) => if k < |s.thieves| then ThiefNext(s, k) else s
  }

  ghost predicate Bounded<T>(s: State<T>) {
    InBounds(s) && forall k: nat | k < |s.thieves| :: ThiefInBounds(s, k)
  }

  ghost predicate Follows<T(!new)>(s: State<T>, s': State<T>) {
    Bounded(s) && exists act :: s' == Step(s, act)
  }

  /** The states of any interleaving, from the empty queue. */
  ghost predicate IsRun<T(!new)>(zero: T, thiefCount: nat, run: seq<State<T>>) {
    && run != [] && run[0] == Initial(zero, thiefCount)
    && forall i | 0 <= i < |run| - 1 :: Follows(run[i], run[i + 1])
  }

  /** One past the last index holding an element: a half-done Take has already lowered bottom. */
  ghost function End<T>(s: State<T>): int {
    if s.owner.TakeLowered? || s.owner.TakeSeen? || s.owner.TakeRead? || s.owner.TakeRestoring?
    then s.bottom + 1
    else s.bottom
  }

  /** The owner has seen top below the index it is taking, so that index is its own. */
  ghost predicate Reserved<T>(s: State<T>) {
    (s.owner.TakeSeen? || s.owner.TakeRead?) && s.owner.t < s.owner.b
  }

  /** Thieves may go for indices below this one. */
  ghost function Limit<T>(s: State<T>): int {
    if Reserved(s) then s.bottom else End(s)
  }

  /** The elements memory holds, read from the active buffer between top and End. */
  ghost function Resident<T>(s: State<T>): (q: seq<T>)
    requires InBounds(s) && 0 <= s.top <= End(s)
    ensures |q| == End(s) - s.top
    ensures forall k | 0 <= k < |q| :: q[k] == Cell(Active(s), s.top + k)
  {
    seq(End(s) - s.top, k requires 0 <= k < End(s) - s.top => Cell(Active(s), s.top + k))
  }

  /** Some Take or Steal has handed out an element since the log had length `since`. */
  ghost predicate ClaimedSince<T>(log: seq<Event<T>>, since: nat) {
    exists k | since <= k < |log| :: log[k].Taken? || log[k].Stolen?
  }

  ghost predicate OwnerInv<T>(s: State<T>)
    requires InBounds(s) && 0 <= s.top <= End(s)
  {
    match s.owner
    case Resting => true
    case TakeBegun(b, a) => s.bottom == b + 1 && a == s.data
    case TakeLowered(b, a) => s.bottom == b && a == s.data
    case TakeSeen(b, a, t) => s.bottom == b && a == s.data && 0 <= t <= s.top && t <= b && (t < b ==> s.top <= b)
    case TakeRead(b, t, val) =>
      && s.bottom == b && 0 <= t <= s.top && t <= b
      && (t < b ==> s.top <= b)
      && (s.top <= b ==> val == Resident(s)[b - s.top])
    case TakeRestoring(b) => s.bottom == b && s.top == b + 1
    case InsertBegun(val, b) => s.bottom == b
    case InsertSeen(val, b, t) => s.bottom == b && t <= s.top && b - t <= |Active(s)|
    case GrowBegun(val, b, next) => s.bottom == b && |next| == 2 * |Active(s)|
    case GrowCopying(val, b, next, t, i) =>
      && s.bottom == b && |next| == 2 * |Active(s)|
      && 0 <= t <= s.top && t <= i <= b && b - t <= |Active(s)|
      && forall j | t <= j < i :: Cell(next, j) == Cell(Active(s), j)
    case InsertReady(val, b) => s.bottom == b && b - s.top < |Active(s)|
    case InsertWritten(val, b) =>
      s.bottom == b && b - s.top < |Active(s)| && Cell(Active(s), b) == val
  }

  /**
   * What a thief's stale locals still say: as long as top has not moved past `t`, the
   * index is up for grabs and the buffer or value it holds, retired or not, is right.
   */
  ghost predicate ThiefInv<T>(s: State<T>, th: Thief<T>)
    requires InBounds(s) && 0 <= s.top <= End(s)
  {
    th.Away? || (
      && 0 <= th.t <= s.top
      && th.since <= |s.log|
      && (th.t < s.top ==> ClaimedSince(s.log, th.since))
      && (th.SawTop? || (th.t == s.top ==> s.top < Limit(s)))
      && (th.SawData? ==> th.a < |s.bufs|)
      && (th.SawData? && th.t == s.top ==> Cell(s.bufs[th.a], th.t) == Resident(s)[0])
      && (th.Read? && th.t == s.top ==> th.val == Resident(s)[0]))
  }

  /** What memory, the log and the owner agree on. */
  ghost predicate Core<T>(s: State<T>) {
    && InBounds(s)
    && 0 <= s.top <= End(s) && End(s) - s.top <= |Active(s)|
    && Replay(s.log) == Some(Resident(s))
    && OwnerInv(s)
  }

  ghost predicate Inv<T>(s: State<T>) {
    && Core(s)
    && forall k: nat | k < |s.thieves| :: ThiefInv(s, s.thieves[k]) && ThiefInBounds(s, k)
  }

  /** The log's indices agree with memory's. */
  ghost predicate Indexed<T>(s: State<T>)
    requires Core(s)
  {
    && StealsInOrder(s.log)
    && (forall k | 0 <= k < |s.log| && s.log[k].Stolen? :: s.log[k].at < s.top)
    && HeldAt(s.log, s.top, Resident(s))
  }

  lemma InitialInv<T>(zero: T, thiefCount: nat)
    ensures Inv(Initial(zero, thiefCount)) && Indexed(Initial(zero, thiefCount))
  {
    var s := Initial(zero, thiefCount);
    assert Resident(s) == [];
  }

  /** Where top stays put, no thief notices a step that keeps what top's index holds. */
  lemma ThievesKept<T>(s: State<T>, s': State<T>)
    requires Inv(s) && InBounds(s') && s'.thieves == s.thieves
    requires s.top == s'.top <= End(s') && s.log <= s'.log
    requires s.top < Limit(s) ==> s.top < Limit(s') <= End(s') && Resident(s')[0] == Resident(s)[0]
    requires |s.bufs| <= |s'.bufs|
    requires s.top < Limit(s) ==> forall a | 0 <= a < |s.bufs| ::
      |s'.bufs[a]| == |s.bufs[a]| && Cell(s'.bufs[a], s.top) == Cell(s.bufs[a], s.top)
    ensures forall k: nat | k < |s.thieves| :: ThiefInv(s', s.thieves[k]) && ThiefInBounds(s', k)
  {
    hide Cell, Put, Resident;
    forall k: nat | k < |s.thieves|
      ensures ThiefInv(s', s.thieves[k]) && ThiefInBounds(s', k)
    {
      assert ThiefInv(s, s.thieves[k]);
    }
  }

  /** Once top has moved on, every thief that is under way will fail, and for a reason. */
  lemma ThievesOverrun<T>(s: State<T>, s': State<T>, e: Event<T>)
    requires Inv(s) && InBounds(s') && s'.bufs == s.bufs
    requires s'.top == s.top + 1 <= End(s')
    requires (e.Taken? || e.Stolen?) && s'.log == s.log + [e]
    requires |s'.thieves| == |s.thieves|
    requires forall k | 0 <= k < |s.thieves| :: s'.thieves[k] == s.thieves[k] || s'.thieves[k] == Away
    ensures forall k: nat | k < |s'.thieves| :: ThiefInv(s', s'.thieves[k]) && ThiefInBounds(s', k)
  {
    hide Cell, Put, Resident;
    forall k: nat | k < |s'.thieves|
      ensures ThiefInv(s', s'.thieves[k]) && ThiefInBounds(s', k)
    {
      assert ThiefInv(s, s.thieves[k]);
      assert s'.log[|s.log|] == e;
    }
  }

  /** A step of the owner that leaves shared memory and the log alone. */
  lemma OwnerMoved<T>(s: State<T>, s': State<T>)
    requires Inv(s) && InBounds(s') && s' == s.(bottom := s'.bottom, owner := s'.owner)
    requires End(s') == End(s) && (s.top < Limit(s) ==> s.top < Limit(s'))
    requires 0 <= s'.top <= End(s') && OwnerInv(s')
    ensures Inv(s')
  {
    hide Cell, Put, Resident;
    assert Resident(s') == Resident(s);
    ThievesKept(s, s');
  }

  lemma TakeLoweredInv<T>(s: State<T>)
    requires Inv(s) && s.owner.TakeLowered?
    ensures Inv(OwnerNext(s))
  {
    hide Cell, Put, Resident;
    var s' := OwnerNext(s);
    if s.top <= s.owner.b {
      OwnerMoved(s, s');
    } else {
      TookNothingInv(s, s');
    }
  }

  lemma TookNothingInv<T>(s: State<T>, s': State<T>)
    requires Inv(s) && s.owner.TakeLowered? && s.top > s.owner.b
    requires s' == s.(owner := TakeRestoring(s.owner.b), log := s.log + [TookNothing])
    ensures Inv(s')
  {
    hide Cell, Put, Resident, ThiefInv, Replay;
    ReplayAppend(s.log, TookNothing);
    SameResident(s, s');
    EmptyResident(s);
    ThievesKept(s, s');
  }

  lemma SameResident<T>(s: State<T>, s': State<T>)
    requires Core(s) && InBounds(s') && s'.bufs == s.bufs && s'.data == s.data && s'.top == s.top && End(s') == End(s)
    ensures Resident(s') == Resident(s)
  {
  }

  lemma EmptyResident<T>(s: State<T>)
    requires Core(s) && End(s) == s.top
    ensures Resident(s) == []
  {
  }

  lemma TakeSeenInv<T>(s: State<T>)
    requires Inv(s) && s.owner.TakeSeen?
    ensures Inv(OwnerNext(s))
  {
    hide Cell, Put, Resident;
    OwnerMoved(s, OwnerNext(s));
  }

  lemma TakeReadReservedInv<T>(s: State<T>)
    requires Inv(s) && s.owner.TakeRead? && s.owner.t != s.owner.b
    ensures Inv(OwnerNext(s))
  {
    hide Cell, Put, Resident;
    var s', q := OwnerNext(s), Resident(s);
    ReplayAppend(s.log, Taken(s.owner.val));
    assert Resident(s') == q[..|q| - 1];
    ThievesKept(s, s');
  }

  lemma TakeReadWonInv<T>(s: State<T>)
    requires Inv(s) && s.owner.TakeRead? && s.owner.t == s.owner.b == s.top
    ensures Inv(OwnerNext(s))
  {
    hide Cell, Put, Resident;
    var s', q := OwnerNext(s), Resident(s);
    ReplayAppend(s.log, Taken(s.owner.val));
    assert Resident(s') == q[..|q| - 1] == [];
    ThievesOverrun(s, s', Taken(s.owner.val));
  }

  lemma TakeReadLostInv<T>(s: State<T>)
    requires Inv(s) && s.owner.TakeRead? && s.owner.t == s.owner.b != s.top
    ensures Inv(OwnerNext(s))
  {
    hide Cell, Put, Resident;
    var s', q := OwnerNext(s), Resident(s);
    ReplayAppend(s.log, TookNothing);
    assert Resident(s') == q == [];
    ThievesKept(s, s');
  }

  lemma GrowCopyingInv<T>(s: State<T>)
    requires Inv(s) && s.owner.GrowCopying? && s.owner.i < s.bottom
    ensures Inv(OwnerNext(s))
  {
    hide Cell, Put, Resident;
    var GrowCopying(val, b, next, t, i) := s.owner;
    OwnerMoved(s, OwnerNext(s));
  }

  lemma GrowPublishedInv<T>(s: State<T>)
    requires Inv(s) && s.owner.GrowCopying? && s.owner.i >= s.bottom
    ensures Inv(OwnerNext(s))
  {
    hide Cell, Put, Resident;
    var s' := OwnerNext(s);
    assert Active(s') == s.owner.next;
    assert Resident(s') == Resident(s);
    ThievesKept(s, s');
  }

  /** The cell written is no cell a thief that can still win is looking at. */
  lemma InsertReadyInv<T>(s: State<T>)
    requires Inv(s) && s.owner.InsertReady?
    ensures Inv(OwnerNext(s))
  {
    hide Cell, Put, Resident;
    var s' := OwnerNext(s);
    assert Resident(s') == Resident(s);
    ThievesKept(s, s');
  }

  lemma InsertWrittenInv<T>(s: State<T>)
    requires Inv(s) && s.owner.InsertWritten?
    ensures Inv(OwnerNext(s))
  {
    hide Cell, Put, Resident;
    var s' := OwnerNext(s);
    ReplayAppend(s.log, Inserted(s.owner.val, s.owner.b));
    assert Resident(s') == Resident(s) + [s.owner.val];
    ThievesKept(s, s');
  }

  lemma OwnerNextInv<T>(s: State<T>)
    requires Inv(s)
    ensures Inv(OwnerNext(s))
  {
    hide Cell, Put, Resident;
    match s.owner
    case Resting =>
    case TakeBegun(b, a) => OwnerMoved(s, OwnerNext(s));
    case TakeLowered(b, a) => TakeLoweredInv(s);
    case TakeSeen(b, a, t) => TakeSeenInv(s);
    case TakeRead(b, t, val) =>
      if t != b { TakeReadReservedInv(s); }
      else if s.top == t { TakeReadWonInv(s); }
      else { TakeReadLostInv(s); }
    case TakeRestoring(b) => OwnerMoved(s, OwnerNext(s));
    case InsertBegun(val, b) => OwnerMoved(s, OwnerNext(s));
    case InsertSeen(val, b, t) => OwnerMoved(s, OwnerNext(s));
    case GrowBegun(val, b, next) => OwnerMoved(s, OwnerNext(s));
    case GrowCopying(val, b, next, t, i) =>
      if i < s.bottom { GrowCopyingInv(s); } else { GrowPublishedInv(s); }
    case InsertReady(val, b) => InsertReadyInv(s);
    case InsertWritten(val, b) => InsertWrittenInv(s);
  }

  /** A step that changes one thief's locals and nothing else. */
  lemma OneThiefMoved<T>(s: State<T>, k: nat, th: Thief<T>)
    requires Inv(s) && k < |s.thieves|
    requires ThiefInv(s, th) && (th.SawData? ==> th.a < |s.bufs|)
    ensures Inv(s.(thieves := s.thieves[k := th]))
  {
    hide Cell, Put, Resident;
    var s' := s.(thieves := s.thieves[k := th]);
    assert Resident(s') == Resident(s);
    forall j: nat | j < |s.thieves|
      ensures ThiefInv(s', s'.thieves[j]) && ThiefInBounds(s', j)
    {
      assert ThiefInv(s, s.thieves[j]) && ThiefInBounds(s, j);
    }
  }

  lemma StealWonInv<T>(s: State<T>, k: nat)
    requires Inv(s) && k < |s.thieves| && s.thieves[k].Read? && s.thieves[k].t == s.top
    ensures Inv(ThiefNext(s, k))
  {
    hide Cell, Put, Resident;
    var s', q := ThiefNext(s, k), Resident(s);
    assert ThiefInv(s, s.thieves[k]);
    var e := Stolen(s.thieves[k].val, s.top);
    ReplayAppend(s.log, e);
    assert Resident(s') == q[1..];
    ThievesOverrun(s, s', e);
  }

  lemma ThiefNextInv<T>(s: State<T>, k: nat)
    requires Inv(s) && k < |s.thieves|
    ensures Inv(ThiefNext(s, k))
  {
    hide Cell, Put, Resident;
    assert ThiefInv(s, s.thieves[k]) && ThiefInBounds(s, k);
    if s.thieves[k].Read? && s.thieves[k].t == s.top {
      StealWonInv(s, k);
    } else if !s.thieves[k].Away? {
      OneThiefMoved(s, k, ThiefNext(s, k).thieves[k]);
    }
  }

  lemma StepInv<T>(s: State<T>, act: Action<T>)
    requires Inv(s)
    ensures Inv(Step(s, act))
  {
    hide Cell, Put, Resident;
    match act
    case BeginTake => if s.owner.Resting? { OwnerMoved(s, Step(s, act)); }
    case BeginInsert(val) => if s.owner.Resting? { OwnerMoved(s, Step(s, act)); }
    case OwnerStep => OwnerNextInv(s);
    case BeginSteal(k) =>
      if k < |s.thieves| && s.thieves[k].Away? { OneThiefMoved(s, k, SawTop(s.top, |s.log|)); }
    case ThiefStep(k) => if k < |s.thieves| { ThiefNextInv(s, k); }
  }

  /** What a step adds to the log, and how top and the indices move with it. */
  lemma StepLogs<T>(s: State<T>, act: Action<T>) returns (es: seq<Event<T>>)
    requires Inv(s)
    ensures var s' := Step(s, act);
      && s'.log == s.log + es && |es| <= 1
      && (es == [] ==> s'.top == s.top)
      && s.top <= s'.top
      && (es != [] && es[0].Inserted? ==> es[0].at == End(s) && s'.top == s.top)
      && (es != [] && es[0].Stolen? ==> es[0].at == s.top && s'.top == s.top + 1)
      && (es != [] && es[0].Taken? && s'.top != s.top ==> s.top + 1 == s'.top == End(s'))
      && (es != [] && es[0].TookNothing? ==> s'.top == s.top)
  {
    hide Cell, Put, Resident;
    var s' := Step(s, act);
    es := s'.log[|s.log|..];
  }

  lemma StepIndexed<T>(s: State<T>, act: Action<T>)
    requires Inv(s) && Indexed(s) && Inv(Step(s, act))
    ensures Indexed(Step(s, act))
  {
    hide Step, ThiefInv, OwnerInv, InBounds, Indexed, Resident;
    var es := StepLogs(s, act);
    if es == [] {
      assert s.log + es == s.log;
      QuietIndexed(s, Step(s, act));
    } else {
      LogIndexed(s, Step(s, act), es[0]);
    }
  }

  /** The same history and top: the same elements at the same indices. */
  lemma QuietIndexed<T>(s: State<T>, s': State<T>)
    requires Inv(s) && Indexed(s) && Inv(s') && s'.log == s.log && s'.top == s.top
    ensures Indexed(s')
  {
    hide Cell, Put, Resident, OwnerInv, ThiefInv, InBounds, StealsInOrder, LastInsertedAt, Replay;
  }

  /** The queue in memory goes from one history's queue to the next one's. */
  lemma ResidentApplied<T>(s: State<T>, s': State<T>, e: Event<T>)
    requires Inv(s) && Inv(s') && s'.log == s.log + [e]
    ensures Apply(Resident(s), e) == Some(Resident(s'))
    ensures |Resident(s)| == End(s) - s.top && |Resident(s')| == End(s') - s'.top
  {
    hide OwnerInv, ThiefInv, InBounds, Apply;
    ReplayAppend(s.log, e);
  }

  lemma LogIndexed<T>(s: State<T>, s': State<T>, e: Event<T>)
    requires Inv(s) && Indexed(s) && Inv(s') && s'.log == s.log + [e] && s.top <= s'.top
    requires e.Inserted? ==> e.at == End(s) && s'.top == s.top
    requires e.Stolen? ==> e.at == s.top && s'.top == s.top + 1
    requires e.Taken? && s'.top != s.top ==> s'.top == End(s')
    requires e.TookNothing? ==> s'.top == s.top
    ensures Indexed(s')
  {
    hide OwnerInv, ThiefInv, InBounds, Resident, Replay, StealsInOrder, LastInsertedAt;
    ResidentApplied(s, s', e);
    HeldAppend(s.log, e, s.top, Resident(s), s'.top, Resident(s'));
    if e.Stolen? { assert LastInsertedAt(s.log, s.top + 0) == Some(Resident(s)[0]); }
    StealsInOrderAppend(s.log, e);
  }

  /** A run is a shorter run and a step. */
  lemma RunBefore<T(!new)>(zero: T, thiefCount: nat, run: seq<State<T>>) returns (act: Action<T>)
    requires IsRun(zero, thiefCount, run) && |run| > 1
    ensures IsRun(zero, thiefCount, run[..|run| - 1])
    ensures var s := Final(run[..|run| - 1]); Bounded(s) && Final(run) == Step(s, act)
  {
    hide Initial, Step;
    var before, n := run[..|run| - 1], |run|;
    assert Follows(run[n - 2], run[n - 1]);
    act :| run[n - 1] == Step(run[n - 2], act);
    forall i | 0 <= i < |before| - 1 ensures Follows(before[i], before[i + 1]) {
      assert Follows(run[i], run[i + 1]);
    }
  }

  lemma {:induction false} RunInv<T(!new)>(zero: T, thiefCount: nat, run: seq<State<T>>)
    requires IsRun(zero, thiefCount, run)
    ensures run != [] && Inv(Final(run)) && Indexed(Final(run))
  {
    hide Core, Step, ThiefInv, Indexed, Initial, InBounds;
    if |run| == 1 {
      InitialInv(zero, thiefCount);
    } else {
      var act := RunBefore(zero, thiefCount, run);
      var s := Final(run[..|run| - 1]);
      RunInv(zero, thiefCount, run[..|run| - 1]);
      InvBounded(s);
      StepInv(s, act);
      StepIndexed(s, act);
    }
  }

  lemma InvBounded<T>(s: State<T>)
    requires Inv(s)
    ensures Bounded(s)
  {
  }

  /** In every interleaving the calls that took effect are a history of a sequential queue. */
  lemma HistoryIsSequential<T(!new)>(zero: T, thiefCount: nat, run: seq<State<T>>)
    requires IsRun(zero, thiefCount, run)
    ensures var s := Final(run);
      && InBounds(s) && 0 <= s.top <= End(s)
      && Replay(s.log) == Some(Resident(s))
  {
    RunInv(zero, thiefCount, run);
  }

  /**
   * In every interleaving, what was inserted is what Take and Steal handed out plus what
   * the queue still holds: nothing is lost or handed out twice, not even while the owner
   * has bottom below top or thieves read retired buffers.
   */
  lemma ExactlyOnce<T(!new)>(zero: T, thiefCount: nat, run: seq<State<T>>)
    requires IsRun(zero, thiefCount, run)
    ensures var s := Final(run);
      && InBounds(s) && 0 <= s.top <= End(s)
      && Insertions(s.log) == Claims(s.log) + multiset(Resident(s))
  {
    RunInv(zero, thiefCount, run);
    Conservation(Final(run).log);
  }

  /** A thief whose compare-exchange will succeed holds the element last inserted at its index. */
  lemma StealGetsItsIndex<T(!new)>(zero: T, thiefCount: nat, run: seq<State<T>>, k: nat)
    requires IsRun(zero, thiefCount, run)
    requires var s := Final(run);
      k < |s.thieves| && s.thieves[k].Read? && s.thieves[k].t == s.top
    ensures var s := Final(run);
      LastInsertedAt(s.log, s.thieves[k].t) == Some(s.thieves[k].val) && StealsInOrder(s.log)
  {
    RunInv(zero, thiefCount, run);
    var s := Final(run);
    assert ThiefInv(s, s.thieves[k]);
    assert LastInsertedAt(s.log, s.top) == Some(Resident(s)[0]);
  }

  /** A thief fails its compare-exchange only if another call got an element meanwhile. */
  lemma LosingMeansProgress<T(!new)>(zero: T, thiefCount: nat, run: seq<State<T>>, k: nat)
    requires IsRun(zero, thiefCount, run)
    requires var s := Final(run);
      k < |s.thieves| && s.thieves[k].Read? && s.thieves[k].t != s.top
    ensures var s := Final(run);
      ClaimedSince(s.log, s.thieves[k].since)
  {
    RunInv(zero, thiefCount, run);
    var s := Final(run);
    assert ThiefInv(s, s.thieves[k]);
  }

  /** The owner is in a Take that lowered bottom to index `i` and has not settled it yet. */
  ghost predicate TakingAt<T>(s: State<T>, i: int) {
    (s.owner.TakeLowered? || s.owner.TakeSeen? || s.owner.TakeRead?) && s.owner.b == i
  }

  /** A thief reports "empty" only when at most the element a running Take is after is left. */
  lemma EmptyMeansEmpty<T(!new)>(zero: T, thiefCount: nat, run: seq<State<T>>, k: nat)
    requires IsRun(zero, thiefCount, run)
    requires var s := Final(run);
      k < |s.thieves| && s.thieves[k].SawTop? && s.thieves[k].t >= s.bottom
    ensures var s := Final(run);
      Core(s) && (Resident(s) == [] || (|Resident(s)| == 1 && TakingAt(s, s.top)))
  {
    RunInv(zero, thiefCount, run);
    var s := Final(run);
    assert ThiefInv(s, s.thieves[k]);
  }

  /**
   * How a Steal ends, in every interleaving: it gets the element at the front, or it gets
   * nothing because there is none, or only the one a running Take is after, or because
   * another call got an element since it began.
   */
  lemma StealOutcome<T(!new)>(zero: T, thiefCount: nat, run: seq<State<T>>, k: nat)
    requires IsRun(zero, thiefCount, run)
    requires var s := Final(run); k < |s.thieves| && !s.thieves[k].Away?
    ensures var s := Final(run); Bounded(s) && 0 <= s.top <= End(s)
    ensures var s := Final(run); var s' := Step(s, ThiefStep(k));
      k < |s'.thieves| && s'.thieves[k].Away? ==>
        || (Resident(s) != [] && s'.log == s.log + [Stolen(Resident(s)[0], s.top)])
        || (s'.log == s.log && (
          || Resident(s) == []
          || (|Resident(s)| == 1 && TakingAt(s, s.top))
          || ClaimedSince(s.log, s.thieves[k].since)))
  {
    RunInv(zero, thiefCount, run);
    var s := Final(run);
    InvBounded(s);
    hide Cell, Put, Resident;
    assert ThiefInv(s, s.thieves[k]);
  }

  /** Inside Take, with the answer still open. */
  ghost predicate TakeOpen<T>(owner: Owner<T>) {
    owner.TakeBegun? || owner.TakeLowered? || owner.TakeSeen? || owner.TakeRead?
  }

  /**
   * How a Take ends, in every interleaving: the step that settles it gets the element at the
   * back, or nothing from a queue that is empty by then.
   */
  lemma TakeOutcome<T(!new)>(zero: T, thiefCount: nat, run: seq<State<T>>)
    requires IsRun(zero, thiefCount, run) && TakeOpen(Final(run).owner)
    ensures var s := Final(run); Bounded(s) && 0 <= s.top <= End(s)
    ensures var s := Final(run); var s' := Step(s, OwnerStep); var q := Resident(s);
      !TakeOpen(s'.owner) ==> s'.log == s.log + [if q == [] then TookNothing else Taken(q[|q| - 1])]
  {
    RunInv(zero, thiefCount, run);
    var s := Final(run);
    InvBounded(s);
    StepInv(s, OwnerStep);
    hide Cell, Put, OwnerInv, ThiefInv;
    var s' := OwnerNext(s);
    if !TakeOpen(s'.owner) {
      var e := s'.log[|s.log|];
      ReplayAppend(s.log, e);
    }
  }

  // ---- Calls that run alone ----

  /** So many steps of the owner, or of thief `k`, and of nobody else. */
  ghost function OwnerSteps<T>(s: State<T>, n: nat): (s': State<T>)
    requires Inv(s)
    ensures Inv(s')
    decreases n
  {
    if n == 0 then s
    else
      OwnerNextInv(s);
      OwnerSteps(OwnerNext(s), n - 1)
  }

  ghost function ThiefSteps<T>(s: State<T>, k: nat, n: nat): (s': State<T>)
    requires Inv(s) && k < |s.thieves|
    ensures Inv(s') && |s'.thieves| == |s.thieves|
    decreases n
  {
    if n == 0 then s
    else
      ThiefNextInv(s, k);
      ThiefSteps(ThiefNext(s, k), k, n - 1)
  }

  ghost predicate AtRest<T>(s: State<T>) {
    Inv(s) && s.owner.Resting?
  }

  /** The history determines the queue. */
  lemma QueueKept<T>(s: State<T>, s': State<T>)
    requires Inv(s) && Inv(s') && s'.log == s.log
    ensures Resident(s') == Resident(s)
  {
    hide Resident, Replay, OwnerInv, ThiefInv;
  }

  lemma QueueBecomes<T>(s: State<T>, s': State<T>, e: Event<T>)
    requires Inv(s) && Inv(s') && s'.log == s.log + [e]
    ensures Apply(Resident(s), e) == Some(Resident(s'))
  {
    hide Inv;
    ResidentApplied(s, s', e);
  }

  /** A Steal by itself gets the front, and nothing from an empty queue. */
  lemma StealAlone<T>(s: State<T>, k: nat)
    requires AtRest(s) && k < |s.thieves| && s.thieves[k].Away?
    ensures Inv(Step(s, BeginSteal(k)))
    ensures var s' := ThiefSteps(Step(s, BeginSteal(k)), k, 4);
      && s'.thieves[k].Away? && s'.owner == s.owner
      && s'.log == (if Resident(s) == [] then s.log else s.log + [Stolen(Resident(s)[0], s.top)])
      && Resident(s') == (if Resident(s) == [] then [] else Resident(s)[1..])
  {
    hide Resident, Put, Cell, ThiefSteps, OwnerInv, Replay, ThiefInv;
    InvBounded(s);
    StepInv(s, BeginSteal(k));
    var s0 := Step(s, BeginSteal(k));
    var s4 := ThiefSteps(s0, k, 4);
    if Resident(s) == [] {
      StealNone(s, s0, k);
      QueueKept(s, s4);
    } else {
      StealSome(s, s0, k);
      QueueBecomes(s, s4, Stolen(Resident(s)[0], s.top));
    }
  }

  lemma StealSome<T>(s: State<T>, s0: State<T>, k: nat)
    requires AtRest(s) && Inv(s0) && k < |s.thieves| && Resident(s) != []
    requires s0 == s.(thieves := s.thieves[k := SawTop(s.top, |s.log|)])
    ensures var s' := ThiefSteps(s0, k, 4);
      && s'.thieves[k].Away? && s'.owner == s.owner
      && s'.log == s.log + [Stolen(Resident(s)[0], s.top)]
  {
    InvBounded(s);
    assert s.top < s.bottom && Cell(Active(s), s.top) == Resident(s)[0];
    hide Inv, Cell, Resident, ThiefSteps;
    StealSteps(s0, k);
  }

  /** The thief's state alone. */
  ghost function Place<T>(s: State<T>, k: nat, thief: Thief<T>): State<T>
    requires k < |s.thieves|
  {
    s.(thieves := s.thieves[k := thief])
  }

  lemma ThiefLooks<T>(s: State<T>, k: nat, thief: Thief<T>)
    requires InBounds(s) && k < |s.thieves| && thief.SawTop? && thief.t < s.bottom
    ensures ThiefNext(Place(s, k, thief), k) == Place(s, k, SawBottom(thief.t, thief.since))
  {
    assert s.thieves[k := thief][k := SawBottom(thief.t, thief.since)] == s.thieves[k := SawBottom(thief.t, thief.since)];
  }

  lemma ThiefLoads<T>(s: State<T>, k: nat, t: int, since: nat)
    requires InBounds(s) && k < |s.thieves|
    ensures ThiefNext(Place(s, k, SawBottom(t, since)), k) == Place(s, k, SawData(t, s.data, since))
    ensures ThiefNext(Place(s, k, SawData(t, s.data, since)), k) == Place(s, k, Read(t, Cell(Active(s), t), since))
  {
    hide Cell;
    assert s.thieves[k := SawBottom(t, since)][k := SawData(t, s.data, since)] == s.thieves[k := SawData(t, s.data, since)];
    assert s.thieves[k := SawData(t, s.data, since)][k := Read(t, Cell(Active(s), t), since)] == s.thieves[k := Read(t, Cell(Active(s), t), since)];
  }

  lemma ThiefWins<T>(s: State<T>, k: nat, val: T, since: nat)
    requires InBounds(s) && k < |s.thieves|
    ensures ThiefNext(Place(s, k, Read(s.top, val, since)), k) ==
      Place(s, k, Away).(top := s.top + 1, log := s.log + [Stolen(val, s.top)])
  {
    assert s.thieves[k := Read(s.top, val, since)][k := Away] == s.thieves[k := Away];
  }

  lemma StealSteps<T>(s: State<T>, k: nat)
    requires Inv(s) && Bounded(s) && k < |s.thieves| && s.thieves[k].SawTop? && s.thieves[k].t == s.top < s.bottom
    ensures ThiefSteps(s, k, 4) == Place(s, k, Away).(top := s.top + 1, log := s.log + [Stolen(Cell(Active(s), s.top), s.top)])
  {
    hide Put, Cell, Inv, ThiefSteps, ThiefNext;
    var SawTop(t, since) := s.thieves[k];
    assert Place(s, k, s.thieves[k]) == s;
    ThiefStepsOn(s, k, 0);
    ThiefLooks(s, k, s.thieves[k]);
    ThiefStepsOn(s, k, 1);
    ThiefLoads(s, k, t, since);
    ThiefStepsOn(s, k, 2);
    ThiefStepsOn(s, k, 3);
    ThiefWins(s, k, Cell(Active(s), t), since);
  }

  lemma StealNone<T>(s: State<T>, s0: State<T>, k: nat)
    requires AtRest(s) && Inv(s0) && k < |s.thieves| && Resident(s) == []
    requires s0 == s.(thieves := s.thieves[k := SawTop(s.top, |s.log|)])
    ensures ThiefSteps(s0, k, 4) == s0.(thieves := s0.thieves[k := Away])
  {
    ThiefStepsOn(s0, k, 0);
    ThiefStepsOn(s0, k, 1);
    ThiefStepsOn(s0, k, 2);
    ThiefStepsOn(s0, k, 3);
    hide Put, Cell, OwnerInv, ThiefInv, Replay, ThiefSteps;
    assert ThiefSteps(s0, k, 1) == s0.(thieves := s0.thieves[k := Away]);
  }

  lemma SameThieves<T>(s: State<T>, k: nat)
    requires Bounded(s) && k < |s.thieves|
    ensures |ThiefNext(s, k).thieves| == |s.thieves|
  {
  }

  lemma {:induction false} ThiefStepsOn<T>(s: State<T>, k: nat, n: nat)
    requires Inv(s) && k < |s.thieves|
    ensures ThiefSteps(s, k, 0) == s && Bounded(ThiefSteps(s, k, n)) && k < |ThiefSteps(s, k, n).thieves|
    ensures ThiefSteps(s, k, n + 1) == ThiefNext(ThiefSteps(s, k, n), k)
    decreases n
  {
    hide Inv, ThiefNext;
    ThiefNextInv(s, k);
    InvBounded(s);
    SameThieves(s, k);
    if n == 0 {
      assert ThiefSteps(ThiefNext(s, k), k, 0) == ThiefNext(s, k);
    } else {
      ThiefStepsOn(ThiefNext(s, k), k, n - 1);
      assert ThiefSteps(s, k, n) == ThiefSteps(ThiefNext(s, k), k, n - 1);
      assert ThiefSteps(s, k, n + 1) == ThiefSteps(ThiefNext(s, k), k, n);
    }
  }

  /** How many steps of its own a call still takes, at most. */
  ghost function OwnerLeft<T>(s: State<T>): nat
    requires Inv(s)
  {
    match s.owner
    case Resting => 0
    case TakeBegun(_, _) => 5
    case TakeLowered(_, _) => 4
    case TakeSeen(_, _, _) => 3
    case TakeRead(_, _, _) => 2
    case TakeRestoring(_) => 1
    case InsertBegun(_, _) => 6 + (s.bottom - s.top)
    case InsertSeen(_, _, _) => 5 + (s.bottom - s.top)
    case GrowBegun(_, _, _) => 4 + (s.bottom - s.top)
    case GrowCopying(_, _, _, _, i) => 3 + (s.bottom - i)
    case InsertReady(_, _) => 2
    case InsertWritten(_, _) => 1
  }

  ghost function ThiefLeft<T>(th: Thief<T>): nat {
    match th
    case Away => 0
    case SawTop(_, _) => 4
    case SawBottom(_, _) => 3
    case SawData(_, _, _) => 2
    case Read(_, _, _) => 1
  }

  lemma OwnerNearer<T>(s: State<T>)
    requires Inv(s) && !s.owner.Resting?
    ensures Inv(OwnerNext(s)) && OwnerLeft(OwnerNext(s)) < OwnerLeft(s)
  {
    hide Cell, Put, Resident, ThiefInv, Replay;
    OwnerNextInv(s);
  }

  lemma OthersDoNotDelay<T>(s: State<T>, s': State<T>)
    requires Inv(s) && Inv(s') && s'.owner == s.owner && s'.bottom == s.bottom && s.top <= s'.top
    ensures OwnerLeft(s') <= OwnerLeft(s)
  {
    hide Cell, Put, Resident, ThiefInv, Replay;
  }

  lemma ThiefStepKeeps<T>(s: State<T>, act: Action<T>)
    requires Bounded(s) && (act.BeginSteal? || act.ThiefStep?)
    ensures var s' := Step(s, act); s'.owner == s.owner && s'.bottom == s.bottom && s.top <= s'.top
  {
    hide Cell;
  }

  lemma ThiefNearer<T>(s: State<T>, act: Action<T>, k: nat)
    requires Bounded(s) && k < |s.thieves| && !s.thieves[k].Away?
    ensures k < |Step(s, act).thieves|
    ensures act == ThiefStep(k) ==> ThiefLeft(Step(s, act).thieves[k]) < ThiefLeft(s.thieves[k])
    ensures act != ThiefStep(k) ==> Step(s, act).thieves[k] == s.thieves[k]
  {
    hide Cell, Put;
  }

  /** Nobody waits for anybody: every step of a call brings it nearer its end, whatever others do meanwhile. */
  lemma CallsEnd<T>(s: State<T>, act: Action<T>)
    requires Inv(s)
    ensures Bounded(s) && Inv(Step(s, act))
    ensures !s.owner.Resting? ==>
      if act.OwnerStep? then OwnerLeft(Step(s, act)) < OwnerLeft(s) else OwnerLeft(Step(s, act)) <= OwnerLeft(s)
    ensures forall k: nat | k < |s.thieves| && !s.thieves[k].Away? ::
      && k < |Step(s, act).thieves|
      && var th := Step(s, act).thieves[k];
         if act == ThiefStep(k) then ThiefLeft(th) < ThiefLeft(s.thieves[k]) else th == s.thieves[k]
  {
    InvBounded(s);
    StepInv(s, act);
    hide Inv, OwnerNext, ThiefNext, OwnerLeft, ThiefLeft, Bounded;
    forall k: nat | k < |s.thieves| && !s.thieves[k].Away?
      ensures k < |Step(s, act).thieves|
      ensures var th := Step(s, act).thieves[k];
        if act == ThiefStep(k) then ThiefLeft(th) < ThiefLeft(s.thieves[k]) else th == s.thieves[k]
    {
      ThiefNearer(s, act, k);
    }
    if !s.owner.Resting? {
      match act
      case OwnerStep => OwnerNearer(s);
      case BeginSteal(_) => ThiefStepKeeps(s, act); OthersDoNotDelay(s, Step(s, act));
      case ThiefStep(_) => ThiefStepKeeps(s, act); OthersDoNotDelay(s, Step(s, act));
      case _ =>
    }
  }

  lemma FiveOwnerSteps<T>(s: State<T>)
    requires Inv(s)
    ensures Inv(OwnerNext(s)) && Inv(OwnerNext(OwnerNext(s))) && Inv(OwnerNext(OwnerNext(OwnerNext(s))))
    ensures Inv(OwnerNext(OwnerNext(OwnerNext(OwnerNext(s)))))
    ensures OwnerSteps(s, 5) == OwnerNext(OwnerNext(OwnerNext(OwnerNext(OwnerNext(s)))))
  {
    var s1 := OwnerNext(s);
    OwnerNextInv(s);
    var s2 := OwnerNext(s1);
    OwnerNextInv(s1);
    var s3 := OwnerNext(s2);
    OwnerNextInv(s2);
    var s4 := OwnerNext(s3);
    OwnerNextInv(s3);
    OwnerNextInv(s4);
    hide Inv, OwnerNext;
    assert OwnerSteps(s4, 1) == OwnerNext(s4);
    assert OwnerSteps(s3, 2) == OwnerSteps(s4, 1);
    assert OwnerSteps(s2, 3) == OwnerSteps(s3, 2);
    assert OwnerSteps(s1, 4) == OwnerSteps(s2, 3);
  }

  lemma TakeSome<T>(s: State<T>, s0: State<T>)
    requires AtRest(s) && Inv(s0) && s0 == s.(owner := TakeBegun(s.bottom - 1, s.data)) && Resident(s) != []
    ensures var s' := OwnerNext(OwnerNext(OwnerNext(OwnerNext(OwnerNext(s0))))); var q := Resident(s);
      && s'.owner.Resting? && s'.thieves == s.thieves && s'.log == s.log + [Taken(q[|q| - 1])]
  {
    hide Put, Cell, OwnerInv, ThiefInv, Replay;
    var b, val := s.bottom - 1, Cell(Active(s), s.bottom - 1);
    var s1 := s.(bottom := b, owner := TakeLowered(b, s.data));
    var s2 := s1.(owner := TakeSeen(b, s.data, s.top));
    var s3 := s2.(owner := TakeRead(b, s.top, val));
    assert OwnerNext(s0) == s1 && OwnerNext(s1) == s2 && OwnerNext(s2) == s3;
    var q := Resident(s);
    assert val == q[|q| - 1];
  }

  lemma TakeNone<T>(s: State<T>, s0: State<T>)
    requires AtRest(s) && Inv(s0) && s0 == s.(owner := TakeBegun(s.bottom - 1, s.data)) && Resident(s) == []
    ensures var s' := OwnerNext(OwnerNext(OwnerNext(OwnerNext(OwnerNext(s0)))));
      && s'.owner.Resting? && s'.thieves == s.thieves && s'.log == s.log + [TookNothing]
  {
    hide Put, Cell, ThiefInv, Replay;
    FiveOwnerSteps(s0);
  }

  /** A Take by itself gets the back, and nothing from an empty queue. */
  lemma TakeAlone<T>(s: State<T>)
    requires AtRest(s)
    ensures Bounded(s) && Inv(Step(s, BeginTake))
    ensures var s' := OwnerSteps(Step(s, BeginTake), 5); var q := Resident(s);
      && s'.owner.Resting? && s'.thieves == s.thieves
      && s'.log == s.log + [if q == [] then TookNothing else Taken(q[|q| - 1])]
      && Resident(s') == (if q == [] then [] else q[..|q| - 1])
  {
    hide Resident, OwnerSteps, OwnerNext, Replay, OwnerInv, ThiefInv;
    InvBounded(s);
    StepInv(s, BeginTake);
    var q := Resident(s);
    var s0 := Step(s, BeginTake);
    FiveOwnerSteps(s0);
    if q == [] { TakeNone(s, s0); } else { TakeSome(s, s0); }
    QueueBecomes(s, OwnerSteps(s0, 5), if q == [] then TookNothing else Taken(q[|q| - 1]));
  }

  // ---- An Insert by itself ----

  /** In the middle of inserting `val`. */
  ghost predicate Inserting<T>(s: State<T>, val: T) {
    match s.owner
    case InsertBegun(v, _) => v == val
    case InsertSeen(v, _, _) => v == val
    case GrowBegun(v, _, _) => v == val
    case GrowCopying(v, _, _, _, _) => v == val
    case InsertReady(v, _) => v == val
    case InsertWritten(v, _) => v == val
    case _ => false
  }

  /** The element is at the back and the call is over. */
  ghost predicate Appended<T>(s: State<T>, s': State<T>, val: T)
    requires Inv(s) && Inv(s')
  {
    && s'.owner.Resting? && s'.thieves == s.thieves && s'.top == s.top
    && s'.log == s.log + [Inserted(val, s.bottom)] && Resident(s') == Resident(s) + [val]
  }

  lemma {:induction false} InsertGoesOn<T>(s: State<T>, val: T)
    requires Inv(s) && Inserting(s, val)
    ensures exists n: nat :: Appended(s, OwnerSteps(s, n), val)
    decreases OwnerLeft(s)
  {
    hide Resident, Put, Cell, ThiefInv, Replay;
    OwnerNextInv(s);
    var s1 := OwnerNext(s);
    if s.owner.InsertWritten? {
      ResidentApplied(s, s1, Inserted(val, s.bottom));
      assert OwnerSteps(s, 1) == OwnerSteps(s1, 0) == s1;
      assert Appended(s, OwnerSteps(s, 1), val);
    } else {
      OwnerNearer(s);
      InsertGoesOn(s1, val);
      var n: nat :| Appended(s1, OwnerSteps(s1, n), val);
      QueueKept(s, s1);
      assert OwnerSteps(s, n + 1) == OwnerSteps(s1, n);
      assert Appended(s, OwnerSteps(s, n + 1), val);
    }
  }

  /** An Insert by itself appends; the buffer is doubled exactly if it was full. */
  lemma InsertAlone<T>(s: State<T>, val: T)
    requires AtRest(s)
    ensures Bounded(s) && Inv(Step(s, BeginInsert(val)))
    ensures exists n: nat :: Appended(s, OwnerSteps(Step(s, BeginInsert(val)), n), val)
    ensures var s2 := OwnerSteps(Step(s, BeginInsert(val)), 2);
      s2.owner.InsertReady? <==> |Resident(s)| < |Active(s)|
  {
    InvBounded(s);
    StepInv(s, BeginInsert(val));
    var s0 := Step(s, BeginInsert(val));
    InsertGoesOn(s0, val);
    hide Resident, Put, Cell, ThiefInv, Replay, OwnerSteps;
    QueueKept(s, s0);
    TwoOwnerSteps(s0);
  }

  lemma TwoOwnerSteps<T>(s: State<T>)
    requires Inv(s)
    ensures Inv(OwnerNext(s)) && OwnerSteps(s, 2) == OwnerNext(OwnerNext(s))
  {
    OwnerNextInv(s);
    OwnerNextInv(OwnerNext(s));
    hide Inv, OwnerNext;
    assert OwnerSteps(OwnerNext(s), 1) == OwnerNext(OwnerNext(s));
  }
}
