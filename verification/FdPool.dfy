/**
 * The descriptor pool and the Fd objects that lease from it, as any number of threads run
 * them: each atomic operation on the packed word or on the ceiling, each open, close and
 * each move of an Fd is one step. An Fd is used by one thread at a time.
 */
module FdPool {
  import opened Common

  const WORD := 0x1_0000_0000_0000_0000

  // ---- The packed word ----

  function Unpack(bits: int): Leases {
    Leases(bits % EPOCHS, bits / EPOCHS)
  }

  /** fetch_add of 1, fetch_add of 2^32 - 1 and fetch_sub of 1 on 64 bits. */
  function AcquireBits(bits: int): int { (bits + 1) % WORD }

  function ReleaseBits(bits: int): int { (bits + (EPOCHS - 1)) % WORD }

  function ForgetBits(bits: int): int { (bits - 1) % WORD }

  /** The word that says `live` leases and `closes` closed descriptors. */
  function Packed(live: int, closes: int): int {
    closes % EPOCHS * EPOCHS + live
  }

  lemma UnpackPacked(live: int, closes: int)
    requires 0 <= live < EPOCHS
    ensures Unpack(Packed(live, closes)) == Leases(live, closes % EPOCHS)
    ensures 0 <= Packed(live, closes) < WORD
  {
  }

  /** No operation carries or borrows between the halves, at any epoch, the last one included. */
  lemma NoCarry(live: int, closes: int)
    requires 0 <= live < EPOCHS
    ensures live + 1 < EPOCHS ==> AcquireBits(Packed(live, closes)) == Packed(live + 1, closes)
    ensures live >= 1 ==> ReleaseBits(Packed(live, closes)) == Packed(live - 1, closes + 1)
    ensures live >= 1 ==> ForgetBits(Packed(live, closes)) == Packed(live - 1, closes)
  {
    var epoch := closes % EPOCHS;
    assert (closes + 1) % EPOCHS == if epoch == EPOCHS - 1 then 0 else epoch + 1;
  }

  // ---- The machine ----

  /** An open Fd: the number, and which of all the opens so far returned it. */
  datatype Fd = Fd(descriptor: int, opening: nat)

  type Object = nat

  /**
   * Where a thread is. `since` is the number of closes when the reservation was made;
   * `before` is what the reservation remembers.
   */
  datatype Pc =
    | Idle
    | Raising(before: Leases, since: nat)
    | Raised(before: Leases, since: nat)
    | Opening(before: Leases, since: nat)
    | Dropping
    | Refused(before: Leases, since: nat)
    | Noting(before: Leases, since: nat)
    | Swapping(before: Leases, since: nat, expected: int)
    | Judging(before: Leases, since: nat)
    | Closing(obj: Object)

  /**
   * `fds` are the Fd objects that hold a descriptor, `kernel` the numbers in use and for
   * which open. Histories: opens so far, closes so far, the openings that ended in order,
   * raises of the limit, and the counts noted as too many since the last raise.
   */
  datatype State = State(
    bits: int,
    ceiling: int,
    raiseAttempted: bool,
    threads: seq<Pc>,
    fds: map<Object, Fd>,
    kernel: map<int, nat>,
    openings: nat,
    closes: nat,
    ended: seq<nat>,
    raises: nat,
    noted: set<int>)

  datatype Action =
    | Reserve
    | RaiseIfNeeded(capacity: nat, raised: bool)
    | ResetCeiling
    | Opened(obj: Object, descriptor: int)
    | OutOfDescriptors
    | OtherError
    | Forget
    | LoadCeiling
    | CompareExchange(spurious: bool)
    | Judge
    | CloseNumber(obj: Object)
    | ReturnLease
    | HandOff(obj: Object)
    | Move(to: Object, from: Object)

  function Initial(threads: nat): State {
    State(0, 0, false, seq(threads, _ => Idle), map[], map[], 0, 0, [], 0, {})
  }

  /** Whether the thread's reservation is armed. */
  predicate Armed(pc: Pc) {
    pc.Raising? || pc.Raised? || pc.Opening? || pc.Dropping? || pc.Refused?
  }

  ghost function ArmedThreads(s: State): set<nat> {
    set t: nat | t < |s.threads| && Armed(s.threads[t])
  }

  /** Open Fds and outstanding reservations. */
  ghost function Live(s: State): nat {
    |s.fds| + |ArmedThreads(s)|
  }

  ghost predicate BeingClosed(s: State, obj: Object) {
    exists t: nat | t < |s.threads| :: s.threads[t] == Closing(obj)
  }

  ghost function At(s: State, t: nat, pc: Pc): State
    requires t < |s.threads|
  {
    s.(threads := s.threads[t := pc])
  }

  /** Refused's loop guard: the ceiling is to come down to what was held. */
  predicate Lowers(held: int, ceiling: int) {
    ceiling == 0 || held < ceiling
  }

  /** One look at the ceiling: swap it next, or it is low enough. */
  ghost function Looked(s: State, t: nat, before: Leases, since: nat): State
    requires t < |s.threads|
  {
    if Lowers(before.live, s.ceiling) then At(s, t, Swapping(before, since, s.ceiling))
    else At(s, t, Judging(before, since)).(noted := s.noted + {before.live})
  }

  /** The steps in which a descriptor comes, goes or changes hands. */
  predicate MovesDescriptor(act: Action) {
    act.Opened? || act.CloseNumber? || act.ReturnLease? || act.HandOff? || act.Move?
  }

  ghost function DescriptorStep(s: State, t: nat, act: Action): State
    requires t < |s.threads|
  {
    match (s.threads[t], act)
    case (Opening(_, _), Opened(obj, descriptor)) =>
      if obj in s.fds || descriptor < 0 || descriptor in s.kernel then s
      else At(s, t, Idle).(
        fds := s.fds[obj := Fd(descriptor, s.openings)],
        kernel := s.kernel[descriptor := s.openings],
        openings := s.openings + 1)
    case (Idle, CloseNumber(obj)) =>
      if obj !in s.fds || BeingClosed(s, obj) then s
      else At(s, t, Closing(obj)).(
        kernel := s.kernel - {s.fds[obj].descriptor},
        ended := s.ended + [s.fds[obj].opening])
    case (Closing(obj), ReturnLease) =>
      At(s, t, Idle).(bits := ReleaseBits(s.bits), fds := s.fds - {obj}, closes := s.closes + 1)
    case (Idle, HandOff(obj)) =>
      if obj !in s.fds || BeingClosed(s, obj) then s
      else s.(bits := ForgetBits(s.bits), fds := s.fds - {obj}, ended := s.ended + [s.fds[obj].opening])
    case (Idle, Move(to, from)) =>
      if from !in s.fds || to in s.fds || BeingClosed(s, from) then s
      else s.(fds := (s.fds - {from})[to := s.fds[from]])
    case _ => s
  }

  ghost function ReservationStep(s: State, t: nat, act: Action): State
    requires t < |s.threads|
  {
    match (s.threads[t], act)
    case (Idle, Reserve) =>
      if Live(s) + 1 >= EPOCHS then s
      else At(s, t, Raising(Unpack(s.bits), s.closes)).(bits := AcquireBits(s.bits))
    case (Raising(before, since), RaiseIfNeeded(capacity, raised)) =>
      if capacity == 0 || (before.live + 1) * 100 < capacity * 50 || s.raiseAttempted then At(s, t, Opening(before, since))
      else At(s, t, if raised then Raised(before, since) else Opening(before, since)).(raiseAttempted := true, raises := s.raises + 1)
    case (Raised(before, since), ResetCeiling) => At(s, t, Opening(before, since)).(ceiling := 0, noted := {})
    case (Opening(before, since), OutOfDescriptors) => At(s, t, Refused(before, since))
    case (Opening(_, _), OtherError) => At(s, t, Dropping)
    case (Dropping, Forget) => At(s, t, Idle).(bits := ForgetBits(s.bits))
    case (Refused(before, since), Forget) =>
      At(s, t, if before.live != 0 then Noting(before, since) else Judging(before, since)).(bits := ForgetBits(s.bits))
    case (Noting(before, since), LoadCeiling) => Looked(s, t, before, since)
    case (Swapping(before, since, expected), CompareExchange(spurious)) =>
      if spurious || s.ceiling != expected then Looked(s, t, before, since)
      else At(s, t, Judging(before, since)).(ceiling := before.live, noted := s.noted + {before.live})
    case (Judging(_, _), Judge) => At(s, t, Idle)
    case _ => s
  }

  /** A step of thread `t`; an action that does not apply where the thread is changes nothing. */
  ghost function Step(s: State, t: nat, act: Action): State
    requires t < |s.threads|
  {
    if MovesDescriptor(act) then DescriptorStep(s, t, act) else ReservationStep(s, t, act)
  }

  ghost predicate Follows(s: State, s': State) {
    exists t: nat, act :: t < |s.threads| && s' == Step(s, t, act)
  }

  /** The states of any interleaving of so many threads. */
  ghost predicate IsRun(threads: nat, run: seq<State>) {
    && run != [] && run[0] == Initial(threads)
    && forall i | 0 <= i < |run| - 1 :: Follows(run[i], run[i + 1])
  }

  // ---- What always holds ----

  /** The word decodes to what is leased and how many descriptors have been closed. */
  ghost predicate Counted(s: State) {
    s.bits == Packed(Live(s), s.closes) && Live(s) < EPOCHS
  }

  /** Every open that succeeded has one owner until it ends, and it ends once. */
  ghost predicate Owned(s: State) {
    && (forall o | o in s.fds :: s.fds[o].opening < s.openings)
    && (forall o, o' | o in s.fds && o' in s.fds && o != o' :: s.fds[o].opening != s.fds[o'].opening)
    && (forall o | o in s.fds :: s.fds[o].opening in s.ended <==> BeingClosed(s, o))
    && (forall k | 0 <= k < s.openings && k !in s.ended :: exists o :: o in s.fds && s.fds[o].opening == k)
    && (forall k | k in s.ended :: k < s.openings)
    && (forall i, j | 0 <= i < j < |s.ended| :: s.ended[i] != s.ended[j])
  }

  /** A number an Fd holds is still its own: nobody closed it and had it reused. */
  ghost predicate OwnNumbers(s: State) {
    && (forall d | d in s.kernel :: s.kernel[d] < s.openings)
    && (forall o | o in s.fds && !BeingClosed(s, o) ::
          s.fds[o].descriptor in s.kernel && s.kernel[s.fds[o].descriptor] == s.fds[o].opening)
  }

  ghost predicate ClosersOk(s: State) {
    && (forall t: nat | t < |s.threads| && s.threads[t].Closing? :: s.threads[t].obj in s.fds)
    && (forall t: nat, u: nat | t < |s.threads| && u < |s.threads| && t != u && s.threads[t].Closing? ::
          s.threads[u] != s.threads[t])
  }

  /** A reservation remembers the epoch it was made in. */
  ghost predicate PcOk(s: State, pc: Pc) {
    match pc
    case Idle => true
    case Dropping => true
    case Closing(_) => true
    case Noting(before, since) => before.epoch == since % EPOCHS && since <= s.closes && before.live > 0
    case Swapping(before, since, expected) =>
      before.epoch == since % EPOCHS && since <= s.closes && before.live > 0 && Lowers(before.live, expected)
    case _ => pc.before.epoch == pc.since % EPOCHS && pc.since <= s.closes && pc.before.live >= 0
  }

  ghost predicate Remembered(s: State) {
    forall t: nat | t < |s.threads| :: PcOk(s, s.threads[t])
  }

  /** The ceiling is the least count noted since the last raise, 0 if there is none. */
  ghost predicate CeilingOk(s: State) {
    && (forall held | held in s.noted :: held > 0 && s.ceiling <= held)
    && (if s.noted == {} then s.ceiling == 0 else s.ceiling in s.noted)
  }

  ghost predicate Inv(s: State) {
    && Counted(s) && Owned(s) && OwnNumbers(s) && ClosersOk(s) && Remembered(s) && CeilingOk(s)
    && s.raises == (if s.raiseAttempted then 1 else 0)
  }

  // ---- Steps that move no descriptor ----

  lemma QuietThread(s: State, t: nat, act: Action)
    requires t < |s.threads| && !MovesDescriptor(act) && Step(s, t, act) != s
    ensures !s.threads[t].Closing?
    ensures exists pc: Pc :: !pc.Closing? && Step(s, t, act).threads == s.threads[t := pc]
  {
    hide DescriptorStep, AcquireBits, ForgetBits, Live, Lowers, Unpack;
    var s' := Step(s, t, act);
    assert !s'.threads[t].Closing? && s'.threads == s.threads[t := s'.threads[t]];
  }

  /** Any other step leaves the Fds, the kernel and the histories alone. */
  lemma QuietStep(s: State, t: nat, act: Action)
    requires t < |s.threads| && !MovesDescriptor(act) && Step(s, t, act) != s
    ensures var s' := Step(s, t, act);
      && |s'.threads| == |s.threads| && s'.threads == s.threads[t := s'.threads[t]]
      && !s.threads[t].Closing? && !s'.threads[t].Closing?
      && s'.fds == s.fds && s'.kernel == s.kernel && s'.openings == s.openings
      && s'.closes == s.closes && s'.ended == s.ended
  {
    hide DescriptorStep, AcquireBits, ForgetBits, Live, Lowers, Unpack;
    QuietThread(s, t, act);
    QuietFields(s, t, act);
    hide Step;
  }

  lemma QuietFields(s: State, t: nat, act: Action)
    requires t < |s.threads| && !MovesDescriptor(act)
    ensures var s' := Step(s, t, act);
      && s'.fds == s.fds && s'.kernel == s.kernel && s'.openings == s.openings
      && s'.closes == s.closes && s'.ended == s.ended
  {
    hide DescriptorStep, AcquireBits, ForgetBits, Live, Lowers, Unpack;
  }

  /** And only a reservation or its end changes the word. */
  lemma WordKept(s: State, t: nat, act: Action)
    requires t < |s.threads| && !MovesDescriptor(act) && !act.Reserve? && !act.Forget? && Step(s, t, act) != s
    ensures Step(s, t, act).bits == s.bits && |Step(s, t, act).threads| == |s.threads|
    ensures Armed(Step(s, t, act).threads[t]) == Armed(s.threads[t])
  {
    hide DescriptorStep, Live, Lowers, Unpack;
  }

  // ---- The count ----

  function One(b: bool): int {
    if b then 1 else 0
  }

  lemma ArmedChange(s: State, s': State, t: nat)
    requires t < |s.threads| == |s'.threads| && s'.threads == s.threads[t := s'.threads[t]]
    ensures |ArmedThreads(s')| == |ArmedThreads(s)| - One(Armed(s.threads[t])) + One(Armed(s'.threads[t]))
  {
    var rest := ArmedThreads(s) - {t};
    assert ArmedThreads(s) == if Armed(s.threads[t]) then rest + {t} else rest;
    assert ArmedThreads(s') == if Armed(s'.threads[t]) then rest + {t} else rest;
  }

  lemma MapSizes(fds: map<Object, Fd>, o: Object, f: Fd)
    ensures o !in fds ==> |fds[o := f]| == |fds| + 1
    ensures o in fds ==> |fds - {o}| == |fds| - 1
  {
    assert fds[o := f].Keys == fds.Keys + {o};
    assert |fds.Keys| == |fds| && |fds[o := f].Keys| == |fds[o := f]|;
    assert (fds - {o}).Keys == fds.Keys - {o};
    assert |(fds - {o}).Keys| == |fds - {o}|;
  }

  /** Whoever opens or holds a descriptor is counted. */
  lemma LeaseCounted(s: State, t: nat)
    requires t < |s.threads|
    ensures Armed(s.threads[t]) || s.fds != map[] ==> Live(s) >= 1
  {
    assert Armed(s.threads[t]) ==> t in ArmedThreads(s);
    assert s.fds != map[] ==> |s.fds.Keys| >= 1;
  }

  lemma CountedMoved(s: State, s': State, t: nat)
    requires Counted(s) && t < |s.threads| == |s'.threads| && s'.threads == s.threads[t := s'.threads[t]]
    requires s'.bits == s.bits && s'.closes == s.closes
    requires |s'.fds| + One(Armed(s'.threads[t])) == |s.fds| + One(Armed(s.threads[t]))
    ensures Counted(s')
  {
    ArmedChange(s, s', t);
    hide ArmedThreads;
  }

  lemma CountedChanged(s: State, s': State, t: nat, delta: int, closed: nat)
    requires Counted(s) && t < |s.threads| == |s'.threads| && s'.threads == s.threads[t := s'.threads[t]]
    requires |s'.fds| + One(Armed(s'.threads[t])) == |s.fds| + One(Armed(s.threads[t])) + delta
    requires s'.bits == Packed(Live(s) + delta, s'.closes) && s'.closes == s.closes + closed
    requires Live(s) + delta < EPOCHS
    ensures Counted(s')
  {
    ArmedChange(s, s', t);
    hide ArmedThreads, Packed;
  }

  lemma WordCounted(s: State, t: nat, act: Action)
    requires Counted(s) && t < |s.threads|
    requires act.Reserve? || act.Forget?
    ensures Counted(Step(s, t, act))
  {
    hide DescriptorStep, Packed, AcquireBits, ReleaseBits, ForgetBits, Counted, Live, BeingClosed, Lowers, Unpack;
    LeaseCounted(s, t);
    LiveNat(s);
    NoCarry(Live(s), s.closes);
    var s', pc := Step(s, t, act), s.threads[t];
    if pc.Idle? && act.Reserve? {
      if s' != s { CountedChanged(s, s', t, 1, 0); }
    } else if (pc.Dropping? || pc.Refused?) && act.Forget? {
      CountedChanged(s, s', t, -1, 0);
    }
  }

  lemma OpenedCounted(s: State, t: nat, act: Action)
    requires Counted(s) && t < |s.threads| && act.Opened? && Step(s, t, act) != s
    ensures Counted(Step(s, t, act))
  {
    hide ReservationStep, Packed, AcquireBits, ReleaseBits, ForgetBits, Counted, Live, BeingClosed, Lowers, Unpack;
    var s' := Step(s, t, act);
    MapSizes(s.fds, act.obj, s'.fds[act.obj]);
    CountedMoved(s, s', t);
  }

  lemma ReturnedCounted(s: State, t: nat, act: Action)
    requires Counted(s) && ClosersOk(s) && t < |s.threads| && act.ReturnLease? && Step(s, t, act) != s
    ensures Counted(Step(s, t, act))
  {
    hide ReservationStep, Packed, AcquireBits, ReleaseBits, ForgetBits, Counted, ClosersOk, Live, BeingClosed, Lowers, Unpack;
    LeaseCounted(s, t);
    LiveNat(s);
    NoCarry(Live(s), s.closes);
    ClosesOpen(s, t);
    MapSizes(s.fds, s.threads[t].obj, s.fds[s.threads[t].obj]);
    CountedChanged(s, Step(s, t, act), t, -1, 1);
  }

  lemma HandedOffCounted(s: State, t: nat, act: Action)
    requires Counted(s) && t < |s.threads| && act.HandOff? && Step(s, t, act) != s
    ensures Counted(Step(s, t, act))
  {
    hide ReservationStep, Packed, AcquireBits, ReleaseBits, ForgetBits, Counted, Live, BeingClosed, Lowers, Unpack;
    LeaseCounted(s, t);
    LiveNat(s);
    NoCarry(Live(s), s.closes);
    MapSizes(s.fds, act.obj, s.fds[act.obj]);
    CountedChanged(s, Step(s, t, act), t, -1, 0);
  }

  lemma MovedCounted(s: State, s': State, t: nat, to: Object, from: Object)
    requires Counted(s) && t < |s.threads| && from in s.fds && to !in s.fds
    requires s' == s.(fds := (s.fds - {from})[to := s.fds[from]])
    ensures Counted(s')
  {
    hide Packed, Counted;
    MapSizes(s.fds, from, s.fds[from]);
    MapSizes(s.fds - {from}, to, s.fds[from]);
    CountedMoved(s, s', t);
  }

  lemma MoveCounted(s: State, t: nat, act: Action)
    requires Counted(s) && t < |s.threads| && act.Move? && Step(s, t, act) != s
    ensures Counted(Step(s, t, act))
  {
    hide ReservationStep, Counted, BeingClosed;
    MovedCounted(s, Step(s, t, act), t, act.to, act.from);
  }

  lemma NumberCounted(s: State, t: nat, act: Action)
    requires Counted(s) && t < |s.threads| && act.CloseNumber? && Step(s, t, act) != s
    ensures Counted(Step(s, t, act))
  {
    hide Counted, BeingClosed, ReservationStep;
    CountedMoved(s, Step(s, t, act), t);
  }

  lemma OtherCounted(s: State, t: nat, act: Action)
    requires Counted(s) && t < |s.threads| && Step(s, t, act) != s
    requires !MovesDescriptor(act) && !act.Reserve? && !act.Forget?
    ensures Counted(Step(s, t, act))
  {
    hide Counted, Step, Armed;
    QuietStep(s, t, act);
    WordKept(s, t, act);
    CountedMoved(s, Step(s, t, act), t);
  }

  lemma StepCounted(s: State, t: nat, act: Action)
    requires Counted(s) && ClosersOk(s) && t < |s.threads|
    ensures Counted(Step(s, t, act))
  {
    hide Counted, ClosersOk, Step;
    if Step(s, t, act) != s {
      match act
      case Reserve => WordCounted(s, t, act);
      case Forget => WordCounted(s, t, act);
      case Opened(_, _) => OpenedCounted(s, t, act);
      case ReturnLease => ReturnedCounted(s, t, act);
      case HandOff(_) => HandedOffCounted(s, t, act);
      case Move(_, _) => MoveCounted(s, t, act);
      case CloseNumber(_) => NumberCounted(s, t, act);
      case _ => OtherCounted(s, t, act);
    }
  }

  lemma LiveNat(s: State)
    requires Counted(s)
    ensures 0 <= Live(s) < EPOCHS && s.bits == Packed(Live(s), s.closes)
  {
  }

  lemma ClosesOpen(s: State, t: nat)
    requires ClosersOk(s) && t < |s.threads| && s.threads[t].Closing?
    ensures s.threads[t].obj in s.fds
  {
  }

  // ---- Ownership ----

  lemma ClosersMoved(s: State, s': State, t: nat)
    requires ClosersOk(s) && t < |s.threads| == |s'.threads| && s'.threads == s.threads[t := s'.threads[t]]
    requires s'.threads[t].Closing? ==> s'.threads[t].obj in s'.fds && !BeingClosed(s, s'.threads[t].obj)
    requires forall o | o in s.fds && BeingClosed(s, o) && s.threads[t] != Closing(o) :: o in s'.fds
    ensures ClosersOk(s')
  {
    forall u: nat | u < |s'.threads| && s'.threads[u].Closing? ensures s'.threads[u].obj in s'.fds {
      if u != t {
        assert s.threads[u] == Closing(s'.threads[u].obj);
        assert BeingClosed(s, s'.threads[u].obj);
      }
    }
  }

  lemma LoudClosers(s: State, t: nat, act: Action)
    requires ClosersOk(s) && t < |s.threads| && MovesDescriptor(act) && Step(s, t, act) != s
    ensures ClosersOk(Step(s, t, act))
  {
    hide ReservationStep, ReleaseBits, ForgetBits, BeingClosed, ClosersOk;
    ClosersMoved(s, Step(s, t, act), t);
  }

  lemma StepClosers(s: State, t: nat, act: Action)
    requires ClosersOk(s) && t < |s.threads|
    ensures ClosersOk(Step(s, t, act))
  {
    hide Step, BeingClosed, ClosersOk, MovesDescriptor;
    if Step(s, t, act) != s {
      if MovesDescriptor(act) {
        LoudClosers(s, t, act);
      } else {
        QuietStep(s, t, act);
        ClosersMoved(s, Step(s, t, act), t);
      }
    }
  }

  /** Which Fds are being closed changes only with the steps of a close. */
  lemma ClosingSame(s: State, s': State, t: nat)
    requires t < |s.threads| == |s'.threads| && s'.threads == s.threads[t := s'.threads[t]]
    requires !s.threads[t].Closing? && !s'.threads[t].Closing?
    ensures forall o :: BeingClosed(s', o) <==> BeingClosed(s, o)
  {
    forall o ensures BeingClosed(s', o) <==> BeingClosed(s, o) {
      if u: nat :| u < |s.threads| && s.threads[u] == Closing(o) { assert s'.threads[u] == Closing(o); }
      if u: nat :| u < |s'.threads| && s'.threads[u] == Closing(o) { assert s.threads[u] == Closing(o); }
    }
  }

  lemma ClosingBegun(s: State, s': State, t: nat, closing: Object)
    requires t < |s.threads| && s'.threads == s.threads[t := Closing(closing)] && !s.threads[t].Closing?
    ensures forall o :: BeingClosed(s', o) <==> BeingClosed(s, o) || o == closing
  {
    assert s'.threads[t] == Closing(closing);
    forall o ensures BeingClosed(s', o) <==> BeingClosed(s, o) || o == closing {
      if u: nat :| u < |s.threads| && s.threads[u] == Closing(o) { assert s'.threads[u] == Closing(o); }
      if u: nat :| u < |s'.threads| && s'.threads[u] == Closing(o) { assert u == t || s.threads[u] == Closing(o); }
    }
  }

  lemma ClosingOver(s: State, s': State, t: nat, closed: Object)
    requires ClosersOk(s) && t < |s.threads| && s.threads[t] == Closing(closed) && s'.threads == s.threads[t := Idle]
    ensures forall o :: BeingClosed(s', o) <==> BeingClosed(s, o) && o != closed
    ensures closed in s.fds && BeingClosed(s, closed)
  {
    forall o ensures BeingClosed(s', o) <==> BeingClosed(s, o) && o != closed {
      if u: nat :| u < |s.threads| && s.threads[u] == Closing(o) { assert u != t ==> s'.threads[u] == Closing(o); }
      if u: nat :| u < |s'.threads| && s'.threads[u] == Closing(o) { assert u != t && s.threads[u] == Closing(o); }
    }
  }

  /** The facts about Fds and the kernel, which a step that touches neither keeps. */
  ghost predicate Fds(s: State) {
    Owned(s) && OwnNumbers(s)
  }

  lemma FdsUntouched(s: State, s': State, t: nat)
    requires Fds(s) && t < |s.threads| == |s'.threads| && s'.threads == s.threads[t := s'.threads[t]]
    requires !s.threads[t].Closing? && !s'.threads[t].Closing?
    requires s'.fds == s.fds && s'.kernel == s.kernel && s'.openings == s.openings && s'.ended == s.ended
    ensures Fds(s')
  {
    ClosingSame(s, s', t);
    hide BeingClosed;
  }

  lemma NotClosing(s: State, o: Object)
    requires ClosersOk(s) && o !in s.fds
    ensures !BeingClosed(s, o)
  {
  }

  lemma OpenedFds(s: State, t: nat, act: Action)
    requires Fds(s) && ClosersOk(s) && t < |s.threads| && act.Opened? && Step(s, t, act) != s
    ensures Fds(Step(s, t, act))
  {
    hide ReservationStep, Fds, BeingClosed;
    var s' := Step(s, t, act);
    NotClosing(s, act.obj);
    NewFds(s, s', t, act.obj, act.descriptor);
  }

  lemma NewOwned(s: State, s': State, obj: Object, descriptor: int)
    requires Owned(s) && obj !in s.fds && !BeingClosed(s, obj)
    requires forall o :: BeingClosed(s', o) <==> BeingClosed(s, o)
    requires s'.fds == s.fds[obj := Fd(descriptor, s.openings)] && s'.openings == s.openings + 1 && s'.ended == s.ended
    ensures Owned(s')
  {
    hide BeingClosed;
    forall k | 0 <= k < s'.openings && k !in s'.ended ensures exists o :: o in s'.fds && s'.fds[o].opening == k {
      if k == s.openings { assert s'.fds[obj].opening == k; }
      else {
        var o :| o in s.fds && s.fds[o].opening == k;
        assert s'.fds[o].opening == k;
      }
    }
  }

  lemma NewNumbers(s: State, s': State, obj: Object, descriptor: int)
    requires OwnNumbers(s) && obj !in s.fds && descriptor !in s.kernel
    requires forall o :: BeingClosed(s', o) <==> BeingClosed(s, o)
    requires s'.fds == s.fds[obj := Fd(descriptor, s.openings)] && s'.kernel == s.kernel[descriptor := s.openings]
    requires s'.openings == s.openings + 1
    ensures OwnNumbers(s')
  {
    hide BeingClosed;
  }

  lemma NewFds(s: State, s': State, t: nat, obj: Object, descriptor: int)
    requires Fds(s) && obj !in s.fds && descriptor !in s.kernel && !BeingClosed(s, obj)
    requires t < |s.threads| && !s.threads[t].Closing? && s'.threads == s.threads[t := Idle]
    requires s'.fds == s.fds[obj := Fd(descriptor, s.openings)] && s'.kernel == s.kernel[descriptor := s.openings]
    requires s'.openings == s.openings + 1 && s'.ended == s.ended
    ensures Fds(s')
  {
    hide BeingClosed, Owned, OwnNumbers;
    ClosingSame(s, s', t);
    NewOwned(s, s', obj, descriptor);
    NewNumbers(s, s', obj, descriptor);
  }

  lemma CloseNumberFds(s: State, t: nat, act: Action)
    requires Fds(s) && t < |s.threads| && act.CloseNumber? && Step(s, t, act) != s
    ensures Fds(Step(s, t, act))
  {
    hide ReservationStep;
    ClosingBegun(s, Step(s, t, act), t, act.obj);
    hide BeingClosed;
  }

  lemma ReturnLeaseFds(s: State, t: nat, act: Action)
    requires Fds(s) && ClosersOk(s) && t < |s.threads| && act.ReturnLease? && Step(s, t, act) != s
    ensures Fds(Step(s, t, act))
  {
    hide ReservationStep;
    var s', closed := Step(s, t, act), s.threads[t].obj;
    ClosingOver(s, s', t, closed);
    hide BeingClosed, ClosersOk;
    Survivors(s, s', closed);
  }

  lemma Survivors(s: State, s': State, gone: Object)
    requires Owned(s) && gone in s.fds && s'.fds == s.fds - {gone} && s'.openings == s.openings
    requires s.fds[gone].opening in s'.ended && (forall k | k in s.ended :: k in s'.ended)
    ensures forall k | 0 <= k < s'.openings && k !in s'.ended :: exists o :: o in s'.fds && s'.fds[o].opening == k
  {
    forall k | 0 <= k < s'.openings && k !in s'.ended ensures exists o :: o in s'.fds && s'.fds[o].opening == k {
      var o :| o in s.fds && s.fds[o].opening == k;
      assert s'.fds[o].opening == k;
    }
  }

  lemma HandOffFds(s: State, t: nat, act: Action)
    requires Fds(s) && ClosersOk(s) && t < |s.threads| && act.HandOff? && Step(s, t, act) != s
    ensures Fds(Step(s, t, act))
  {
    hide ReservationStep;
    var s' := Step(s, t, act);
    ClosingSame(s, s', t);
    hide BeingClosed, ClosersOk;
    assert s.fds[act.obj].opening in s'.ended by { assert s'.ended[|s.ended|] == s.fds[act.obj].opening; }
    Survivors(s, s', act.obj);
  }

  lemma MoveFds(s: State, t: nat, act: Action)
    requires Fds(s) && ClosersOk(s) && t < |s.threads| && act.Move? && Step(s, t, act) != s
    ensures Fds(Step(s, t, act))
  {
    hide Fds;
    NotClosing(s, act.to);
    MovedFds(s, Step(s, t, act), act.to, act.from);
  }

  lemma MovedOwned(s: State, s': State, to: Object, from: Object)
    requires Owned(s) && from in s.fds && to !in s.fds && !BeingClosed(s, from) && !BeingClosed(s, to)
    requires s' == s.(fds := (s.fds - {from})[to := s.fds[from]])
    requires forall o :: BeingClosed(s', o) <==> BeingClosed(s, o)
    ensures Owned(s')
  {
    hide BeingClosed;
    forall k | 0 <= k < s'.openings && k !in s'.ended ensures exists o :: o in s'.fds && s'.fds[o].opening == k {
      var o :| o in s.fds && s.fds[o].opening == k;
      assert s'.fds[if o == from then to else o].opening == k;
    }
  }

  lemma MovedNumbers(s: State, s': State, to: Object, from: Object)
    requires OwnNumbers(s) && from in s.fds && to !in s.fds && !BeingClosed(s, from)
    requires s' == s.(fds := (s.fds - {from})[to := s.fds[from]])
    requires forall o :: BeingClosed(s', o) <==> BeingClosed(s, o)
    ensures OwnNumbers(s')
  {
    hide BeingClosed;
  }

  lemma MovedFds(s: State, s': State, to: Object, from: Object)
    requires Fds(s) && from in s.fds && to !in s.fds && !BeingClosed(s, from) && !BeingClosed(s, to)
    requires s' == s.(fds := (s.fds - {from})[to := s.fds[from]])
    ensures Fds(s')
  {
    assert forall o :: BeingClosed(s', o) <==> BeingClosed(s, o);
    hide BeingClosed, Owned, OwnNumbers;
    MovedOwned(s, s', to, from);
    MovedNumbers(s, s', to, from);
  }

  lemma OtherFds(s: State, t: nat, act: Action)
    requires Fds(s) && t < |s.threads| && !MovesDescriptor(act) && Step(s, t, act) != s
    ensures Fds(Step(s, t, act))
  {
    hide Fds, Step;
    QuietStep(s, t, act);
    FdsUntouched(s, Step(s, t, act), t);
  }

  lemma StepFds(s: State, t: nat, act: Action)
    requires Fds(s) && ClosersOk(s) && t < |s.threads|
    ensures Fds(Step(s, t, act))
  {
    hide Fds, ClosersOk, Step;
    if Step(s, t, act) != s {
      match act
      case Opened(_, _) => OpenedFds(s, t, act);
      case CloseNumber(_) => CloseNumberFds(s, t, act);
      case ReturnLease => ReturnLeaseFds(s, t, act);
      case HandOff(_) => HandOffFds(s, t, act);
      case Move(_, _) => MoveFds(s, t, act);
      case _ => OtherFds(s, t, act);
    }
  }

  /** A reservation begins with what the word says. */
  lemma ReserveRemembered(s: State, t: nat, act: Action)
    requires Counted(s) && t < |s.threads| && act.Reserve? && Step(s, t, act) != s
    ensures PcOk(Step(s, t, act), Step(s, t, act).threads[t])
  {
    hide DescriptorStep, Packed, AcquireBits, Live, Unpack;
    LiveNat(s);
    UnpackPacked(Live(s), s.closes);
  }

  /** And is handed on from one place of the thread to the next. */
  lemma ReservationKept(s: State, t: nat, act: Action)
    requires t < |s.threads| && !MovesDescriptor(act) && !act.LoadCeiling? && !act.CompareExchange? && !act.Reserve?
    requires PcOk(s, s.threads[t])
    ensures PcOk(Step(s, t, act), Step(s, t, act).threads[t])
  {
    hide DescriptorStep, AcquireBits, ForgetBits, Live, Unpack, Lowers, Looked;
  }

  lemma LoopKept(s: State, t: nat, act: Action)
    requires t < |s.threads| && (act.LoadCeiling? || act.CompareExchange?) && PcOk(s, s.threads[t])
    ensures PcOk(Step(s, t, act), Step(s, t, act).threads[t])
  {
    hide DescriptorStep, AcquireBits, ForgetBits, Live, Unpack;
  }

  lemma LoudRemembered(s: State, t: nat, act: Action)
    requires t < |s.threads| && MovesDescriptor(act) && PcOk(s, s.threads[t])
    ensures var s' := Step(s, t, act);
      |s'.threads| == |s.threads| && s'.threads == s.threads[t := s'.threads[t]] && s.closes <= s'.closes && PcOk(s', s'.threads[t])
  {
    hide ReservationStep, ReleaseBits, ForgetBits, BeingClosed, Lowers;
  }

  lemma StepRemembered(s: State, t: nat, act: Action)
    requires Remembered(s) && Counted(s) && t < |s.threads|
    ensures Remembered(Step(s, t, act))
  {
    hide Counted, Step;
    assert PcOk(s, s.threads[t]);
    var s' := Step(s, t, act);
    if MovesDescriptor(act) {
      LoudRemembered(s, t, act);
    } else if s' != s {
      QuietStep(s, t, act);
      match act
      case Reserve => ReserveRemembered(s, t, act);
      case LoadCeiling => LoopKept(s, t, act);
      case CompareExchange(_) => LoopKept(s, t, act);
      case _ => ReservationKept(s, t, act);
    }
    forall u: nat | u < |s'.threads| ensures PcOk(s', s'.threads[u]) {
      if u != t { assert PcOk(s, s.threads[u]); }
    }
  }

  lemma StepCeiling(s: State, t: nat, act: Action)
    requires CeilingOk(s) && Remembered(s) && t < |s.threads|
    ensures CeilingOk(Step(s, t, act))
  {
    assert PcOk(s, s.threads[t]);
    hide Packed, AcquireBits, ReleaseBits, ForgetBits, Live, Unpack, Remembered, BeingClosed;
  }

  lemma StepRaises(s: State, t: nat, act: Action)
    requires s.raises == (if s.raiseAttempted then 1 else 0) && t < |s.threads|
    ensures var s' := Step(s, t, act); s'.raises == if s'.raiseAttempted then 1 else 0
  {
    hide AcquireBits, ReleaseBits, ForgetBits, Live, Lowers, Unpack, BeingClosed;
  }

  lemma StepInv(s: State, t: nat, act: Action)
    requires Inv(s) && t < |s.threads|
    ensures Inv(Step(s, t, act))
  {
    hide Counted, Owned, OwnNumbers, ClosersOk, Remembered, CeilingOk, Step;
    StepCounted(s, t, act);
    StepFds(s, t, act);
    StepClosers(s, t, act);
    StepRemembered(s, t, act);
    StepCeiling(s, t, act);
    StepRaises(s, t, act);
  }

  /** A run is a shorter run and a step. */
  lemma RunBefore(threads: nat, run: seq<State>) returns (t: nat, act: Action)
    requires IsRun(threads, run) && |run| > 1
    ensures IsRun(threads, run[..|run| - 1])
    ensures var s := Final(run[..|run| - 1]); t < |s.threads| && Final(run) == Step(s, t, act)
  {
    hide Initial, Step;
    var before, n := run[..|run| - 1], |run|;
    assert Follows(run[n - 2], run[n - 1]);
    t, act :| t < |run[n - 2].threads| && run[n - 1] == Step(run[n - 2], t, act);
    forall i | 0 <= i < |before| - 1 ensures Follows(before[i], before[i + 1]) {
      assert Follows(run[i], run[i + 1]);
    }
  }

  lemma {:induction false} RunInv(threads: nat, run: seq<State>)
    requires IsRun(threads, run)
    ensures run != [] && Inv(Final(run))
  {
    if |run| == 1 {
      InitialInv(threads);
    } else {
      hide Inv, Step;
      var t, act := RunBefore(threads, run);
      RunInv(threads, run[..|run| - 1]);
      StepInv(Final(run[..|run| - 1]), t, act);
    }
  }

  lemma InitialInv(threads: nat)
    ensures Inv(Initial(threads))
  {
    assert ArmedThreads(Initial(threads)) == {};
  }

  // ---- What that says ----

  /** The word at any time: what is leased, and the closes modulo 2^32. */
  lemma WordIsTrue(threads: nat, run: seq<State>)
    requires IsRun(threads, run)
    ensures var s := Final(run);
      Unpack(s.bits) == Leases(|s.fds| + |ArmedThreads(s)|, s.closes % EPOCHS)
  {
    RunInv(threads, run);
    hide IsRun;
    UnpackPacked(Live(Final(run)), Final(run).closes);
  }

  /** No open is ended twice, none is lost, and a close hits the number its own open returned. */
  lemma EndedOnce(threads: nat, run: seq<State>)
    requires IsRun(threads, run)
    ensures var s := Final(run);
      && (forall i, j | 0 <= i < j < |s.ended| :: s.ended[i] != s.ended[j])
      && (forall k :: 0 <= k < s.openings && k !in s.ended ==> exists o :: o in s.fds && s.fds[o].opening == k)
      && (forall o | o in s.fds && !BeingClosed(s, o) ::
            s.fds[o].descriptor in s.kernel && s.kernel[s.fds[o].descriptor] == s.fds[o].opening)
  {
    RunInv(threads, run);
    hide IsRun, BeingClosed;
  }

  /** When everything is put away the word is back at no leases and every open has ended once. */
  lemma AllReturned(threads: nat, run: seq<State>)
    requires IsRun(threads, run)
    requires var s := Final(run); s.fds == map[] && forall t: nat | t < |s.threads| :: s.threads[t].Idle?
    ensures var s := Final(run);
      && Unpack(s.bits).live == 0
      && (forall k :: k in s.ended <==> 0 <= k < s.openings)
  {
    RunInv(threads, run);
    WordIsTrue(threads, run);
    assert ArmedThreads(Final(run)) == {};
    hide IsRun, BeingClosed;
  }

  /**
   * Refused's answer is yes exactly when a lease is out now or the number of descriptors
   * closed since the reservation is not a multiple of 2^32.
   */
  lemma VerdictMeans(threads: nat, run: seq<State>, t: nat)
    requires IsRun(threads, run) && t < |Final(run).threads| && Final(run).threads[t].Judging?
    ensures var s := Final(run); var pc := s.threads[t];
      MayFree(Unpack(s.bits), pc.before) <==> Live(s) != 0 || (s.closes - pc.since) % EPOCHS != 0
  {
    hide IsRun, Live, Packed, Unpack;
    RunInv(threads, run);
    var s := Final(run);
    var pc := s.threads[t];
    JudgeRemembers(s, t);
    LiveNat(s);
    UnpackPacked(Live(s), s.closes);
    SameEpoch(s.closes, pc.since);
  }

  lemma JudgeRemembers(s: State, t: nat)
    requires Remembered(s) && t < |s.threads| && s.threads[t].Judging?
    ensures s.threads[t].before.epoch == s.threads[t].since % EPOCHS
  {
    assert PcOk(s, s.threads[t]);
  }

  lemma SameEpoch(a: int, b: int)
    ensures a % EPOCHS == b % EPOCHS <==> (a - b) % EPOCHS == 0
  {
  }

  /** The ceiling is the least count that was refused since the last raise; the limit is raised at most once. */
  lemma CeilingIsLeast(threads: nat, run: seq<State>)
    requires IsRun(threads, run)
    ensures var s := Final(run);
      && (s.ceiling == 0 <==> s.noted == {})
      && (s.noted != {} ==> s.ceiling in s.noted && forall held | held in s.noted :: s.ceiling <= held)
      && s.raises <= 1
  {
    RunInv(threads, run);
    hide IsRun, Counted, Owned, OwnNumbers, ClosersOk, Remembered;
  }
}
