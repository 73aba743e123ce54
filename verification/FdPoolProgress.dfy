/**
 * What the pool's calls get done: an open that is closed or handed off again, a descriptor
 * that has moved, and a way for everybody to put away what they have.
 */
module FdPoolProgress {
  import opened Common
  import opened FdPool

  // ---- One thread's calls by themselves ----

  ghost function Steps(s: State, t: nat, acts: seq<Action>): (s': State)
    requires t < |s.threads|
    ensures |s'.threads| == |s.threads|
    decreases |acts|
  {
    if acts == [] then s
    else
      SameThreads(s, t, acts[0]);
      Steps(Step(s, t, acts[0]), t, acts[1..])
  }

  lemma SameThreads(s: State, t: nat, act: Action)
    requires t < |s.threads|
    ensures |Step(s, t, act).threads| == |s.threads|
  {
    hide Unpack, AcquireBits, ReleaseBits, ForgetBits, Live, BeingClosed;
    if MovesDescriptor(act) { hide ReservationStep; } else { hide DescriptorStep; }
  }

  /** Reserve, and an open that succeeds without the limit being raised. */
  function OpenBy(obj: Object, descriptor: int): seq<Action> {
    [Reserve, RaiseIfNeeded(0, false), Opened(obj, descriptor)]
  }

  ghost predicate CanOpen(s: State, t: nat, obj: Object, descriptor: int) {
    && t < |s.threads| && s.threads[t].Idle? && Live(s) + 1 < EPOCHS
    && obj !in s.fds && descriptor >= 0 && descriptor !in s.kernel
  }

  lemma OpenAlone(s: State, t: nat, obj: Object, descriptor: int)
    requires CanOpen(s, t, obj, descriptor)
    ensures var s' := Steps(s, t, OpenBy(obj, descriptor));
      s' == s.(bits := AcquireBits(s.bits), fds := s.fds[obj := Fd(descriptor, s.openings)],
               kernel := s.kernel[descriptor := s.openings], openings := s.openings + 1)
  {
    hide Live, AcquireBits, Unpack;
    var s1 := Step(s, t, Reserve);
    var s2 := Step(s1, t, RaiseIfNeeded(0, false));
    var s3 := Step(s2, t, Opened(obj, descriptor));
    assert s3.threads == s.threads;
    assert OpenBy(obj, descriptor)[1..] == [RaiseIfNeeded(0, false), Opened(obj, descriptor)];
    assert OpenBy(obj, descriptor)[1..][1..] == [Opened(obj, descriptor)];
    assert Steps(s2, t, [Opened(obj, descriptor)]) == Steps(s3, t, []) == s3;
  }

  /** Several calls are the first ones and then the others. */
  lemma {:induction false} StepsConcat(s: State, t: nat, acts: seq<Action>, more: seq<Action>)
    requires t < |s.threads|
    ensures Steps(s, t, acts + more) == Steps(Steps(s, t, acts), t, more)
    decreases |acts|
  {
    if acts == [] {
      assert acts + more == more;
    } else {
      SameThreads(s, t, acts[0]);
      StepsConcat(Step(s, t, acts[0]), t, acts[1..], more);
      assert (acts + more)[1..] == acts[1..] + more;
    }
  }

  lemma NobodyCloses(s: State, obj: Object)
    requires ClosersOk(s) && obj !in s.fds
    ensures !BeingClosed(s, obj)
  {
  }

  lemma RunCounted(threads: nat, run: seq<State>)
    requires IsRun(threads, run)
    ensures run != [] && ClosersOk(Final(run)) && Counted(Final(run))
  {
    hide Counted, Owned, OwnNumbers, ClosersOk, Remembered, CeilingOk;
    RunInv(threads, run);
  }

  lemma PutAndTaken<K, V>(m: map<K, V>, k: K, v: V)
    requires k !in m
    ensures m[k := v] - {k} == m
  {
  }

  lemma SameClosers(s: State, s': State, obj: Object)
    requires s'.threads == s.threads
    ensures BeingClosed(s', obj) == BeingClosed(s, obj)
  {
  }

  lemma WordThereAndBack(s: State, closes: nat)
    requires 0 <= Live(s) && Live(s) + 1 < EPOCHS && s.bits == Packed(Live(s), closes)
    ensures Unpack(ReleaseBits(AcquireBits(s.bits))) == Leases(Live(s), (closes + 1) % EPOCHS)
    ensures ForgetBits(AcquireBits(s.bits)) == s.bits
  {
    hide Live, Packed, Unpack, AcquireBits, ReleaseBits, ForgetBits;
    NoCarry(Live(s), closes);
    NoCarry(Live(s) + 1, closes);
    UnpackPacked(Live(s), closes + 1);
  }

  /** An open and its close: all is as before but for the histories and one more epoch. */
  lemma OpenThenClose(threads: nat, run: seq<State>, t: nat, obj: Object, descriptor: int)
    requires IsRun(threads, run) && CanOpen(Final(run), t, obj, descriptor)
    ensures var s := Final(run); var s' := Steps(s, t, OpenBy(obj, descriptor) + [CloseNumber(obj), ReturnLease]);
      && s'.fds == s.fds && s'.kernel == s.kernel && s'.threads == s.threads
      && s'.openings == s.openings + 1 && s'.ended == s.ended + [s.openings] && s'.closes == s.closes + 1
      && Unpack(s'.bits) == Leases(Live(s), (s.closes + 1) % EPOCHS)
  {
    var s := Final(run);
    hide IsRun, ClosersOk, Counted, BeingClosed, Steps, OpenBy, Live, Unpack, AcquireBits, ReleaseBits;
    RunCounted(threads, run);
    OpenAlone(s, t, obj, descriptor);
    StepsConcat(s, t, OpenBy(obj, descriptor), [CloseNumber(obj), ReturnLease]);
    var s1 := Steps(s, t, OpenBy(obj, descriptor));
    NobodyCloses(s, obj);
    SameClosers(s, s1, obj);
    LiveNat(s);
    WordThereAndBack(s, s.closes);
    CloseAlone(s1, t, obj);
    PutAndTaken(s.fds, obj, Fd(descriptor, s.openings));
    PutAndTaken(s.kernel, descriptor, s.openings);
  }

  lemma CloseAlone(s: State, t: nat, obj: Object)
    requires t < |s.threads| && s.threads[t].Idle? && obj in s.fds && !BeingClosed(s, obj)
    ensures Steps(s, t, [CloseNumber(obj), ReturnLease]) ==
      s.(bits := ReleaseBits(s.bits), fds := s.fds - {obj}, kernel := s.kernel - {s.fds[obj].descriptor},
         closes := s.closes + 1, ended := s.ended + [s.fds[obj].opening])
  {
    hide BeingClosed, ReleaseBits;
    var s1 := Step(s, t, CloseNumber(obj));
    var s2 := Step(s1, t, ReturnLease);
    assert s2.threads == s.threads;
    assert [CloseNumber(obj), ReturnLease][1..] == [ReturnLease];
    assert Steps(s1, t, [ReturnLease]) == Steps(s2, t, []) == s2;
  }

  lemma HandOffAlone(s: State, t: nat, obj: Object)
    requires t < |s.threads| && s.threads[t].Idle? && obj in s.fds && !BeingClosed(s, obj)
    ensures Steps(s, t, [HandOff(obj)]) ==
      s.(bits := ForgetBits(s.bits), fds := s.fds - {obj}, ended := s.ended + [s.fds[obj].opening])
  {
    hide BeingClosed, ForgetBits;
    var s1 := Step(s, t, HandOff(obj));
    assert Steps(s, t, [HandOff(obj)]) == Steps(s1, t, []) == s1;
  }

  /** An open that is handed off: the number stays in use, the word is as before. */
  lemma OpenThenHandOff(threads: nat, run: seq<State>, t: nat, obj: Object, descriptor: int)
    requires IsRun(threads, run) && CanOpen(Final(run), t, obj, descriptor)
    ensures var s := Final(run); var s' := Steps(s, t, OpenBy(obj, descriptor) + [HandOff(obj)]);
      && s'.fds == s.fds && s'.kernel == s.kernel[descriptor := s.openings] && s'.threads == s.threads
      && s'.ended == s.ended + [s.openings] && s'.bits == s.bits && s'.closes == s.closes
  {
    var s := Final(run);
    hide IsRun, ClosersOk, Counted, BeingClosed, Steps, OpenBy, Live, Unpack, AcquireBits, ForgetBits;
    RunCounted(threads, run);
    OpenAlone(s, t, obj, descriptor);
    StepsConcat(s, t, OpenBy(obj, descriptor), [HandOff(obj)]);
    var s1 := Steps(s, t, OpenBy(obj, descriptor));
    NobodyCloses(s, obj);
    SameClosers(s, s1, obj);
    LiveNat(s);
    WordThereAndBack(s, s.closes);
    HandOffAlone(s1, t, obj);
    PutAndTaken(s.fds, obj, Fd(descriptor, s.openings));
  }

  /** After a move the old object has nothing to close, and the new one closes what the old one held. */
  lemma MoveThenClose(threads: nat, run: seq<State>, t: nat, to: Object, from: Object)
    requires IsRun(threads, run) && t < |Final(run).threads| && Final(run).threads[t].Idle?
    requires var s := Final(run); from in s.fds && to !in s.fds && !BeingClosed(s, from)
    ensures var s := Final(run); var s1 := Step(s, t, Move(to, from)); var held := s.fds[from];
      && Steps(s1, t, [CloseNumber(from), ReturnLease]) == s1
      && var s' := Steps(s1, t, [CloseNumber(to), ReturnLease]);
         && s'.fds == s.fds - {from} && s'.kernel == s.kernel - {held.descriptor}
         && s'.ended == s.ended + [held.opening] && s'.closes == s.closes + 1
  {
    var s := Final(run);
    RunCounted(threads, run);
    hide IsRun, ClosersOk, BeingClosed, Steps;
    NobodyCloses(s, to);
    var s1 := Step(s, t, Move(to, from));
    SameClosers(s, s1, to);
    assert s1 == s.(fds := (s.fds - {from})[to := s.fds[from]]);
    hide Step;
    CloseAlone(s1, t, to);
    assert s1.fds - {to} == s.fds - {from};
    NothingToClose(s1, t, from);
  }

  lemma NothingToClose(s: State, t: nat, obj: Object)
    requires t < |s.threads| && s.threads[t].Idle? && obj !in s.fds
    ensures Steps(s, t, [CloseNumber(obj), ReturnLease]) == s
  {
    assert [CloseNumber(obj), ReturnLease][1..] == [ReturnLease];
    assert Step(s, t, CloseNumber(obj)) == s && Step(s, t, ReturnLease) == s;
    assert Steps(s, t, [ReturnLease]) == Steps(s, t, []) == s;
  }

  // ---- Everything can be put away ----

  /** A way to the end of the call a thread is in, and how many steps it takes at most. */
  function WayOut(pc: Pc): Action {
    match pc
    case Raising(_, _) => RaiseIfNeeded(0, false)
    case Raised(_, _) => ResetCeiling
    case Opening(_, _) => OtherError
    case Dropping => Forget
    case Refused(_, _) => Forget
    case Noting(_, _) => LoadCeiling
    case Swapping(_, _, _) => CompareExchange(false)
    case Closing(_) => ReturnLease
    case _ => Judge
  }

  function ToGo(s: State, pc: Pc): nat {
    match pc
    case Idle => 0
    case Raising(_, _) => 3
    case Raised(_, _) => 3
    case Opening(_, _) => 2
    case Refused(_, _) => 5
    case Noting(_, _) => 4
    case Swapping(_, _, expected) => if expected == s.ceiling then 2 else 3
    case _ => 1
  }

  lemma ClosingLeads(s: State, t: nat)
    requires t < |s.threads| && s.threads[t].Closing?
    ensures var s' := DescriptorStep(s, t, ReturnLease); s'.threads == s.threads[t := Idle]
  {
    hide ReleaseBits;
  }

  lemma LookedLeads(s: State, t: nat, before: Leases, since: nat)
    requires t < |s.threads|
    ensures var s' := Looked(s, t, before, since);
      && |s'.threads| == |s.threads| && s'.threads == s.threads[t := s'.threads[t]]
      && ToGo(s', s'.threads[t]) <= 2
  {
  }

  lemma ReservationLeads(s: State, t: nat)
    requires t < |s.threads| && !s.threads[t].Idle? && !s.threads[t].Closing?
    ensures var s' := ReservationStep(s, t, WayOut(s.threads[t]));
      && |s'.threads| == |s.threads| && s'.threads == s.threads[t := s'.threads[t]]
      && ToGo(s', s'.threads[t]) < ToGo(s, s.threads[t])
  {
    hide Unpack, ForgetBits, Live;
    var pc := s.threads[t];
    if pc.Noting? {
      LookedLeads(s, t, pc.before, pc.since);
      hide Looked;
    } else if pc.Swapping? {
      LookedLeads(s, t, pc.before, pc.since);
      hide Looked;
    } else {
      hide Looked;
    }
  }

  lemma WayOutLeads(s: State, t: nat)
    requires t < |s.threads| && !s.threads[t].Idle?
    ensures var s' := Step(s, t, WayOut(s.threads[t]));
      && |s'.threads| == |s.threads| && s'.threads == s.threads[t := s'.threads[t]]
      && ToGo(s', s'.threads[t]) < ToGo(s, s.threads[t])
  {
    hide Unpack, ReleaseBits, ForgetBits, DescriptorStep, ReservationStep;
    var act := WayOut(s.threads[t]);
    if s.threads[t].Closing? { ClosingLeads(s, t); } else { ReservationLeads(s, t); }
  }

  lemma Extended(threads: nat, run: seq<State>, t: nat, act: Action)
    requires IsRun(threads, run) && t < |Final(run).threads|
    ensures IsRun(threads, run + [Step(Final(run), t, act)])
  {
    hide Step, Initial;
    var longer := run + [Step(Final(run), t, act)];
    forall i | 0 <= i < |longer| - 1 ensures Follows(longer[i], longer[i + 1]) {
      if i < |run| - 1 { assert Follows(run[i], run[i + 1]); }
    }
  }

  ghost predicate IdleTo(s: State, n: nat) {
    n <= |s.threads| && forall t | 0 <= t < n :: s.threads[t].Idle?
  }

  lemma ThreadReturns(threads: nat, run: seq<State>, t: nat) returns (longer: seq<State>)
    requires IsRun(threads, run) && t < |Final(run).threads| && IdleTo(Final(run), t)
    ensures IsRun(threads, longer) && run <= longer
    ensures |Final(longer).threads| == |Final(run).threads| && IdleTo(Final(longer), t + 1)
  {
    hide Follows, Step, Initial, WayOut, ToGo;
    longer := run;
    while !Final(longer).threads[t].Idle?
      invariant IsRun(threads, longer) && run <= longer
      invariant |Final(longer).threads| == |Final(run).threads| && IdleTo(Final(longer), t)
      decreases ToGo(Final(longer), Final(longer).threads[t])
    {
      var s := Final(longer);
      WayOutLeads(s, t);
      Extended(threads, longer, t, WayOut(s.threads[t]));
      longer := longer + [Step(s, t, WayOut(s.threads[t]))];
    }
  }

  lemma AllReturn(threads: nat, run: seq<State>) returns (longer: seq<State>)
    requires IsRun(threads, run)
    ensures IsRun(threads, longer) && run <= longer
    ensures |Final(longer).threads| == |Final(run).threads| && IdleTo(Final(longer), |Final(longer).threads|)
  {
    hide Follows, Step, Initial;
    longer := run;
    var t := 0;
    while t < |Final(run).threads|
      invariant IsRun(threads, longer) && run <= longer && t <= |Final(run).threads|
      invariant |Final(longer).threads| == |Final(run).threads| && IdleTo(Final(longer), t)
    {
      longer := ThreadReturns(threads, longer, t);
      t := t + 1;
    }
  }

  lemma ClosedInRun(threads: nat, run: seq<State>, obj: Object) returns (longer: seq<State>)
    requires IsRun(threads, run) && obj in Final(run).fds && |Final(run).threads| > 0
    requires IdleTo(Final(run), |Final(run).threads|)
    ensures IsRun(threads, longer) && run <= longer && Final(longer).fds == Final(run).fds - {obj}
    ensures Final(longer).threads == Final(run).threads
  {
    hide Follows, Initial, ReleaseBits;
    var s := Final(run);
    var s1 := Step(s, 0, CloseNumber(obj));
    var s2 := Step(s1, 0, ReturnLease);
    Extended(threads, run, 0, CloseNumber(obj));
    Extended(threads, run + [s1], 0, ReturnLease);
    longer := run + [s1] + [s2];
    assert s2.threads == s.threads;
  }

  ghost predicate AllAway(s: State) {
    s.fds == map[] && IdleTo(s, |s.threads|)
  }

  lemma NobodyMoves(run: seq<State>)
    requires IsRun(0, run)
    ensures AllAway(Final(run))
  {
    if |run| > 1 {
      var t, act := RunBefore(0, run);
      ThreadsStay(0, run[..|run| - 1]);
      assert false;
    }
  }

  /** From every state of every run there is a way on by which everything is put away again. */
  lemma CanPutAway(threads: nat, run: seq<State>)
    requires IsRun(threads, run)
    ensures exists longer :: IsRun(threads, longer) && run <= longer && AllAway(Final(longer))
  {
    ThreadsStay(threads, run);
    hide Follows, Step, Initial;
    if threads == 0 {
      NobodyMoves(run);
      return;
    }
    var longer := AllReturn(threads, run);
    while Final(longer).fds != map[]
      invariant IsRun(threads, longer) && run <= longer && |Final(longer).threads| == threads
      invariant IdleTo(Final(longer), |Final(longer).threads|)
      decreases |Final(longer).fds|
    {
      var fds := Final(longer).fds;
      var obj :| obj in fds;
      longer := ClosedInRun(threads, longer, obj);
      assert |fds - {obj}| < |fds| by { assert fds == (fds - {obj})[obj := fds[obj]]; }
    }
  }

  lemma {:induction false} ThreadsStay(threads: nat, run: seq<State>)
    requires IsRun(threads, run)
    ensures run != [] && |Final(run).threads| == threads
  {
    if |run| > 1 {
      var t, act := RunBefore(threads, run);
      ThreadsStay(threads, run[..|run| - 1]);
      SameThreads(Final(run[..|run| - 1]), t, act);
    }
  }
}
