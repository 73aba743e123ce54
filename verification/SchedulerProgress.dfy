/**
 * What the scheduler's threads get done: a call to MaybeGrowThreads returns only with a
 * thread started or none called for, a worker that scans finds the most urgent work there
 * is, and from any point after submission has ended the outside thread's Wait can return.
 */
module SchedulerProgress {
  import opened Common
  import opened TaskScheduler

  // ---- Growth ----

  /** The value of live_threads_ a growth in progress has seen is not above what it is now. */
  ghost predicate Seen<T>(s: State<T>, g: Growth) {
    match g
    case Checking(index) => index <= s.live
    case Swapping(index) => index <= s.live && index < s.maxWorkers
    case _ => true
  }

  ghost predicate AllSeen<T>(s: State<T>) {
    && (forall k | 0 <= k < |s.threads| && s.threads[k].pc.Growing? :: Seen(s, s.threads[k].pc.growth))
    && (s.outside.OutsideGrowing? ==> Seen(s, s.outside.growth))
  }

  lemma GrowSeen<T>(s: State<T>, g: Growth, spurious: bool)
    requires Seen(s, g)
    ensures var (s', g') := Grow(s, g, spurious);
      && s.live <= s'.live && s'.maxWorkers == s.maxWorkers && s'.pending == s.pending && s'.outside == s.outside
      && s.threads <= s'.threads
      && (forall k | |s.threads| <= k < |s'.threads| :: s'.threads[k].pc == LoopHead)
      && (g'.Some? ==> Seen(s', g'.value))
      && (g'.None? ==> |s'.threads| == |s.threads| + 1 || s.live >= s.maxWorkers || s.pending == 0)
  {
  }

  lemma SeenLater<T>(s: State<T>, s': State<T>, k: nat)
    requires AllSeen(s) && s.live <= s'.live && s'.maxWorkers == s.maxWorkers && |s.threads| <= |s'.threads|
    requires forall j | 0 <= j < |s'.threads| && j != k && s'.threads[j].pc.Growing? :: j < |s.threads| && s'.threads[j] == s.threads[j]
    requires k < |s'.threads| && s'.threads[k].pc.Growing? ==> Seen(s', s'.threads[k].pc.growth)
    requires s'.outside == s.outside
    ensures AllSeen(s')
  {
  }

  lemma WorkerSeen<T>(s: State<T>, k: nat, choice: Choice<T>)
    requires AllSeen(s) && k < |s.threads|
    ensures AllSeen(WorkerNext(s, k, choice))
  {
    if s.threads[k].pc.Growing? {
      WorkerGrowSeen(s, k, choice);
    } else {
      hide WorkerNext;
      WorkerFrame(s, k, choice);
      SeenLater(s, WorkerNext(s, k, choice), k);
    }
  }

  lemma WorkerGrowSeen<T>(s: State<T>, k: nat, choice: Choice<T>)
    requires AllSeen(s) && k < |s.threads| && s.threads[k].pc.Growing?
    ensures var s' := WorkerNext(s, k, choice);
      && AllSeen(s')
      && (s'.threads[k].pc.Growing? || |s'.threads| == |s.threads| + 1 || s.live >= s.maxWorkers || s.pending == 0)
  {
    hide Grow, WorkerNext;
    assert Seen(s, s.threads[k].pc.growth);
    GrowSeen(s, s.threads[k].pc.growth, choice.GiveUp?);
    GrownThreads(s, k, choice);
    var s', grown := WorkerNext(s, k, choice), Grow(s, s.threads[k].pc.growth, choice.GiveUp?).0;
    forall j | 0 <= j < |s'.threads| && j != k && s'.threads[j].pc.Growing? ensures j < |s.threads| && s'.threads[j] == s.threads[j] {
      assert s'.threads[j] == grown.threads[j];
    }
    SeenLater(s, s', k);
  }

  /** What MaybeGrowThreads does to the threads when a worker takes one of its steps. */
  lemma GrownThreads<T>(s: State<T>, k: nat, choice: Choice<T>)
    requires AllSeen(s) && k < |s.threads| && s.threads[k].pc.Growing?
    ensures var s', g := WorkerNext(s, k, choice), s.threads[k].pc.growth;
      var (grown, g') := Grow(s, g, choice.GiveUp?);
      && |s'.threads| == |grown.threads| >= |s.threads| && s'.live == grown.live && s'.maxWorkers == s.maxWorkers && s'.outside == s.outside
      && (forall j | 0 <= j < |s'.threads| && j != k :: s'.threads[j] == grown.threads[j])
      && (g'.Some? ==> s'.threads[k].pc.Growing? && s'.threads[k].pc.growth == g'.value)
      && (g'.None? ==> s'.threads[k].pc.Processing?)
  {
    hide Grow, Claim, Front, Back, StealFrom;
    GrowSeen(s, s.threads[k].pc.growth, choice.GiveUp?);
  }

  lemma OutsideSeen<T>(s: State<T>, choice: Choice<T>)
    requires AllSeen(s)
    ensures var s' := OutsideNext(s, choice);
      && AllSeen(s')
      && (s.outside.OutsideGrowing? && !s'.outside.OutsideGrowing? ==>
          |s'.threads| == |s.threads| + 1 || s.live >= s.maxWorkers || s.pending == 0)
  {
  }

  lemma StepSeen<T>(s: State<T>, act: Action<T>)
    requires AllSeen(s)
    ensures AllSeen(Step(s, act))
  {
    hide WorkerNext, OutsideNext;
    match act
    case OutsideStep(choice) => OutsideSeen(s, choice);
    case WorkerStep(k, choice) => if k < |s.threads| { WorkerSeen(s, k, choice); }
    case _ =>
  }

  lemma {:induction false} RunSeen<T(!new)>(workerCount: nat, priorities: nat, run: seq<State<T>>)
    requires IsRun(workerCount, priorities, run)
    ensures run != [] && AllSeen(Final(run))
  {
    hide Step, AllSeen;
    if |run| > 1 {
      var act := RunBefore(workerCount, priorities, run);
      RunSeen(workerCount, priorities, run[..|run| - 1]);
      StepSeen(Final(run[..|run| - 1]), act);
    } else {
      InitialSeen<T>(workerCount, priorities);
      assert Final(run) == Initial(workerCount, priorities);
    }
  }

  lemma InitialSeen<T>(workerCount: nat, priorities: nat)
    ensures AllSeen<T>(Initial(workerCount, priorities))
  {
  }

  /** MaybeGrowThreads is over for the outside thread, or for worker `k`, with this step. */
  ghost predicate GrowthEnds<T>(s: State<T>, s': State<T>) {
    || (s.outside.OutsideGrowing? && !s'.outside.OutsideGrowing?)
    || exists k | 0 <= k < |s.threads| && k < |s'.threads| :: s.threads[k].pc.Growing? && !s'.threads[k].pc.Growing?
  }

  /**
   * In every run MaybeGrowThreads returns only having started a thread, or when as many as
   * allowed are live, or when nothing is pending.
   */
  lemma GrowthOutcome<T(!new)>(workerCount: nat, priorities: nat, run: seq<State<T>>, act: Action<T>)
    requires IsRun(workerCount, priorities, run) && GrowthEnds(Final(run), Step(Final(run), act))
    ensures var s := Final(run);
      |Step(s, act).threads| == |s.threads| + 1 || s.live >= s.maxWorkers || s.pending == 0
  {
    RunSeen(workerCount, priorities, run);
    var s := Final(run);
    hide AllSeen, WorkerNext, OutsideNext, IsRun;
    match act
    case OutsideStep(choice) => OutsideSeen(s, choice); OutsideKeepsGrowing(s, choice);
    case WorkerStep(k, choice) =>
      if k < |s.threads| {
        if s.threads[k].pc.Growing? { WorkerGrowSeen(s, k, choice); GrowingElsewhere(s, k, choice); }
        else { WorkerFrame(s, k, choice); }
      }
    case _ =>
  }

  lemma OutsideKeepsGrowing<T>(s: State<T>, choice: Choice<T>)
    ensures s.threads <= OutsideNext(s, choice).threads
  {
  }

  lemma GrowingElsewhere<T>(s: State<T>, k: nat, choice: Choice<T>)
    requires AllSeen(s) && k < |s.threads| && s.threads[k].pc.Growing?
    ensures var s' := WorkerNext(s, k, choice);
      s'.outside == s.outside && forall j | 0 <= j < |s.threads| && j != k :: s'.threads[j] == s.threads[j]
  {
    hide WorkerNext, Grow;
    GrownThreads(s, k, choice);
    GrowSeen(s, s.threads[k].pc.growth, choice.GiveUp?);
  }

  // ---- Calls that run alone ----

  ghost function Steps<T>(s: State<T>, acts: seq<Action<T>>): State<T>
    decreases |acts|
  {
    if acts == [] then s else Steps(Step(s, acts[0]), acts[1..])
  }

  ghost predicate Reaches<T(!new)>(s: State<T>, s': State<T>) {
    exists acts :: Steps(s, acts) == s'
  }

  lemma {:induction false} StepsThen<T>(s: State<T>, first: seq<Action<T>>, then': seq<Action<T>>)
    ensures Steps(s, first + then') == Steps(Steps(s, first), then')
    decreases |first|
  {
    hide Step;
    if first == [] {
      assert first + then' == then';
    } else {
      assert (first + then')[1..] == first[1..] + then';
      StepsThen(Step(s, first[0]), first[1..], then');
    }
  }

  lemma ReachesStep<T(!new)>(s: State<T>, act: Action<T>)
    ensures Reaches(s, s) && Reaches(s, Step(s, act))
  {
    hide Step;
    assert Steps(s, []) == s;
    assert [act][1..] == [];
    assert Steps(s, [act]) == Steps(Step(s, act), []);
  }

  lemma ReachesOn<T(!new)>(a: State<T>, b: State<T>, c: State<T>)
    requires Reaches(a, b) && Reaches(b, c)
    ensures Reaches(a, c)
  {
    hide Steps;
    var first :| Steps(a, first) == b;
    var then' :| Steps(b, then') == c;
    StepsThen(a, first, then');
  }

  lemma OutsideGrows<T>(s: State<T>)
    requires s.outside == OutsideGrowing(Loading) && s.live < s.maxWorkers && s.pending != 0
    ensures var s4 := OutsideNext(OutsideNext(OutsideNext(OutsideNext(s, Go), Go), Go), Go);
      s4 == s.(outside := Idle, live := s.live + 1, threads := s.threads + [Thread(s.live, LoopHead)])
  {
  }

  lemma OutsideStays<T>(s: State<T>)
    requires s.outside == OutsideGrowing(Loading) && s.live >= s.maxWorkers
    ensures var s4 := OutsideNext(OutsideNext(OutsideNext(OutsideNext(s, Go), Go), Go), Go);
      s4 == s.(outside := Idle)
  {
  }

  /** What a Submit has done once it returned: the task is queued, and a thread started if one more is allowed. */
  ghost predicate SubmitDone<T>(s: State<T>, s': State<T>, task: T, priority: nat) {
    && s'.pool == s.pool + [Entry(Submitted(priority), task)]
    && s'.pending == s.pending + 1 && s'.accepted == s.accepted + multiset{task} && s'.outside.Idle?
    && s'.threads == (if s.live < s.maxWorkers then s.threads + [Thread(s.live, LoopHead)] else s.threads)
    && s'.live == (if s.live < s.maxWorkers then s.live + 1 else s.live)
  }

  /** A Submit from outside by itself, with no spurious failure. */
  lemma SubmitAlone<T(!new)>(s: State<T>, task: T, priority: nat)
    requires Inv(s) && s.outside.Idle? && !s.stop && priority < s.priorities
    ensures exists s' :: Reaches(s, s') && SubmitDone(s, s', task, priority)
  {
    hide Inv, WorkerNext, Reaches;
    var s0 := Step(s, Submit(task, priority));
    ReachesStep(s, Submit(task, priority));
    var s1 := OutsideNext(s0, Go);
    NonNegative(s);
    if s.live < s.maxWorkers { OutsideGrows(s1); } else { OutsideStays(s1); }
    var s5 := OutsideNext(OutsideNext(OutsideNext(OutsideNext(s1, Go), Go), Go), Go);
    FiveOutside(s0);
    ReachesOn(s, s0, s5);
    assert SubmitDone(s, s5, task, priority);
  }

  lemma NonNegative<T(!new)>(s: State<T>)
    requires Inv(s)
    ensures s.pending >= 0
  {
  }

  lemma FiveOutside<T(!new)>(s: State<T>)
    ensures Reaches(s, OutsideNext(OutsideNext(OutsideNext(OutsideNext(OutsideNext(s, Go), Go), Go), Go), Go))
  {
    hide OutsideNext, WorkerNext, Reaches;
    var s1 := OutsideNext(s, Go);
    var s2 := OutsideNext(s1, Go);
    var s3 := OutsideNext(s2, Go);
    var s4 := OutsideNext(s3, Go);
    ReachesStep(s, OutsideStep(Go));
    ReachesStep(s1, OutsideStep(Go));
    ReachesStep(s2, OutsideStep(Go));
    ReachesStep(s3, OutsideStep(Go));
    ReachesStep(s4, OutsideStep(Go));
    ReachesOn(s, s1, s2);
    ReachesOn(s, s2, s3);
    ReachesOn(s, s3, s4);
    ReachesOn(s, s4, OutsideNext(s4, Go));
  }

  // ---- A worker comes to the end of what it has in hand ----

  /** Priorities named anywhere exist. */
  ghost predicate Ranked<T>(s: State<T>) {
    && 1 <= s.priorities
    && (forall e | e in s.pool :: e.q.priority < s.priorities)
    && (forall k | 0 <= k < |s.threads| :: RankedPc(s, s.threads[k].pc))
    && (s.outside.OutsideCounted? ==> s.outside.priority < s.priorities)
  }

  ghost predicate RankedPc<T>(s: State<T>, pc: Pc<T>) {
    && (Scans(pc) ==> pc.priority < s.priorities)
    && (pc.TryVictim? ==> pc.victim < s.maxWorkers)
    && (pc.Counted? ==> pc.priority < s.priorities)
  }

  lemma RankedMove<T>(s: State<T>, s': State<T>, k: nat)
    requires Ranked(s) && s'.priorities == s.priorities && s'.maxWorkers == s.maxWorkers && s'.outside == s.outside
    requires forall e | e in s'.pool :: e.q.priority < s.priorities
    requires |s.threads| <= |s'.threads| && k < |s'.threads| && RankedPc(s', s'.threads[k].pc)
    requires forall j | 0 <= j < |s'.threads| && j != k :: (j < |s.threads| && s'.threads[j] == s.threads[j]) || s'.threads[j].pc == LoopHead
    ensures Ranked(s')
  {
  }

  lemma WithoutIn<T>(pool: seq<Entry<T>>, i: nat)
    requires i < |pool|
    ensures forall e | e in Without(pool, i) :: e in pool
  {
  }

  lemma ClaimRanked<T>(s: State<T>, k: nat, q: QueueId, kind: Kind, i: int, otherwise: Pc<T>)
    requires Ranked(s) && k < |s.threads| && -1 <= i < |s.pool| && RankedPc(s, otherwise)
    ensures Ranked(Claim(s, k, q, kind, i, otherwise))
  {
    hide Without, Ranked;
    if i >= 0 { WithoutIn(s.pool, i); }
    var s' := Claim(s, k, q, kind, i, otherwise);
    assert forall e | e in s.pool :: e.q.priority < s.priorities by { PoolRanked(s); }
    RankedMove(s, s', k);
  }

  lemma PoolRanked<T>(s: State<T>)
    requires Ranked(s)
    ensures forall e | e in s.pool :: e.q.priority < s.priorities
    ensures forall k | 0 <= k < |s.threads| :: RankedPc(s, s.threads[k].pc)
  {
  }

  lemma SomePriority<T>(s: State<T>)
    requires Ranked(s)
    ensures 1 <= s.priorities
  {
  }

  lemma ScanRanked<T>(s: State<T>, k: nat, choice: Choice<T>)
    requires Ranked(s) && 1 <= s.maxWorkers && k < |s.threads| && Scans(s.threads[k].pc)
    ensures Ranked(WorkerNext(s, k, choice))
  {
    hide Front, Back, StealFrom, Claim, Ranked;
    PoolRanked(s);
    var me := s.threads[k];
    match me.pc
    case TryOwn(p) => ClaimRanked(s, k, Own(me.slot, p), DidTake, Back(s.pool, Own(me.slot, p)), NextVictim(s, p, 0));
    case TryVictim(p, v) =>
      if v == me.slot { RankedMove(s, WorkerNext(s, k, choice), k); }
      else { ClaimRanked(s, k, Own(v, p), DidSteal, StealFrom(s, Own(v, p), choice), NextVictim(s, p, v + 1)); }
    case TrySubmitted(p) => ClaimRanked(s, k, Submitted(p), DidSteal, StealFrom(s, Submitted(p), choice), NextPriority(s, p));
  }

  lemma TaskRanked<T>(s: State<T>, k: nat, choice: Choice<T>)
    requires Ranked(s) && k < |s.threads| && !Scans(s.threads[k].pc) && !s.threads[k].pc.Growing?
    ensures Ranked(WorkerNext(s, k, choice))
  {
    hide Ranked, Claim, Grow, Front, Back, StealFrom;
    PoolRanked(s);
    var me, s' := s.threads[k], WorkerNext(s, k, choice);
    assert RankedPc(s, me.pc);
    if me.pc.Counted? { assert s'.pool == s.pool + [Entry(Own(me.slot, me.pc.priority), me.pc.child)]; }
    assert 1 <= s.priorities by { SomePriority(s); }
    RankedMove(s, s', k);
  }

  lemma GrowAdds<T>(s: State<T>, g: Growth, spurious: bool)
    ensures var s' := Grow(s, g, spurious).0;
      && s.threads <= s'.threads && (forall j | |s.threads| <= j < |s'.threads| :: s'.threads[j].pc == LoopHead)
      && s' == s.(live := s'.live, threads := s'.threads)
  {
  }

  lemma GrowRanked<T>(s: State<T>, k: nat, choice: Choice<T>)
    requires Ranked(s) && k < |s.threads| && s.threads[k].pc.Growing?
    ensures Ranked(WorkerNext(s, k, choice))
  {
    hide Ranked, WorkerNext, Grow;
    PoolRanked(s);
    var pc := GrowMoves(s, k, choice);
    GrowAdds(s, s.threads[k].pc.growth, choice.GiveUp?);
    var grown, s' := Grow(s, s.threads[k].pc.growth, choice.GiveUp?).0, WorkerNext(s, k, choice);
    assert s'.threads[k].pc == pc;
    forall j | 0 <= j < |s'.threads| && j != k
      ensures (j < |s.threads| && s'.threads[j] == s.threads[j]) || s'.threads[j].pc == LoopHead
    {
      assert s'.threads[j] == grown.threads[j];
    }
    RankedMove(s, s', k);
  }

  lemma WorkerRanked<T>(s: State<T>, k: nat, choice: Choice<T>)
    requires Ranked(s) && 1 <= s.maxWorkers && k < |s.threads|
    ensures Ranked(WorkerNext(s, k, choice))
  {
    hide Ranked, WorkerNext;
    if Scans(s.threads[k].pc) { ScanRanked(s, k, choice); }
    else if s.threads[k].pc.Growing? { GrowRanked(s, k, choice); }
    else { TaskRanked(s, k, choice); }
  }

  lemma StepRanked<T>(s: State<T>, act: Action<T>)
    requires Ranked(s) && 1 <= s.maxWorkers
    ensures Ranked(Step(s, act))
  {
    hide WorkerNext;
    match act
    case WorkerStep(k, choice) => if k < |s.threads| { WorkerRanked(s, k, choice); }
    case _ =>
  }

  lemma {:induction false} RunRanked<T(!new)>(workerCount: nat, priorities: nat, run: seq<State<T>>)
    requires IsRun(workerCount, priorities, run)
    ensures run != [] && Ranked(Final(run)) && 1 <= Final(run).maxWorkers
  {
    hide Step, Ranked;
    if |run| > 1 {
      var act := RunBefore(workerCount, priorities, run);
      RunRanked(workerCount, priorities, run[..|run| - 1]);
      StepRanked(Final(run[..|run| - 1]), act);
      StepKeepsMax(Final(run[..|run| - 1]), act);
    } else {
      InitialRanked<T>(workerCount, priorities);
      assert Final(run) == Initial(workerCount, priorities);
    }
  }

  lemma InitialRanked<T>(workerCount: nat, priorities: nat)
    requires 1 <= priorities
    ensures Ranked<T>(Initial(workerCount, priorities))
  {
  }

  ghost predicate Sound<T(!new)>(s: State<T>) {
    Inv(s) && Ranked(s)
  }

  lemma StepSound<T(!new)>(s: State<T>, act: Action<T>)
    requires Sound(s)
    ensures Sound(Step(s, act))
  {
    hide Inv, Ranked, Step;
    assert 1 <= s.maxWorkers by { SomeSlot(s); }
    StepInv(s, act);
    StepRanked(s, act);
  }

  lemma SomeSlot<T(!new)>(s: State<T>)
    requires Inv(s)
    ensures 1 <= s.maxWorkers && s.live <= s.maxWorkers
    ensures forall e | e in s.pool && e.q.Own? :: e.q.slot < s.maxWorkers
  {
  }

  // ---- A scan by itself ----

  /** Queue `q` is one a scan at `pc` of the thread on `slot` has still to look at. */
  ghost predicate Yet<T>(pc: Pc<T>, slot: nat, q: QueueId) {
    match pc
    case TryOwn(p) => p <= q.priority
    case TryVictim(p, v) => p < q.priority || (p == q.priority && (q.Submitted? || (v <= q.slot && q.slot != slot)))
    case TrySubmitted(p) => p < q.priority || (p == q.priority && q.Submitted?)
    case _ => false
  }

  /** How far a scan has to go at its priority. */
  ghost function Stage<T>(s: State<T>, pc: Pc<T>): nat {
    if pc.TryOwn? then s.maxWorkers + 1
    else if pc.TryVictim? && pc.victim < s.maxWorkers then s.maxWorkers - pc.victim
    else 0
  }

  ghost function RanksLeft<T>(s: State<T>, pc: Pc<T>): nat {
    if Scans(pc) && pc.priority < s.priorities then s.priorities - pc.priority else 0
  }

  /** Thread `k` has entry `n` in hand, and nothing more urgent was queued; nothing else has changed. */
  ghost predicate Found<T>(s: State<T>, s': State<T>, k: nat) {
    && k < |s.threads| && |s'.threads| == |s.threads| && s'.threads == s.threads[k := s'.threads[k]]
    && s'.threads[k].slot == s.threads[k].slot && s'.threads[k].pc.Processing?
    && s' == s.(threads := s'.threads, pool := s'.pool, accesses := s'.accesses)
    && (forall e | e in s.pool :: s'.threads[k].pc.taken <= e.q.priority)
    && exists n: nat | n < |s.pool| :: IsEntry(s, s', k, n)
  }

  ghost predicate IsEntry<T>(s: State<T>, s': State<T>, k: nat, n: nat)
    requires n < |s.pool| && k < |s'.threads| && s'.threads[k].pc.Processing?
  {
    s'.pool == Without(s.pool, n) && s.pool[n].task == s'.threads[k].pc.task && s.pool[n].q.priority == s'.threads[k].pc.taken
  }

  lemma LookFinds<T>(s: State<T>, k: nat, q: QueueId, kind: Kind, i: int, otherwise: Pc<T>)
    requires k < |s.threads| && 0 <= i < |s.pool| && s.pool[i].q == q
    requires forall e | e in s.pool :: q.priority <= e.q.priority
    ensures Found(s, Claim(s, k, q, kind, i, otherwise), k)
  {
    hide Without;
    assert IsEntry(s, Claim(s, k, q, kind, i, otherwise), k, i);
  }

  /** The scan moves on by one queue. */
  ghost predicate MovedOn<T>(s: State<T>, s': State<T>, k: nat, pc: Pc<T>) {
    && k < |s.threads|
    && s' == WithPc(s, k, pc).(accesses := s'.accesses)
    && Scans(pc) && (RanksLeft(s, pc) < RanksLeft(s, s.threads[k].pc)
      || (RanksLeft(s, pc) == RanksLeft(s, s.threads[k].pc) && Stage(s, pc) < Stage(s, s.threads[k].pc)))
    && forall e | e in s.pool :: Yet(pc, s.threads[k].slot, e.q)
  }

  ghost predicate Scanning<T(!new)>(s: State<T>, k: nat) {
    && Sound(s) && k < |s.threads| && Scans(s.threads[k].pc) && s.pool != []
    && forall e | e in s.pool :: Yet(s.threads[k].pc, s.threads[k].slot, e.q)
  }

  lemma OwnLook<T(!new)>(s: State<T>, k: nat)
    requires Scanning(s, k) && s.threads[k].pc.TryOwn?
    ensures var s' := WorkerNext(s, k, Go);
      Found(s, s', k) || MovedOn(s, s', k, TryVictim(s.threads[k].pc.priority, 0))
  {
    hide Inv, Without, Found;
    SomeSlot(s);
    ThreadRanked(s, k);
    var p, q := s.threads[k].pc.priority, Own(s.threads[k].slot, s.threads[k].pc.priority);
    var i := Back(s.pool, q);
    if i >= 0 { LookFinds(s, k, q, DidTake, i, NextVictim(s, p, 0)); }
  }

  lemma ThreadRanked<T>(s: State<T>, k: nat)
    requires Ranked(s) && k < |s.threads|
    ensures RankedPc(s, s.threads[k].pc) && 1 <= s.priorities
    ensures forall e | e in s.pool :: e.q.priority < s.priorities
  {
  }

  lemma VictimLook<T(!new)>(s: State<T>, k: nat)
    requires Scanning(s, k) && s.threads[k].pc.TryVictim?
    ensures var s', pc := WorkerNext(s, k, Go), s.threads[k].pc;
      Found(s, s', k) || MovedOn(s, s', k, if pc.victim + 1 < s.maxWorkers then TryVictim(pc.priority, pc.victim + 1) else TrySubmitted(pc.priority))
  {
    hide Inv, Ranked, Without, Found;
    SomeSlot(s);
    ThreadRanked(s, k);
    var pc, slot := s.threads[k].pc, s.threads[k].slot;
    if pc.victim != slot {
      var i := Front(s.pool, Own(pc.victim, pc.priority));
      if i >= 0 { LookFinds(s, k, Own(pc.victim, pc.priority), DidSteal, i, NextVictim(s, pc.priority, pc.victim + 1)); }
    }
  }

  lemma SubmittedLook<T(!new)>(s: State<T>, k: nat)
    requires Scanning(s, k) && s.threads[k].pc.TrySubmitted?
    ensures var s', pc := WorkerNext(s, k, Go), s.threads[k].pc;
      Found(s, s', k) || MovedOn(s, s', k, TryOwn(pc.priority + 1))
  {
    hide Inv, Ranked, Without, Found;
    SomeSlot(s);
    ThreadRanked(s, k);
    var pc := s.threads[k].pc;
    var i := Front(s.pool, Submitted(pc.priority));
    if i >= 0 { LookFinds(s, k, Submitted(pc.priority), DidSteal, i, NextPriority(s, pc.priority)); }
    else { assert s.pool[0] in s.pool && pc.priority < s.pool[0].q.priority; }
  }

  /** The scan's steps so far changed nothing but where the thread is. */
  lemma FoundLater<T>(s: State<T>, s1: State<T>, s': State<T>, k: nat, pc: Pc<T>)
    requires MovedOn(s, s1, k, pc) && Found(s1, s', k)
    ensures Found(s, s', k)
  {
    var n: nat :| n < |s1.pool| && IsEntry(s1, s', k, n);
    assert IsEntry(s, s', k, n);
  }

  lemma StillScanning<T(!new)>(s: State<T>, s': State<T>, k: nat, pc: Pc<T>)
    requires Scanning(s, k) && Sound(s') && MovedOn(s, s', k, pc)
    ensures Scanning(s', k)
    ensures Scans(s'.threads[k].pc) && RanksLeft(s', s'.threads[k].pc) == RanksLeft(s, pc) && Stage(s', s'.threads[k].pc) == Stage(s, pc)
  {
    hide Inv, Ranked;
  }

  /**
   * A worker that scans by itself finds work if any is queued anywhere, its own, another's
   * or submitted from outside, and nothing more urgent than what it takes was queued.
   */
  lemma {:induction false} ScanFinds<T(!new)>(s: State<T>, k: nat)
    requires Scanning(s, k)
    ensures exists s' :: Reaches(s, s') && Found(s, s', k)
    decreases RanksLeft(s, s.threads[k].pc), Stage(s, s.threads[k].pc)
  {
    hide Inv, Ranked, Found, MovedOn, WorkerNext, Reaches, RanksLeft, Stage, Yet;
    var s1, pc := WorkerNext(s, k, Go), s.threads[k].pc;
    var next :=
      if pc.TryOwn? then TryVictim(pc.priority, 0)
      else if pc.TrySubmitted? then TryOwn(pc.priority + 1)
      else if pc.victim + 1 < s.maxWorkers then TryVictim(pc.priority, pc.victim + 1)
      else TrySubmitted(pc.priority);
    match pc {
      case TryOwn(_) => OwnLook(s, k);
      case TryVictim(_, _) => VictimLook(s, k);
      case TrySubmitted(_) => SubmittedLook(s, k);
    }
    ReachesStep(s, WorkerStep(k, Go));
    if !Found(s, s1, k) {
      StepSound(s, WorkerStep(k, Go));
      StillScanning(s, s1, k, next);
      Nearer(s, s1, k, next);
      ScanFinds(s1, k);
      var s' :| Reaches(s1, s') && Found(s1, s', k);
      ReachesOn(s, s1, s');
      FoundLater(s, s1, s', k, next);
    }
  }

  lemma Nearer<T>(s: State<T>, s': State<T>, k: nat, pc: Pc<T>)
    requires MovedOn(s, s', k, pc)
    ensures RanksLeft(s, pc) < RanksLeft(s, s.threads[k].pc)
      || (RanksLeft(s, pc) == RanksLeft(s, s.threads[k].pc) && Stage(s, pc) < Stage(s, s.threads[k].pc))
  {
  }

  // ---- Every worker can come home ----

  ghost predicate Home<T>(pc: Pc<T>) {
    pc.LoopHead? || pc.Exited?
  }

  ghost function Class<T>(pc: Pc<T>): nat {
    match pc
    case Counted(_, _, _, _) => 5
    case Growing(_, _, _) => 4
    case Processing(_, _) => 2
    case Processed(_) => 1
    case _ => if Scans(pc) then 3 else 0
  }

  ghost function GrowthLeft<T>(s: State<T>, pc: Pc<T>): nat {
    if !pc.Growing? then 0
    else match pc.growth
      case Loading => 4
      case Checking(index) => if index == s.live then 3 else 6
      case Swapping(index) => if index == s.live then 2 else 5
      case Spawning(_) => 1
  }

  /** What the worker's own steps may change for the others: threads may be added, tasks may be done. */
  ghost predicate Aside<T>(s: State<T>, s': State<T>, k: nat) {
    && k < |s.threads| <= |s'.threads| && s'.outside == s.outside && s'.stop == s.stop && s'.pending <= s.pending
    && s'.maxWorkers == s.maxWorkers && s'.priorities == s.priorities
    && (forall j | 0 <= j < |s.threads| && j != k :: s'.threads[j] == s.threads[j])
    && (forall j | |s.threads| <= j < |s'.threads| :: s'.threads[j].pc == LoopHead)
  }

  /** A step nearer home. */
  ghost predicate Homeward<T>(s: State<T>, s': State<T>, k: nat) {
    && Aside(s, s', k)
    && var pc, pc' := s.threads[k].pc, s'.threads[k].pc;
      || Class(pc') < Class(pc)
      || (Class(pc') == Class(pc) && (
        || RanksLeft(s', pc') + GrowthLeft(s', pc') < RanksLeft(s, pc) + GrowthLeft(s, pc)
        || (RanksLeft(s', pc') + GrowthLeft(s', pc') == RanksLeft(s, pc) + GrowthLeft(s, pc) && Stage(s', pc') < Stage(s, pc))))
  }

  lemma GrowHomeward<T(!new)>(s: State<T>, k: nat)
    requires k < |s.threads| && s.threads[k].pc.Growing?
    ensures Homeward(s, WorkerNext(s, k, Go), k)
  {
    hide Claim, Front, Back, StealFrom, Stage;
  }

  lemma TaskHomeward<T(!new)>(s: State<T>, k: nat)
    requires k < |s.threads| && (s.threads[k].pc.Processing? || s.threads[k].pc.Processed? || s.threads[k].pc.Counted?)
    ensures Homeward(s, WorkerNext(s, k, Go), k)
  {
    hide Claim, Grow, Front, Back, StealFrom, Stage;
  }

  lemma ClaimHomeward<T(!new)>(s: State<T>, k: nat, q: QueueId, kind: Kind, i: int, otherwise: Pc<T>)
    requires k < |s.threads| && Scans(s.threads[k].pc) && -1 <= i < |s.pool|
    requires otherwise == LoopHead || (Scans(otherwise) && (
      || RanksLeft(s, otherwise) < RanksLeft(s, s.threads[k].pc)
      || (RanksLeft(s, otherwise) == RanksLeft(s, s.threads[k].pc) && Stage(s, otherwise) < Stage(s, s.threads[k].pc))))
    ensures Homeward(s, Claim(s, k, q, kind, i, otherwise), k)
  {
    hide Without;
  }

  lemma SkipHomeward<T(!new)>(s: State<T>, k: nat, otherwise: Pc<T>)
    requires k < |s.threads| && Scans(s.threads[k].pc)
    requires otherwise == LoopHead || (Scans(otherwise) && (
      || RanksLeft(s, otherwise) < RanksLeft(s, s.threads[k].pc)
      || (RanksLeft(s, otherwise) == RanksLeft(s, s.threads[k].pc) && Stage(s, otherwise) < Stage(s, s.threads[k].pc))))
    ensures Homeward(s, WithPc(s, k, otherwise), k)
  {
  }

  lemma ScanHomeward<T(!new)>(s: State<T>, k: nat)
    requires Sound(s) && k < |s.threads| && Scans(s.threads[k].pc)
    ensures Homeward(s, WorkerNext(s, k, Go), k)
  {
    hide Inv, Ranked, Front, Back, StealFrom, Claim, Homeward;
    SomeSlot(s);
    ThreadRanked(s, k);
    var me := s.threads[k];
    match me.pc
    case TryOwn(p) => ClaimHomeward(s, k, Own(me.slot, p), DidTake, Back(s.pool, Own(me.slot, p)), NextVictim(s, p, 0));
    case TryVictim(p, v) =>
      if v == me.slot { SkipHomeward(s, k, NextVictim(s, p, v + 1)); }
      else { ClaimHomeward(s, k, Own(v, p), DidSteal, StealFrom(s, Own(v, p), Go), NextVictim(s, p, v + 1)); }
    case TrySubmitted(p) => ClaimHomeward(s, k, Submitted(p), DidSteal, StealFrom(s, Submitted(p), Go), NextPriority(s, p));
  }

  lemma {:induction false} ThreadHome<T(!new)>(s: State<T>, k: nat) returns (s': State<T>)
    requires Sound(s) && k < |s.threads|
    ensures Reaches(s, s') && Sound(s') && Aside(s, s', k) && Home(s'.threads[k].pc)
    decreases Class(s.threads[k].pc), RanksLeft(s, s.threads[k].pc) + GrowthLeft(s, s.threads[k].pc), Stage(s, s.threads[k].pc)
  {
    hide Inv, Ranked, WorkerNext, Reaches, Stage, RanksLeft, GrowthLeft;
    if Home(s.threads[k].pc) {
      ReachesStep(s, WorkerStep(k, Go));
      return s;
    }
    if Scans(s.threads[k].pc) { ScanHomeward(s, k); }
    else if s.threads[k].pc.Growing? { GrowHomeward(s, k); }
    else { TaskHomeward(s, k); }
    var s1 := Step(s, WorkerStep(k, Go));
    StepSound(s, WorkerStep(k, Go));
    ReachesStep(s, WorkerStep(k, Go));
    s' := ThreadHome(s1, k);
    ReachesOn(s, s1, s');
  }

  ghost function Abroad<T>(s: State<T>): set<int> {
    set k | 0 <= k < |s.threads| && !Home(s.threads[k].pc)
  }

  /** Nothing outside the workers moves. */
  ghost predicate Unmoved<T>(s: State<T>, s': State<T>) {
    && s'.outside == s.outside && s'.stop == s.stop && s'.pending <= s.pending
    && s'.maxWorkers == s.maxWorkers && s'.priorities == s.priorities && |s.threads| <= |s'.threads|
  }

  lemma {:induction false} AllHome<T(!new)>(s: State<T>) returns (s': State<T>)
    requires Sound(s)
    ensures Reaches(s, s') && Sound(s') && Unmoved(s, s') && Abroad(s') == {}
    decreases |Abroad(s)|
  {
    hide Inv, Ranked, Reaches, Step;
    if Abroad(s) == {} {
      ReachesStep(s, Wait);
      return s;
    }
    var k :| k in Abroad(s);
    var s1 := ThreadHome(s, k);
    FewerAbroad(s, s1, k);
    s' := AllHome(s1);
    ReachesOn(s, s1, s');
  }

  lemma FewerAbroad<T>(s: State<T>, s': State<T>, k: nat)
    requires Aside(s, s', k) && k in Abroad(s) && Home(s'.threads[k].pc)
    ensures |Abroad(s')| < |Abroad(s)|
  {
    assert Abroad(s') == Abroad(s) - {k} by {
      forall j ensures j in Abroad(s') <==> j in Abroad(s) - {k} {}
    }
  }

  // ---- And every task can be done ----

  /** With the workers at home, what is pending is what is queued. */
  lemma {:induction false} NothingInHand<T>(threads: seq<Thread<T>>)
    requires forall k | 0 <= k < |threads| :: Home(threads[k].pc)
    ensures OwedCount(threads) == 0
  {
    if threads != [] { NothingInHand(threads[..|threads| - 1]); }
  }

  lemma QueuedIsPending<T(!new)>(s: State<T>)
    requires Sound(s) && Ended(s) && Abroad(s) == {}
    ensures s.pending == |s.pool|
  {
    hide Conserves, Slots, Phases, Discipline, Placed, Ranked, OwedCount, Home;
    forall k | 0 <= k < |s.threads| ensures Home(s.threads[k].pc) { assert k !in Abroad(s); }
    NothingInHand(s.threads);
  }

  /** Work queued and the seeding thread not in the middle of it: some worker is in its loop. */
  lemma SomeoneIsThere<T(!new)>(s: State<T>) returns (k: nat)
    requires Sound(s) && Ended(s) && s.pending != 0
    ensures k < |s.threads| && !s.threads[k].pc.Exited?
  {
    hide Counts, Conserves, Discipline, Placed, Ranked;
    assert HasThread(s, 0);
    k :| 0 <= k < |s.threads| && Holds(s.threads[k], 0);
  }

  /** A worker at home takes one task and sees it through. */
  lemma OneTask<T(!new)>(s: State<T>, k: nat) returns (s': State<T>)
    requires Sound(s) && Ended(s) && !s.stop && s.pool != [] && k < |s.threads| && s.threads[k].pc.LoopHead? && Abroad(s) == {}
    ensures Reaches(s, s') && Sound(s') && s'.outside == s.outside && s'.pending == s.pending - 1 && s'.stop == s.stop
  {
    hide Inv, Ranked, Reaches, Abroad, Without;
    var s1 := Step(s, WorkerStep(k, Go));
    ReachesStep(s, WorkerStep(k, Go));
    StepSound(s, WorkerStep(k, Go));
    ScanFinds(s1, k);
    var s2 :| Reaches(s1, s2) && Found(s1, s2, k);
    SoundAlong(s1, s2);
    var s3 := Step(s2, WorkerStep(k, Go));
    ReachesStep(s2, WorkerStep(k, Go));
    StepSound(s2, WorkerStep(k, Go));
    s' := Step(s3, WorkerStep(k, Go));
    ReachesStep(s3, WorkerStep(k, Go));
    StepSound(s3, WorkerStep(k, Go));
    ReachesOn(s, s1, s2);
    ReachesOn(s, s2, s3);
    ReachesOn(s, s3, s');
  }

  lemma SoundAlong<T(!new)>(s: State<T>, s': State<T>)
    requires Sound(s) && Reaches(s, s')
    ensures Sound(s')
  {
    var acts :| Steps(s, acts) == s';
    SoundSteps(s, acts);
  }

  lemma {:induction false} SoundSteps<T(!new)>(s: State<T>, acts: seq<Action<T>>)
    requires Sound(s)
    ensures Sound(Steps(s, acts))
    decreases |acts|
  {
    hide Sound, Step;
    if acts != [] {
      StepSound(s, acts[0]);
      SoundSteps(Step(s, acts[0]), acts[1..]);
    }
  }

  lemma {:induction false} AllDone<T(!new)>(s: State<T>) returns (s': State<T>)
    requires Sound(s) && Ended(s) && s.pending >= 0
    ensures Reaches(s, s') && Sound(s') && s'.outside == s.outside && s'.pending == 0 && Abroad(s') == {}
    decreases s.pending
  {
    hide Inv, Ranked, Reaches, Abroad, Step, Ended;
    var s1 := AllHome(s);
    EndedIs(s, s1);
    QueuedIsPending(s1);
    if s1.pending == 0 { return s1; }
    var k := SomeoneIsThere(s1);
    AtLoopHead(s1, k);
    var s2 := OneTask(s1, k);
    EndedIs(s1, s2);
    s' := AllDone(s2);
    ReachesOn(s, s1, s2);
    ReachesOn(s, s2, s');
  }

  lemma EndedIs<T>(s: State<T>, s': State<T>)
    requires s'.outside == s.outside
    ensures Ended(s') <==> Ended(s)
  {
  }

  lemma AtLoopHead<T(!new)>(s: State<T>, k: nat)
    requires Sound(s) && Abroad(s) == {} && k < |s.threads| && !s.threads[k].pc.Exited? && s.pending != 0
    ensures s.threads[k].pc.LoopHead? && !s.stop
  {
    assert k !in Abroad(s);
  }

  // ---- And Wait can return ----

  ghost function Looping<T>(s: State<T>): set<int> {
    set k | 0 <= k < |s.threads| && !s.threads[k].pc.Exited?
  }

  lemma OneExits<T>(s: State<T>, k: nat)
    requires s.stop && k in Looping(s) && s.threads[k].pc.LoopHead? && Abroad(s) == {}
    ensures var s' := Step(s, WorkerStep(k, Go));
      Looping(s') == Looping(s) - {k} && Abroad(s') == {} && s'.stop && s'.outside == s.outside && s'.maxWorkers == s.maxWorkers
  {
    var s' := Step(s, WorkerStep(k, Go));
    assert s' == WithPc(s, k, Exited);
    forall j ensures j in Looping(s') <==> j in Looping(s) - {k} {}
    forall j | 0 <= j < |s'.threads| ensures Home(s'.threads[j].pc) { assert j !in Abroad(s); }
  }

  /** Once told to stop, workers at home leave. */
  lemma {:induction false} AllExit<T(!new)>(s: State<T>) returns (s': State<T>)
    requires Sound(s) && s.stop && Abroad(s) == {}
    ensures Reaches(s, s') && Sound(s') && s'.stop && s'.outside == s.outside && s'.maxWorkers == s.maxWorkers
    ensures forall k | 0 <= k < |s'.threads| :: s'.threads[k].pc.Exited?
    decreases |Looping(s)|
  {
    hide Inv, Ranked, Reaches, Step;
    if Looping(s) == {} {
      ReachesStep(s, Wait);
      forall k | 0 <= k < |s.threads| ensures s.threads[k].pc.Exited? { assert k !in Looping(s); }
      return s;
    }
    var k :| k in Looping(s);
    assert k !in Abroad(s);
    OneExits(s, k);
    var s1 := Step(s, WorkerStep(k, Go));
    StepSound(s, WorkerStep(k, Go));
    ReachesStep(s, WorkerStep(k, Go));
    s' := AllExit(s1);
    ReachesOn(s, s1, s');
  }

  /** With every thread gone the joins go through. */
  lemma {:induction false} Joins<T(!new)>(s: State<T>) returns (s': State<T>)
    requires Sound(s) && s.outside.Joining? && s.outside.slot <= s.maxWorkers
    requires forall k | 0 <= k < |s.threads| :: s.threads[k].pc.Exited?
    ensures Reaches(s, s') && s'.outside.Returned?
    decreases s.maxWorkers - s.outside.slot
  {
    hide Inv, Ranked, Reaches, WorkerNext;
    var s1 := Step(s, OutsideStep(Go));
    StepSound(s, OutsideStep(Go));
    ReachesStep(s, OutsideStep(Go));
    if s.outside.slot == s.maxWorkers { return s1; }
    assert forall t | t in s.threads :: t.pc.Exited?;
    s' := Joins(s1);
    ReachesOn(s, s1, s');
  }

  lemma JoiningWithin<T(!new)>(s: State<T>)
    requires Sound(s) && s.outside.Joining?
    ensures s.stop && s.outside.slot <= s.maxWorkers
  {
  }

  lemma ToReturned<T(!new)>(s: State<T>) returns (s': State<T>)
    requires Sound(s) && Ended(s) && s.pending == 0 && Abroad(s) == {}
    ensures Reaches(s, s') && s'.outside.Returned?
    decreases if s.outside.Waiting? then 2 else if s.outside.Stopping? then 1 else 0
  {
    hide Inv, Ranked, Reaches, WorkerNext, Abroad;
    if s.outside.Returned? {
      ReachesStep(s, Wait);
      return s;
    }
    if s.outside.Joining? {
      JoiningWithin(s);
      var s1 := AllExit(s);
      s' := Joins(s1);
      ReachesOn(s, s1, s');
    } else {
      var s1 := Step(s, OutsideStep(Go));
      SameAbroad(s, s1);
      StepSound(s, OutsideStep(Go));
      ReachesStep(s, OutsideStep(Go));
      s' := ToReturned(s1);
      ReachesOn(s, s1, s');
    }
  }

  lemma SameAbroad<T>(s: State<T>, s': State<T>)
    requires s'.threads == s.threads
    ensures Abroad(s') == Abroad(s)
  {
  }

  lemma {:induction false} RunGoesOn<T(!new)>(workerCount: nat, priorities: nat, run: seq<State<T>>, acts: seq<Action<T>>) returns (longer: seq<State<T>>)
    requires IsRun(workerCount, priorities, run)
    ensures IsRun(workerCount, priorities, longer) && run <= longer && Final(longer) == Steps(Final(run), acts)
    decreases |acts|
  {
    hide Step, Initial;
    if acts == [] { return run; }
    var next := run + [Step(Final(run), acts[0])];
    forall i | 0 <= i < |next| - 1 ensures Follows(next[i], next[i + 1]) {
      if i < |run| - 1 { assert Follows(run[i], run[i + 1]); }
    }
    longer := RunGoesOn(workerCount, priorities, next, acts[1..]);
  }

  /**
   * No deadlock: from any state of any run after the outside thread has called Wait there
   * is a way on in which every task gets done, every worker leaves and Wait returns.
   */
  lemma WaitCanReturn<T(!new)>(workerCount: nat, priorities: nat, run: seq<State<T>>)
    requires IsRun(workerCount, priorities, run) && Ended(Final(run))
    ensures exists longer :: IsRun(workerCount, priorities, longer) && run <= longer && Final(longer).outside.Returned?
  {
    hide IsRun, Inv, Ranked, Abroad, Steps;
    RunInv(workerCount, priorities, run);
    RunRanked(workerCount, priorities, run);
    var s := Final(run);
    NonNegative(s);
    var s1 := AllDone(s);
    EndedIs(s, s1);
    var s2 := ToReturned(s1);
    ReachesOn(s, s1, s2);
    var acts :| Steps(s, acts) == s2;
    var longer := RunGoesOn(workerCount, priorities, run, acts);
  }

  /**
   * Work is found: in any run, a worker at the head of its loop that moves by itself takes
   * a task if any is queued, and no more urgent one was.
   */
  lemma WorkIsFound<T(!new)>(workerCount: nat, priorities: nat, run: seq<State<T>>, k: nat)
    requires IsRun(workerCount, priorities, run)
    requires var s := Final(run); k < |s.threads| && s.threads[k].pc.LoopHead? && !s.stop && s.pool != []
    ensures exists s' :: Reaches(Step(Final(run), WorkerStep(k, Go)), s') && Found(Step(Final(run), WorkerStep(k, Go)), s', k)
    ensures Step(Final(run), WorkerStep(k, Go)).pool == Final(run).pool
  {
    hide IsRun, Inv, Ranked, Reaches, Found;
    RunInv(workerCount, priorities, run);
    RunRanked(workerCount, priorities, run);
    var s := Final(run);
    StepSound(s, WorkerStep(k, Go));
    ScanFinds(Step(s, WorkerStep(k, Go)), k);
  }
}
