/**
 * The task scheduler as an interleaving of its worker threads and the one thread that
 * seeds it and waits: every access to a counter, a flag or a queue is one step.
 * A queue operation is one step because the queue is linearizable (ConcurrentDeque):
 * Insert adds at the back, Take removes the back, Steal removes the front or gives up.
 */
module TaskScheduler {
  import opened Common

  /** A worker's own queue of one priority, or the queue outside submissions go to. */
  datatype QueueId =
    | Own(slot: nat, priority: nat)
    | Submitted(priority: nat)

  datatype Entry<T> = Entry(q: QueueId, task: T)

  /** Inside MaybeGrowThreads. `index` is the value of live_threads_ last seen. */
  datatype Growth =
    | Loading
    | Checking(index: nat)
    | Swapping(index: nat)
    | Spawning(index: nat)

  /** Inside WorkerLoop, with the task in hand. */
  datatype Pc<T> =
    | LoopHead
    | TryOwn(priority: nat)
    | TryVictim(priority: nat, victim: nat)
    | TrySubmitted(priority: nat)
    | Processing(task: T, taken: nat)
    | Counted(task: T, taken: nat, child: T, priority: nat)
    | Growing(task: T, taken: nat, growth: Growth)
    | Processed(task: T)
    | Exited

  /** A worker thread runs WorkerLoop on one slot for life. */
  datatype Thread<T> = Thread(slot: nat, pc: Pc<T>)

  /** The thread that owns the scheduler. */
  datatype Outside<T> =
    | Idle
    | OutsideCounted(task: T, priority: nat)
    | OutsideGrowing(growth: Growth)
    | Waiting
    | Stopping
    | Joining(slot: nat)
    | Returned

  datatype Actor = Seeder | Worker(thread: nat)
  datatype Kind = DidInsert | DidTake | DidSteal
  datatype Access = Access(who: Actor, q: QueueId, kind: Kind)

  /**
   * `pool` lists the contents of all queues, oldest insertion first, so that a queue's
   * front is its first entry and its back its last. `accepted` and `done` are the tasks
   * ever submitted and ever processed to the end; `accesses` is every queue call made.
   */
  datatype State<T> = State(
    maxWorkers: nat,
    priorities: nat,
    pending: int,
    stop: bool,
    live: nat,
    threads: seq<Thread<T>>,
    outside: Outside<T>,
    pool: seq<Entry<T>>,
    accepted: multiset<T>,
    done: multiset<T>,
    accesses: seq<Access>)

  /** How a step's open choice falls out. */
  datatype Choice<T> =
    | Go
    | GiveUp
    | SubmitChild(child: T, priority: nat)

  datatype Action<T> =
    | Submit(task: T, priority: nat)
    | Wait
    | OutsideStep(choice: Choice<T>)
    | WorkerStep(thread: nat, choice: Choice<T>)

  ghost function Initial<T>(workerCount: nat, priorities: nat): State<T>
  {
    State(if workerCount < 1 then 1 else workerCount, priorities, 0, false, 0, [], Idle, [], multiset{}, multiset{}, [])
  }

  /** Positions of the front and the back of queue `q` in the pool; -1 when it is empty. */
  ghost function Front<T>(pool: seq<Entry<T>>, q: QueueId): (i: int)
    ensures -1 <= i < |pool|
    ensures i >= 0 ==> pool[i].q == q && forall j | 0 <= j < i :: pool[j].q != q
    ensures i == -1 ==> forall j | 0 <= j < |pool| :: pool[j].q != q
  {
    if pool == [] then -1
    else if pool[0].q == q then 0
    else
      var i := Front(pool[1..], q);
      assert forall j | 1 <= j < |pool| :: pool[j] == pool[1..][j - 1];
      if i == -1 then -1 else i + 1
  }

  ghost function Back<T>(pool: seq<Entry<T>>, q: QueueId): (i: int)
    ensures -1 <= i < |pool|
    ensures i >= 0 ==> pool[i].q == q && forall j | i < j < |pool| :: pool[j].q != q
    ensures i == -1 ==> forall j | 0 <= j < |pool| :: pool[j].q != q
  {
    if pool == [] then -1
    else if pool[|pool| - 1].q == q then |pool| - 1
    else Back(pool[..|pool| - 1], q)
  }

  ghost function Without<T>(pool: seq<Entry<T>>, i: nat): seq<Entry<T>>
    requires i < |pool|
  {
    pool[..i] + pool[i + 1..]
  }

  /** AcquireNextTask goes on to the next priority, or finds nothing at all. */
  ghost function NextPriority<T>(s: State<T>, priority: nat): Pc<T> {
    if priority + 1 < s.priorities then TryOwn(priority + 1) else LoopHead
  }

  ghost function NextVictim<T>(s: State<T>, priority: nat, victim: nat): Pc<T> {
    if victim < s.maxWorkers then TryVictim(priority, victim) else TrySubmitted(priority)
  }

  ghost function WithPc<T>(s: State<T>, k: nat, pc: Pc<T>): State<T>
    requires k < |s.threads|
  {
    s.(threads := s.threads[k := s.threads[k].(pc := pc)])
  }

  /** Thread `k` calls Take or Steal on `q` and gets entry `i` of the pool, or nothing. */
  ghost function Claim<T>(s: State<T>, k: nat, q: QueueId, kind: Kind, i: int, otherwise: Pc<T>): State<T>
    requires k < |s.threads| && -1 <= i < |s.pool|
  {
    var s' := s.(accesses := s.accesses + [Access(Worker(k), q, kind)]);
    if i == -1 then WithPc(s', k, otherwise)
    else WithPc(s'.(pool := Without(s.pool, i)), k, Processing(s.pool[i].task, q.priority))
  }

  /** A steal loses its race only to another claim, so only when another worker exists. */
  ghost function StealFrom<T>(s: State<T>, q: QueueId, choice: Choice<T>): (i: int)
    ensures -1 <= i < |s.pool|
  {
    if choice.GiveUp? && 1 < |s.threads| then -1 else Front(s.pool, q)
  }

  /** One step of MaybeGrowThreads; None once it returns. The swap may fail spuriously. */
  ghost function Grow<T>(s: State<T>, g: Growth, spurious: bool): (State<T>, Option<Growth>) {
    match g
    case Loading => (s, Some(Checking(s.live)))
    case Checking(index) =>
      (s, if index < s.maxWorkers && s.pending != 0 then Some(Swapping(index)) else None)
    case Swapping(index) =>
      if s.live == index && !spurious then (s.(live := index + 1), Some(Spawning(index)))
      else (s, Some(Checking(s.live)))
    case Spawning(index) => (s.(threads := s.threads + [Thread(index, LoopHead)]), None)
  }

  ghost function WorkerNext<T>(s: State<T>, k: nat, choice: Choice<T>): State<T>
    requires k < |s.threads|
  {
    var me := s.threads[k];
    match me.pc
    case LoopHead => WithPc(s, k, if s.stop then Exited else TryOwn(0))
    case TryOwn(p) => Claim(s, k, Own(me.slot, p), DidTake, Back(s.pool, Own(me.slot, p)), NextVictim(s, p, 0))
    case TryVictim(p, v) =>
      if v == me.slot then WithPc(s, k, NextVictim(s, p, v + 1))
      else Claim(s, k, Own(v, p), DidSteal, StealFrom(s, Own(v, p), choice), NextVictim(s, p, v + 1))
    case TrySubmitted(p) =>
      Claim(s, k, Submitted(p), DidSteal, StealFrom(s, Submitted(p), choice), NextPriority(s, p))
    case Processing(task, taken) =>
      if choice.SubmitChild? && choice.priority < s.priorities then
        WithPc(s.(pending := s.pending + 1, accepted := s.accepted + multiset{choice.child}),
               k, Counted(task, taken, choice.child, choice.priority))
      else WithPc(s, k, Processed(task))
    case Counted(task, taken, child, p) =>
      WithPc(s.(pool := s.pool + [Entry(Own(me.slot, p), child)],
                accesses := s.accesses + [Access(Worker(k), Own(me.slot, p), DidInsert)]),
             k, Growing(task, taken, Loading))
    case Growing(task, taken, g) =>
      var (s', g') := Grow(s, g, choice.GiveUp?);
      WithPc(s', k, if g'.Some? then Growing(task, taken, g'.value) else Processing(task, taken))
    case Processed(task) =>
      WithPc(s.(pending := s.pending - 1, done := s.done + multiset{task}), k, LoopHead)
    case Exited => s
  }

  /** Inside AcquireNextTask. */
  ghost predicate Scans<T>(pc: Pc<T>) {
    pc.TryOwn? || pc.TryVictim? || pc.TrySubmitted?
  }

  ghost function OutsideNext<T>(s: State<T>, choice: Choice<T>): State<T> {
    match s.outside
    case OutsideCounted(task, p) =>
      s.(pool := s.pool + [Entry(Submitted(p), task)],
         accesses := s.accesses + [Access(Seeder, Submitted(p), DidInsert)],
         outside := OutsideGrowing(Loading))
    case OutsideGrowing(g) =>
      var (s', g') := Grow(s, g, choice.GiveUp?);
      s'.(outside := if g'.Some? then OutsideGrowing(g'.value) else Idle)
    case Waiting => if s.pending == 0 then s.(outside := Stopping) else s
    case Stopping => s.(stop := true, outside := Joining(0))
    case Joining(i) =>
      if i == s.maxWorkers then s.(outside := Returned)
      else if exists t | t in s.threads :: t.slot == i && !t.pc.Exited? then s
      else s.(outside := Joining(i + 1))
    case _ => s
  }

  ghost function Step<T>(s: State<T>, act: Action<T>): State<T> {
    match act
    case Submit(task, p) =>
      if s.outside.Idle? && !s.stop && p < s.priorities then
        s.(pending := s.pending + 1, accepted := s.accepted + multiset{task}, outside := OutsideCounted(task, p))
      else s
    case Wait => if s.outside.Idle? then s.(outside := Waiting) else s
    case OutsideStep(choice) => OutsideNext(s, choice)
    case WorkerStep(k, choice) => if k < |s.threads| then WorkerNext(s, k, choice) else s
  }

  ghost predicate Follows<T(!new)>(s: State<T>, s': State<T>) {
    exists act :: s' == Step(s, act)
  }

  /** The states of any interleaving of the outside thread and the workers. */
  ghost predicate IsRun<T(!new)>(workerCount: nat, priorities: nat, run: seq<State<T>>) {
    && 1 <= priorities && run != [] && run[0] == Initial(workerCount, priorities)
    && forall i | 0 <= i < |run| - 1 :: Follows(run[i], run[i + 1])
  }

  // ---- What each thread still owes the counter ----

  /** Tasks a worker has claimed or counted and not yet decremented or queued. */
  ghost function OwedBy<T>(pc: Pc<T>): multiset<T> {
    match pc
    case Processing(task, _) => multiset{task}
    case Counted(task, _, child, _) => multiset{task, child}
    case Growing(task, _, _) => multiset{task}
    case Processed(task) => multiset{task}
    case _ => multiset{}
  }

  ghost function Owed<T>(threads: seq<Thread<T>>): multiset<T> {
    if threads == [] then multiset{}
    else Owed(threads[..|threads| - 1]) + OwedBy(threads[|threads| - 1].pc)
  }

  ghost function OwedCount<T>(threads: seq<Thread<T>>): nat {
    if threads == [] then 0
    else OwedCount(threads[..|threads| - 1]) + |OwedBy(threads[|threads| - 1].pc)|
  }

  ghost function OwedOutside<T>(outside: Outside<T>): multiset<T> {
    if outside.OutsideCounted? then multiset{outside.task} else multiset{}
  }

  ghost function Tasks<T>(pool: seq<Entry<T>>): multiset<T> {
    if pool == [] then multiset{} else Tasks(pool[..|pool| - 1]) + multiset{pool[|pool| - 1].task}
  }

  /** The counter is what is queued, counted but not yet queued, and claimed but not yet done. */
  ghost predicate Counts<T>(s: State<T>) {
    s.pending == |s.pool| + OwedCount(s.threads) + |OwedOutside(s.outside)|
  }

  /** And task by task, nothing accepted goes missing or is done twice. */
  ghost predicate Conserves<T(!new)>(s: State<T>) {
    forall e: T :: s.accepted[e] == s.done[e] + Outstanding(s, e)
  }

  ghost function Outstanding<T>(s: State<T>, e: T): nat {
    Tasks(s.pool)[e] + Owed(s.threads)[e] + OwedOutside(s.outside)[e]
  }

  // ---- Which slots have been given out ----

  /** The slot a growth in progress has won but not yet started a thread on. */
  ghost function Spawns(g: Growth): Option<nat> {
    if g.Spawning? then Some(g.index) else None
  }

  ghost function SpawnOf<T>(pc: Pc<T>): Option<nat> {
    if pc.Growing? then Spawns(pc.growth) else None
  }

  ghost function OutsideSpawn<T>(outside: Outside<T>): Option<nat> {
    if outside.OutsideGrowing? then Spawns(outside.growth) else None
  }

  /** No slot is run by two threads, or run by one and about to be started by another. */
  ghost predicate Slots<T>(s: State<T>) {
    && 1 <= s.maxWorkers && s.live <= s.maxWorkers
    && (forall i | 0 <= i < |s.threads| :: s.threads[i].slot < s.live)
    && (forall i, j | 0 <= i < j < |s.threads| :: s.threads[i].slot != s.threads[j].slot)
    && (forall i, j | 0 <= i < |s.threads| && 0 <= j < |s.threads| ::
          SpawnOf(s.threads[i].pc) != Some(s.threads[j].slot))
    && (forall i | 0 <= i < |s.threads| && SpawnOf(s.threads[i].pc).Some? ::
          SpawnOf(s.threads[i].pc).value < s.live)
    && (forall i, j | 0 <= i < j < |s.threads| && SpawnOf(s.threads[i].pc).Some? ::
          SpawnOf(s.threads[i].pc) != SpawnOf(s.threads[j].pc))
    && (forall i | 0 <= i < |s.threads| :: OutsideSpawn(s.outside) != Some(s.threads[i].slot))
    && (forall i | 0 <= i < |s.threads| && SpawnOf(s.threads[i].pc).Some? ::
          OutsideSpawn(s.outside) != SpawnOf(s.threads[i].pc))
    && (OutsideSpawn(s.outside).Some? ==> OutsideSpawn(s.outside).value < s.live)
    && forall i: nat | i < s.live :: HasThread(s, i)
  }

  /** Slot `i` has its thread, or whoever won it is about to start one. */
  ghost predicate HasThread<T>(s: State<T>, i: nat) {
    || OutsideSpawn(s.outside) == Some(i)
    || exists k | 0 <= k < |s.threads| :: Holds(s.threads[k], i)
  }

  ghost predicate Holds<T>(t: Thread<T>, i: nat) {
    t.slot == i || SpawnOf(t.pc) == Some(i)
  }

  /** The outside thread in the middle of a Submit, which will not return before growing. */
  ghost predicate Submitting<T>(s: State<T>) {
    s.outside.OutsideCounted? || s.outside.OutsideGrowing?
  }

  ghost predicate Ended<T>(s: State<T>) {
    s.outside.Waiting? || s.outside.Stopping? || s.outside.Joining? || s.outside.Returned?
  }

  ghost predicate Phases<T>(s: State<T>) {
    && 1 <= s.priorities
    && (s.stop <==> s.outside.Joining? || s.outside.Returned?)
    && (s.stop || s.outside.Stopping? ==> s.pending == 0)
    && (s.live == 0 && s.pending != 0 ==> Submitting(s))
    && (s.live == 0 && s.outside.OutsideGrowing? ==> s.pending != 0)
    && (s.outside.OutsideGrowing? && s.outside.growth.Checking? ==> s.outside.growth.index <= s.live)
    && (s.outside.OutsideGrowing? && s.outside.growth.Swapping? ==> s.outside.growth.index < s.maxWorkers)
    && (forall k | 0 <= k < |s.threads| && s.threads[k].pc.Growing? && s.threads[k].pc.growth.Swapping? ::
          s.threads[k].pc.growth.index < s.maxWorkers)
    && (s.outside.Joining? ==> s.outside.slot <= s.maxWorkers && AllExited(s, s.outside.slot))
    && (s.outside.Returned? ==> AllExited(s, s.maxWorkers))
    && (forall k | 0 <= k < |s.threads| && s.threads[k].pc.Exited? :: s.stop)
  }

  /** Every thread on a slot below `bound` has left its loop. */
  ghost predicate AllExited<T>(s: State<T>, bound: nat) {
    forall k | 0 <= k < |s.threads| && s.threads[k].slot < bound :: s.threads[k].pc.Exited?
  }

  /** Who calls what: owners insert into and take from their own queues, thieves steal from others. */
  ghost predicate Discipline<T>(s: State<T>) {
    forall a | a in s.accesses :: Allowed(s.threads, a)
  }

  ghost predicate Allowed<T>(threads: seq<Thread<T>>, a: Access) {
    match a.q
    case Own(slot, _) =>
      && a.who.Worker? && a.who.thread < |threads|
      && (a.kind.DidSteal? <==> threads[a.who.thread].slot != slot)
    case Submitted(_) =>
      (a.kind.DidInsert? && a.who.Seeder?) || (a.kind.DidSteal? && a.who.Worker?)
  }

  /** Only a slot that was given out has anything in its queues. */
  ghost predicate Placed<T>(s: State<T>) {
    forall e | e in s.pool && e.q.Own? :: e.q.slot < s.live
  }

  ghost predicate Inv<T(!new)>(s: State<T>) {
    Counts(s) && Conserves(s) && Slots(s) && Phases(s) && Discipline(s) && Placed(s)
  }

  // ---- Accounting ----

  lemma {:induction false} OwedUpdate<T>(threads: seq<Thread<T>>, k: nat, t: Thread<T>, e: T)
    requires k < |threads|
    ensures Owed(threads[k := t])[e] + OwedBy(threads[k].pc)[e] == Owed(threads)[e] + OwedBy(t.pc)[e]
  {
    hide OwedBy;
    var n := |threads| - 1;
    if k == n {
      assert threads[k := t][..n] == threads[..n];
    } else {
      assert threads[k := t][..n] == threads[..n][k := t];
      OwedUpdate(threads[..n], k, t, e);
    }
  }

  lemma {:induction false} OwedCountUpdate<T>(threads: seq<Thread<T>>, k: nat, t: Thread<T>)
    requires k < |threads|
    ensures OwedCount(threads[k := t]) + |OwedBy(threads[k].pc)| == OwedCount(threads) + |OwedBy(t.pc)|
  {
    hide OwedBy;
    var n := |threads| - 1;
    if k == n {
      assert threads[k := t][..n] == threads[..n];
    } else {
      assert threads[k := t][..n] == threads[..n][k := t];
      OwedCountUpdate(threads[..n], k, t);
    }
  }

  lemma OwedAppend<T>(threads: seq<Thread<T>>, t: Thread<T>)
    requires OwedBy(t.pc) == multiset{}
    ensures Owed(threads + [t]) == Owed(threads) && OwedCount(threads + [t]) == OwedCount(threads)
  {
    assert (threads + [t])[..|threads|] == threads;
  }

  lemma {:induction false} TasksWithout<T>(pool: seq<Entry<T>>, i: nat, e: T)
    requires i < |pool|
    ensures Tasks(Without(pool, i))[e] + multiset{pool[i].task}[e] == Tasks(pool)[e]
  {
    hide Without;
    var n := |pool| - 1;
    WithoutFromEnd(pool, i);
    if i < n { TasksWithout(pool[..n], i, e); }
  }

  lemma WithoutFromEnd<T>(pool: seq<Entry<T>>, i: nat)
    requires i < |pool|
    ensures var n := |pool| - 1; var rest := Without(pool, i);
      && |rest| == n
      && (i == n ==> rest == pool[..n])
      && (i < n ==> rest[..n - 1] == Without(pool[..n], i) && rest[n - 1] == pool[n])
  {
  }

  lemma TasksAppend<T>(pool: seq<Entry<T>>, e: Entry<T>)
    ensures Tasks(pool + [e]) == Tasks(pool) + multiset{e.task}
  {
    assert (pool + [e])[..|pool|] == pool;
  }

  /** A worker's step balances when what it owes changes by what enters or leaves the rest. */
  lemma Balanced<T(!new)>(s: State<T>, s': State<T>, k: nat, added: multiset<T>, finished: multiset<T>)
    requires Counts(s) && Conserves(s) && k < |s.threads| && s'.outside == s.outside
    requires |s'.threads| == |s.threads| && s'.threads == s.threads[k := s'.threads[k]]
    requires |s'.pool| + |OwedBy(s'.threads[k].pc)| + |finished| == |s.pool| + |OwedBy(s.threads[k].pc)| + |added|
    requires forall e: T :: Tasks(s'.pool)[e] + OwedBy(s'.threads[k].pc)[e] + finished[e]
                         == Tasks(s.pool)[e] + OwedBy(s.threads[k].pc)[e] + added[e]
    requires s'.pending == s.pending + |added| - |finished|
    requires s'.accepted == s.accepted + added && s'.done == s.done + finished
    ensures Counts(s') && Conserves(s')
  {
    hide Owed, OwedBy, OwedCount, Tasks;
    forall e: T ensures s'.accepted[e] == s'.done[e] + Outstanding(s', e) {
      OwedUpdate(s.threads, k, s'.threads[k], e);
      assert s.accepted[e] == s.done[e] + Outstanding(s, e);
    }
    OwedCountUpdate(s.threads, k, s'.threads[k]);
  }

  lemma ClaimAccounting<T(!new)>(s: State<T>, k: nat, q: QueueId, kind: Kind, i: int, otherwise: Pc<T>)
    requires Counts(s) && Conserves(s) && k < |s.threads| && -1 <= i < |s.pool|
    requires OwedBy(s.threads[k].pc) == OwedBy(otherwise) == multiset{}
    ensures Counts(Claim(s, k, q, kind, i, otherwise)) && Conserves(Claim(s, k, q, kind, i, otherwise))
  {
    hide Owed, OwedCount, Tasks;
    if i != -1 {
      forall e: T { TasksWithout(s.pool, i, e); }
    }
    Balanced(s, Claim(s, k, q, kind, i, otherwise), k, multiset{}, multiset{});
  }

  /** A step that only moves a worker's program counter. */
  lemma Quiet<T(!new)>(s: State<T>, s': State<T>, k: nat)
    requires Counts(s) && Conserves(s) && k < |s.threads|
    requires |s'.threads| == |s.threads| && s'.threads == s.threads[k := s'.threads[k]]
    requires OwedBy(s'.threads[k].pc) == OwedBy(s.threads[k].pc)
    requires s'.outside == s.outside && s'.pool == s.pool && s'.pending == s.pending
    requires s'.accepted == s.accepted && s'.done == s.done
    ensures Counts(s') && Conserves(s')
  {
    hide Owed, OwedBy, OwedCount, Tasks;
    Balanced(s, s', k, multiset{}, multiset{});
  }

  lemma SubmitChildAccounting<T(!new)>(s: State<T>, k: nat, choice: Choice<T>)
    requires Counts(s) && Conserves(s) && k < |s.threads| && s.threads[k].pc.Processing?
    requires choice.SubmitChild? && choice.priority < s.priorities
    ensures Counts(WorkerNext(s, k, choice)) && Conserves(WorkerNext(s, k, choice))
  {
    hide Owed, OwedCount, Tasks;
    Balanced(s, WorkerNext(s, k, choice), k, multiset{choice.child}, multiset{});
  }

  lemma QueueChildAccounting<T(!new)>(s: State<T>, k: nat, choice: Choice<T>)
    requires Counts(s) && Conserves(s) && k < |s.threads| && s.threads[k].pc.Counted?
    ensures Counts(WorkerNext(s, k, choice)) && Conserves(WorkerNext(s, k, choice))
  {
    hide Owed, OwedCount, Tasks;
    var Counted(task, taken, child, p) := s.threads[k].pc;
    TasksAppend(s.pool, Entry(Own(s.threads[k].slot, p), child));
    Balanced(s, WorkerNext(s, k, choice), k, multiset{}, multiset{});
  }

  lemma FinishAccounting<T(!new)>(s: State<T>, k: nat, choice: Choice<T>)
    requires Counts(s) && Conserves(s) && k < |s.threads| && s.threads[k].pc.Processed?
    ensures Counts(WorkerNext(s, k, choice)) && Conserves(WorkerNext(s, k, choice))
  {
    hide Owed, OwedCount, Tasks;
    Balanced(s, WorkerNext(s, k, choice), k, multiset{}, multiset{s.threads[k].pc.task});
  }

  /** Starting a thread owes nothing yet. */
  lemma SpawnAccounting<T(!new)>(s: State<T>, index: nat)
    requires Counts(s) && Conserves(s)
    ensures var s' := s.(threads := s.threads + [Thread(index, LoopHead)]); Counts(s') && Conserves(s')
  {
    hide Owed, OwedCount, Tasks;
    OwedAppend(s.threads, Thread(index, LoopHead));
    var s' := s.(threads := s.threads + [Thread(index, LoopHead)]);
    forall e: T ensures s'.accepted[e] == s'.done[e] + Outstanding(s', e) {
      assert s.accepted[e] == s.done[e] + Outstanding(s, e);
    }
  }

  lemma GrowThreads<T>(s: State<T>, g: Growth, spurious: bool)
    ensures s.threads <= Grow(s, g, spurious).0.threads
  {
  }

  /** A worker inside MaybeGrowThreads keeps its task. */
  lemma GrowMoves<T>(s: State<T>, k: nat, choice: Choice<T>) returns (pc: Pc<T>)
    requires k < |s.threads| && s.threads[k].pc.Growing?
    ensures var grown := Grow(s, s.threads[k].pc.growth, choice.GiveUp?).0;
      && s.threads <= grown.threads && OwedBy(pc) == OwedBy(s.threads[k].pc) && (pc.Growing? || pc.Processing?)
      && WorkerNext(s, k, choice) == WithPc(grown, k, pc)
  {
    hide Grow, Front, Back, StealFrom, Claim, WithPc;
    var Growing(task, taken, g) := s.threads[k].pc;
    GrowThreads(s, g, choice.GiveUp?);
    var next := Grow(s, g, choice.GiveUp?).1;
    pc := if next.Some? then Growing(task, taken, next.value) else Processing(task, taken);
  }

  lemma WorkerGrowAccounting<T(!new)>(s: State<T>, k: nat, choice: Choice<T>)
    requires Counts(s) && Conserves(s) && k < |s.threads| && s.threads[k].pc.Growing?
    ensures Counts(WorkerNext(s, k, choice)) && Conserves(WorkerNext(s, k, choice))
  {
    hide Counts, Conserves, WorkerNext, Grow, OwedBy;
    var grown := Grow(s, s.threads[k].pc.growth, choice.GiveUp?).0;
    GrowAccounting(s, s.threads[k].pc.growth, choice.GiveUp?);
    var pc := GrowMoves(s, k, choice);
    assert grown.threads[k] == s.threads[k];
    Quiet(grown, WithPc(grown, k, pc), k);
  }

  /** One look of AcquireNextTask: at nothing, or at entry `i` of the queue `q`. */
  lemma Look<T>(s: State<T>, k: nat, choice: Choice<T>) returns (skips: bool, q: QueueId, kind: Kind, i: int, otherwise: Pc<T>)
    requires k < |s.threads| && Scans(s.threads[k].pc)
    ensures OwedBy(s.threads[k].pc) == OwedBy(otherwise) == multiset{} && -1 <= i < |s.pool|
    ensures Scans(otherwise) || otherwise.LoopHead?
    ensures WorkerNext(s, k, choice) == if skips then WithPc(s, k, otherwise) else Claim(s, k, q, kind, i, otherwise)
  {
    hide Claim, WithPc, Front, Back, StealFrom, Grow;
    var me := s.threads[k];
    match me.pc
    case TryOwn(p) =>
      skips, q, kind, i, otherwise := false, Own(me.slot, p), DidTake, Back(s.pool, Own(me.slot, p)), NextVictim(s, p, 0);
    case TryVictim(p, v) =>
      skips, q, kind, i, otherwise := v == me.slot, Own(v, p), DidSteal, StealFrom(s, Own(v, p), choice), NextVictim(s, p, v + 1);
    case TrySubmitted(p) =>
      skips, q, kind, i, otherwise := false, Submitted(p), DidSteal, StealFrom(s, Submitted(p), choice), NextPriority(s, p);
  }

  lemma ScanAccounting<T(!new)>(s: State<T>, k: nat, choice: Choice<T>)
    requires Counts(s) && Conserves(s) && k < |s.threads| && Scans(s.threads[k].pc)
    ensures Counts(WorkerNext(s, k, choice)) && Conserves(WorkerNext(s, k, choice))
  {
    hide Counts, Conserves, WorkerNext, Claim, OwedBy;
    var skips, q, kind, i, otherwise := Look(s, k, choice);
    if skips { Quiet(s, WithPc(s, k, otherwise), k); } else { ClaimAccounting(s, k, q, kind, i, otherwise); }
  }

  lemma WorkerAccounting<T(!new)>(s: State<T>, k: nat, choice: Choice<T>)
    requires Counts(s) && Conserves(s) && k < |s.threads|
    ensures Counts(WorkerNext(s, k, choice)) && Conserves(WorkerNext(s, k, choice))
  {
    hide Owed, OwedBy, OwedCount, Tasks, Counts, Conserves, Claim, Grow, Front, Back, StealFrom, WorkerNext;
    var pc := s.threads[k].pc;
    if Scans(pc) { ScanAccounting(s, k, choice); }
    else if pc.Growing? { WorkerGrowAccounting(s, k, choice); }
    else if pc.Counted? { QueueChildAccounting(s, k, choice); }
    else if pc.Processed? { FinishAccounting(s, k, choice); }
    else if pc.Processing? && choice.SubmitChild? && choice.priority < s.priorities { SubmitChildAccounting(s, k, choice); }
    else if !pc.Exited? {
      var pc' := WorkerQuietStep(s, k, choice);
      QuietPc(s, k, pc');
    } else {
      ExitedRests(s, k, choice);
    }
  }

  lemma ExitedRests<T>(s: State<T>, k: nat, choice: Choice<T>)
    requires k < |s.threads| && s.threads[k].pc.Exited?
    ensures WorkerNext(s, k, choice) == s
  {
  }

  lemma WorkerQuietStep<T>(s: State<T>, k: nat, choice: Choice<T>) returns (pc: Pc<T>)
    requires k < |s.threads|
    requires s.threads[k].pc.LoopHead?
          || (s.threads[k].pc.Processing? && !(choice.SubmitChild? && choice.priority < s.priorities))
    ensures WorkerNext(s, k, choice) == WithPc(s, k, pc) && OwedBy(pc) == OwedBy(s.threads[k].pc)
  {
    hide Claim, Grow, Front, Back, StealFrom;
    pc := if s.threads[k].pc.Processing? then Processed(s.threads[k].pc.task) else if s.stop then Exited else TryOwn(0);
  }

  lemma QuietPc<T(!new)>(s: State<T>, k: nat, pc: Pc<T>)
    requires Counts(s) && Conserves(s) && k < |s.threads|
    requires OwedBy(pc) == OwedBy(s.threads[k].pc)
    ensures Counts(WithPc(s, k, pc)) && Conserves(WithPc(s, k, pc))
  {
    hide Owed, OwedBy, OwedCount, Tasks, Counts, Conserves;
    Quiet(s, WithPc(s, k, pc), k);
  }

  lemma GrowAccounting<T(!new)>(s: State<T>, g: Growth, spurious: bool)
    requires Counts(s) && Conserves(s)
    ensures Counts(Grow(s, g, spurious).0) && Conserves(Grow(s, g, spurious).0)
  {
    hide Owed, OwedCount, OwedOutside, Tasks, Counts, Conserves;
    if g.Spawning? { SpawnAccounting(s, g.index); }
    else { OutsideQuiet(s, Grow(s, g, spurious).0); }
  }

  /** A step of the outside thread that queues nothing and counts nothing. */
  lemma OutsideQuiet<T(!new)>(s: State<T>, s': State<T>)
    requires Counts(s) && Conserves(s)
    requires OwedOutside(s'.outside) == OwedOutside(s.outside)
    requires s'.threads == s.threads && s'.pool == s.pool && s'.pending == s.pending
    requires s'.accepted == s.accepted && s'.done == s.done
    ensures Counts(s') && Conserves(s')
  {
    hide Owed, OwedCount, Tasks, OwedOutside;
    forall e: T ensures s'.accepted[e] == s'.done[e] + Outstanding(s', e) {
      assert s.accepted[e] == s.done[e] + Outstanding(s, e);
    }
  }

  lemma OutsideQueueAccounting<T(!new)>(s: State<T>, choice: Choice<T>)
    requires Counts(s) && Conserves(s) && s.outside.OutsideCounted?
    ensures Counts(OutsideNext(s, choice)) && Conserves(OutsideNext(s, choice))
  {
    hide Owed, OwedCount, Tasks;
    var s' := OutsideNext(s, choice);
    TasksAppend(s.pool, Entry(Submitted(s.outside.priority), s.outside.task));
    forall e: T ensures s'.accepted[e] == s'.done[e] + Outstanding(s', e) {
      assert s.accepted[e] == s.done[e] + Outstanding(s, e);
    }
  }

  lemma SubmitAccounting<T(!new)>(s: State<T>, task: T, p: nat)
    requires Counts(s) && Conserves(s)
    ensures Counts(Step(s, Submit(task, p))) && Conserves(Step(s, Submit(task, p)))
  {
    hide Owed, OwedCount, Tasks;
    var s' := Step(s, Submit(task, p));
    forall e: T ensures s'.accepted[e] == s'.done[e] + Outstanding(s', e) {
      assert s.accepted[e] == s.done[e] + Outstanding(s, e);
    }
  }

  lemma OutsideAccounting<T(!new)>(s: State<T>, choice: Choice<T>)
    requires Counts(s) && Conserves(s)
    ensures Counts(OutsideNext(s, choice)) && Conserves(OutsideNext(s, choice))
  {
    hide Owed, OwedCount, Tasks, Counts, Conserves, Grow;
    if s.outside.OutsideCounted? { OutsideQueueAccounting(s, choice); }
    else if s.outside.OutsideGrowing? { OutsideGrowAccounting(s, choice); }
    else { OutsideQuiet(s, OutsideNext(s, choice)); }
  }

  lemma OutsideGrowAccounting<T(!new)>(s: State<T>, choice: Choice<T>)
    requires Counts(s) && Conserves(s) && s.outside.OutsideGrowing?
    ensures Counts(OutsideNext(s, choice)) && Conserves(OutsideNext(s, choice))
  {
    hide Owed, OwedCount, Tasks, Counts, Conserves;
    var s1 := Grow(s, s.outside.growth, choice.GiveUp?).0;
    GrowAccounting(s, s.outside.growth, choice.GiveUp?);
    assert OutsideNext(s, choice) == s1.(outside := OutsideNext(s, choice).outside);
    OutsideQuiet(s1, OutsideNext(s, choice));
  }

  lemma StepInv<T(!new)>(s: State<T>, act: Action<T>)
    requires Inv(s)
    ensures Inv(Step(s, act))
  {
    StepAccounting(s, act);
    StepSlots(s, act);
    StepPhases(s, act);
    StepDiscipline(s, act);
    StepPlaced(s, act);
  }

  lemma StepPlaced<T>(s: State<T>, act: Action<T>)
    requires Slots(s) && Placed(s)
    ensures Placed(Step(s, act))
  {
    hide WorkerNext, HasThread;
    if act.WorkerStep? && act.thread < |s.threads| {
      WorkerPool(s, act.thread, act.choice);
    }
  }

  /** A worker's step takes out entries and puts in none but on its own slot. */
  lemma WorkerPool<T>(s: State<T>, k: nat, choice: Choice<T>)
    requires k < |s.threads|
    ensures var s' := WorkerNext(s, k, choice);
      s.live <= s'.live && forall e | e in s'.pool :: e in s.pool || (e.q.Own? && e.q.slot == s.threads[k].slot)
  {
    hide Front, Back, StealFrom, Claim;
    match s.threads[k].pc
    case TryOwn(p) =>
      ClaimPool(s, k, Own(s.threads[k].slot, p), DidTake, Back(s.pool, Own(s.threads[k].slot, p)), NextVictim(s, p, 0));
    case TryVictim(p, v) =>
      if v != s.threads[k].slot {
        ClaimPool(s, k, Own(v, p), DidSteal, StealFrom(s, Own(v, p), choice), NextVictim(s, p, v + 1));
      }
    case TrySubmitted(p) =>
      ClaimPool(s, k, Submitted(p), DidSteal, StealFrom(s, Submitted(p), choice), NextPriority(s, p));
    case _ =>
  }

  lemma ClaimPool<T>(s: State<T>, k: nat, q: QueueId, kind: Kind, i: int, otherwise: Pc<T>)
    requires k < |s.threads| && -1 <= i < |s.pool|
    ensures var s' := Claim(s, k, q, kind, i, otherwise);
      s'.live == s.live && forall e | e in s'.pool :: e in s.pool
  {
  }

  lemma StepAccounting<T(!new)>(s: State<T>, act: Action<T>)
    requires Counts(s) && Conserves(s)
    ensures Counts(Step(s, act)) && Conserves(Step(s, act))
  {
    hide Owed, OwedCount, Tasks, Counts, Conserves;
    match act
    case Submit(task, p) => SubmitAccounting(s, task, p);
    case Wait => OutsideQuiet(s, Step(s, act));
    case OutsideStep(choice) => OutsideAccounting(s, choice);
    case WorkerStep(k, choice) => if k < |s.threads| { WorkerAccounting(s, k, choice); }
  }

  // ---- Slots ----

  lemma {:induction false} SlotsMoved<T>(s: State<T>, s': State<T>, k: nat)
    requires Slots(s) && k < |s.threads|
    requires |s'.threads| == |s.threads| && s'.threads == s.threads[k := s'.threads[k]]
    requires s'.threads[k].slot == s.threads[k].slot && SpawnOf(s'.threads[k].pc) == SpawnOf(s.threads[k].pc)
    requires s'.live == s.live && s'.maxWorkers == s.maxWorkers && s'.outside == s.outside
    ensures Slots(s')
  {
    hide SpawnOf;
    forall i: nat | i < s'.live ensures HasThread(s', i) {
      assert HasThread(s, i);
      if j :| 0 <= j < |s.threads| && Holds(s.threads[j], i) {
        assert Holds(s'.threads[j], i);
      }
    }
  }

  /** Winning the swap gives out slot `live`, which nobody had. */
  lemma SlotWon<T>(s: State<T>, s': State<T>, k: nat)
    requires Slots(s) && k < |s.threads| && s.live < s.maxWorkers
    requires |s'.threads| == |s.threads| && s'.threads == s.threads[k := s'.threads[k]]
    requires s'.threads[k].slot == s.threads[k].slot
    requires SpawnOf(s.threads[k].pc) == None && SpawnOf(s'.threads[k].pc) == Some(s.live)
    requires s'.live == s.live + 1 && s'.maxWorkers == s.maxWorkers && s'.outside == s.outside
    ensures Slots(s')
  {
    hide SpawnOf;
    forall i: nat | i < s'.live ensures HasThread(s', i) {
      if i < s.live {
        assert HasThread(s, i);
        if j :| 0 <= j < |s.threads| && Holds(s.threads[j], i) {
          assert Holds(s'.threads[j], i);
        }
      } else {
        assert Holds(s'.threads[k], i);
      }
    }
  }

  /** The winner of a slot starts its thread, the first and only one there. */
  lemma SlotStarted<T>(s: State<T>, s': State<T>, k: nat, index: nat)
    requires Slots(s) && k < |s.threads|
    requires |s'.threads| == |s.threads| + 1
    requires s'.threads == s.threads[k := s'.threads[k]] + [Thread(index, LoopHead)]
    requires s'.threads[k].slot == s.threads[k].slot
    requires SpawnOf(s.threads[k].pc) == Some(index) && SpawnOf(s'.threads[k].pc) == None
    requires s'.live == s.live && s'.maxWorkers == s.maxWorkers && s'.outside == s.outside
    ensures Slots(s')
  {
    var n := |s.threads|;
    assert SpawnOf(s'.threads[n].pc) == None && s'.threads[n].slot == index;
    hide SpawnOf;
    forall i: nat | i < s'.live ensures HasThread(s', i) {
      assert HasThread(s, i);
      if j :| 0 <= j < n && Holds(s.threads[j], i) {
        if j == k && s.threads[j].slot != i {
          assert Holds(s'.threads[n], i);
        } else {
          assert Holds(s'.threads[j], i);
        }
      }
    }
  }

  lemma OutsideMoved<T>(s: State<T>, s': State<T>)
    requires Slots(s) && s'.threads == s.threads && s'.live == s.live && s'.maxWorkers == s.maxWorkers
    requires OutsideSpawn(s'.outside) == OutsideSpawn(s.outside)
    ensures Slots(s')
  {
    hide SpawnOf, OutsideSpawn;
    forall i: nat | i < s'.live ensures HasThread(s', i) {
      assert HasThread(s, i);
      if j :| 0 <= j < |s.threads| && Holds(s.threads[j], i) {
        assert Holds(s'.threads[j], i);
      }
    }
  }

  lemma OutsideWon<T>(s: State<T>, s': State<T>)
    requires Slots(s) && s.live < s.maxWorkers && s'.threads == s.threads
    requires OutsideSpawn(s.outside) == None && OutsideSpawn(s'.outside) == Some(s.live)
    requires s'.live == s.live + 1 && s'.maxWorkers == s.maxWorkers
    ensures Slots(s')
  {
    hide SpawnOf, OutsideSpawn;
    forall i: nat | i < s'.live ensures HasThread(s', i) {
      if i < s.live {
        assert HasThread(s, i);
        var j :| 0 <= j < |s.threads| && Holds(s.threads[j], i);
        assert Holds(s'.threads[j], i);
      }
    }
  }

  lemma OutsideStarted<T>(s: State<T>, s': State<T>, index: nat)
    requires Slots(s) && s'.threads == s.threads + [Thread(index, LoopHead)]
    requires OutsideSpawn(s.outside) == Some(index) && OutsideSpawn(s'.outside) == None
    requires s'.live == s.live && s'.maxWorkers == s.maxWorkers
    ensures Slots(s')
  {
    var n := |s.threads|;
    assert SpawnOf(s'.threads[n].pc) == None && s'.threads[n].slot == index;
    hide SpawnOf, OutsideSpawn;
    forall i: nat | i < s'.live ensures HasThread(s', i) {
      assert HasThread(s, i);
      if j :| 0 <= j < n && Holds(s.threads[j], i) {
        assert Holds(s'.threads[j], i);
      } else {
        assert Holds(s'.threads[n], i);
      }
    }
  }

  lemma OutsideGrowSlots<T>(s: State<T>, choice: Choice<T>)
    requires Slots(s) && s.outside.OutsideGrowing?
    requires s.outside.growth.Swapping? ==> s.outside.growth.index < s.maxWorkers
    ensures Slots(OutsideNext(s, choice))
  {
    hide Slots;
    var s', g := OutsideNext(s, choice), s.outside.growth;
    if g.Spawning? { OutsideStarted(s, s', g.index); }
    else if g.Swapping? && s.live == g.index && !choice.GiveUp? { OutsideWon(s, s'); }
    else { OutsideMoved(s, s'); }
  }

  lemma WorkerGrowSlots<T>(s: State<T>, k: nat, choice: Choice<T>)
    requires Slots(s) && k < |s.threads| && s.threads[k].pc.Growing?
    requires s.threads[k].pc.growth.Swapping? ==> s.threads[k].pc.growth.index < s.maxWorkers
    ensures Slots(WorkerNext(s, k, choice))
  {
    hide Slots;
    var s', g := WorkerNext(s, k, choice), s.threads[k].pc.growth;
    if g.Spawning? { SlotStarted(s, s', k, g.index); }
    else if g.Swapping? && s.live == g.index && !choice.GiveUp? { SlotWon(s, s', k); }
    else { SlotsMoved(s, s', k); }
  }

  lemma WorkerSlots<T>(s: State<T>, k: nat, choice: Choice<T>)
    requires Slots(s) && k < |s.threads| && !s.threads[k].pc.Growing?
    ensures Slots(WorkerNext(s, k, choice))
  {
    hide Slots, WorkerNext;
    WorkerFrame(s, k, choice);
    SlotsMoved(s, WorkerNext(s, k, choice), k);
  }

  lemma StepSlots<T>(s: State<T>, act: Action<T>)
    requires Slots(s) && Phases(s)
    ensures Slots(Step(s, act))
  {
    hide Slots, WorkerNext, Grow, Front, Back;
    match act
    case Submit(task, p) => OutsideMoved(s, Step(s, act));
    case Wait => OutsideMoved(s, Step(s, act));
    case OutsideStep(choice) =>
      if s.outside.OutsideGrowing? { OutsideGrowSlots(s, choice); } else { OutsideMoved(s, Step(s, act)); }
    case WorkerStep(k, choice) =>
      if k < |s.threads| {
        if s.threads[k].pc.Growing? { WorkerGrowSlots(s, k, choice); } else { WorkerSlots(s, k, choice); }
      }
  }

  // ---- Phases ----

  lemma {:induction false} OwedAtLeast<T>(threads: seq<Thread<T>>, k: nat)
    requires k < |threads|
    ensures OwedCount(threads) >= |OwedBy(threads[k].pc)|
  {
    hide OwedBy;
    if k < |threads| - 1 { OwedAtLeast(threads[..|threads| - 1], k); }
  }

  /** A worker that has work in hand keeps the counter above zero. */
  lemma BusyMeansPending<T(!new)>(s: State<T>, k: nat)
    requires Counts(s) && k < |s.threads|
    ensures |OwedBy(s.threads[k].pc)| <= s.pending
  {
    OwedAtLeast(s.threads, k);
  }

  /** A worker that is not growing the pool disturbs no phase. */
  lemma PhasesKept<T>(s: State<T>, s': State<T>, k: nat)
    requires Phases(s) && k < |s.threads| && 0 < s.live
    requires |s'.threads| == |s.threads| && s'.threads == s.threads[k := s'.threads[k]]
    requires s'.threads[k].slot == s.threads[k].slot
    requires s'.threads[k].pc.Growing? ==> s'.threads[k].pc.growth.Loading?
    requires s.threads[k].pc.Exited? ==> s'.threads[k].pc.Exited?
    requires s'.threads[k].pc.Exited? ==> s.stop
    requires s.stop || s.outside.Stopping? ==> s'.pending == 0
    requires s'.live == s.live && s'.maxWorkers == s.maxWorkers && s'.priorities == s.priorities
    requires s'.outside == s.outside && s'.stop == s.stop
    ensures Phases(s')
  {
  }

  lemma ScanFrame<T>(s: State<T>, k: nat, choice: Choice<T>)
    requires k < |s.threads| && Scans(s.threads[k].pc)
    ensures var s' := WorkerNext(s, k, choice);
      && |s'.threads| == |s.threads| && s'.threads == s.threads[k := s'.threads[k]]
      && s'.threads[k].slot == s.threads[k].slot
      && !s'.threads[k].pc.Growing? && !s'.threads[k].pc.Exited?
      && s' == s.(threads := s'.threads, pool := s'.pool, accesses := s'.accesses)
  {
    hide Front, Back, StealFrom, Grow, Without;
  }

  lemma TaskFrame<T>(s: State<T>, k: nat, choice: Choice<T>)
    requires k < |s.threads| && !Scans(s.threads[k].pc) && !s.threads[k].pc.Growing?
    ensures var s' := WorkerNext(s, k, choice);
      && |s'.threads| == |s.threads| && s'.threads == s.threads[k := s'.threads[k]]
      && s'.threads[k].slot == s.threads[k].slot
      && (s'.threads[k].pc.Growing? ==> s'.threads[k].pc.growth.Loading?)
      && (s.threads[k].pc.Exited? ==> s'.threads[k].pc.Exited?)
      && (s'.threads[k].pc.Exited? && !s.threads[k].pc.Exited? ==> s.stop)
      && (s'.pending != s.pending ==> s.threads[k].pc.Processing? || s.threads[k].pc.Processed?)
      && s'.live == s.live && s'.maxWorkers == s.maxWorkers && s'.priorities == s.priorities
      && s'.outside == s.outside && s'.stop == s.stop
  {
    hide Claim, Grow, Front, Back, StealFrom;
  }

  /** What a worker's step outside MaybeGrowThreads leaves alone, and what it does to its own thread. */
  lemma WorkerFrame<T>(s: State<T>, k: nat, choice: Choice<T>)
    requires k < |s.threads| && !s.threads[k].pc.Growing?
    ensures var s' := WorkerNext(s, k, choice);
      && |s'.threads| == |s.threads| && s'.threads == s.threads[k := s'.threads[k]]
      && s'.threads[k].slot == s.threads[k].slot
      && (s'.threads[k].pc.Growing? ==> s'.threads[k].pc.growth.Loading?)
      && (s.threads[k].pc.Exited? ==> s'.threads[k].pc.Exited?)
      && (s'.threads[k].pc.Exited? && !s.threads[k].pc.Exited? ==> s.stop)
      && (s'.pending != s.pending ==> s.threads[k].pc.Processing? || s.threads[k].pc.Processed?)
      && s'.live == s.live && s'.maxWorkers == s.maxWorkers && s'.priorities == s.priorities
      && s'.outside == s.outside && s'.stop == s.stop
  {
    hide WorkerNext;
    if Scans(s.threads[k].pc) { ScanFrame(s, k, choice); } else { TaskFrame(s, k, choice); }
  }

  lemma WorkerPhases<T(!new)>(s: State<T>, k: nat, choice: Choice<T>)
    requires Inv(s) && k < |s.threads| && !s.threads[k].pc.Growing?
    ensures Phases(WorkerNext(s, k, choice))
  {
    hide Counts, Conserves, Discipline, WorkerNext, HasThread, SpawnOf;
    BusyMeansPending(s, k);
    assert s.threads[k].slot < s.live;
    WorkerFrame(s, k, choice);
    PhasesKept(s, WorkerNext(s, k, choice), k);
  }

  lemma WorkerGrowPhases<T(!new)>(s: State<T>, k: nat, choice: Choice<T>)
    requires Inv(s) && k < |s.threads| && s.threads[k].pc.Growing?
    ensures Phases(WorkerNext(s, k, choice))
  {
    hide Counts, Conserves, Discipline, Front, Back, StealFrom, HasThread;
    BusyMeansPending(s, k);
    assert s.threads[k].slot < s.live;
  }

  lemma OutsideQueuePhases<T(!new)>(s: State<T>, choice: Choice<T>)
    requires Counts(s) && Phases(s) && s.outside.OutsideCounted?
    ensures Phases(OutsideNext(s, choice))
  {
    hide Owed, OwedCount, Grow;
    assert s.pending >= 1;
  }

  lemma OutsideGrowPhases<T>(s: State<T>, choice: Choice<T>)
    requires Slots(s) && Phases(s) && s.outside.OutsideGrowing?
    ensures Phases(OutsideNext(s, choice))
  {
    hide HasThread, SpawnOf;
    if s.threads != [] { assert s.threads[0].slot < s.live; }
  }

  lemma OutsideWaitPhases<T>(s: State<T>, choice: Choice<T>)
    requires Slots(s) && Phases(s) && !s.outside.OutsideCounted? && !s.outside.OutsideGrowing?
    ensures Phases(OutsideNext(s, choice))
  {
    hide HasThread, SpawnOf, Grow;
    if s.threads != [] { assert s.threads[0].slot < s.live; }
  }

  lemma OutsidePhases<T(!new)>(s: State<T>, choice: Choice<T>)
    requires Inv(s)
    ensures Phases(OutsideNext(s, choice))
  {
    hide Counts, Conserves, Discipline, Placed, Slots, Phases, OutsideNext;
    if s.outside.OutsideCounted? { OutsideQueuePhases(s, choice); }
    else if s.outside.OutsideGrowing? { OutsideGrowPhases(s, choice); }
    else { OutsideWaitPhases(s, choice); }
  }

  lemma StepPhases<T(!new)>(s: State<T>, act: Action<T>)
    requires Inv(s)
    ensures Phases(Step(s, act))
  {
    hide Counts, Conserves, Discipline, Slots, WorkerNext, OutsideNext;
    match act
    case Submit(task, p) =>
    case Wait =>
    case OutsideStep(choice) => OutsidePhases(s, choice);
    case WorkerStep(k, choice) =>
      if k < |s.threads| {
        if s.threads[k].pc.Growing? { WorkerGrowPhases(s, k, choice); } else { WorkerPhases(s, k, choice); }
      }
  }

  // ---- Discipline ----

  lemma WorkerSlotsKept<T>(s: State<T>, k: nat, choice: Choice<T>)
    requires k < |s.threads|
    ensures var s' := WorkerNext(s, k, choice);
      && |s'.threads| >= |s.threads|
      && (forall i | 0 <= i < |s.threads| :: s'.threads[i].slot == s.threads[i].slot)
  {
    if !s.threads[k].pc.Growing? {
      hide WorkerNext;
      WorkerFrame(s, k, choice);
    }
  }

  /** The one queue call a worker's step may make is one it may make. */
  lemma WorkerAccess<T>(s: State<T>, k: nat, choice: Choice<T>) returns (made: seq<Access>)
    requires k < |s.threads|
    ensures WorkerNext(s, k, choice).accesses == s.accesses + made
    ensures forall a | a in made :: Allowed(s.threads, a)
  {
    hide Front, Back, StealFrom, Without;
    var me := s.threads[k];
    match me.pc
    case TryOwn(p) => made := [Access(Worker(k), Own(me.slot, p), DidTake)];
    case TryVictim(p, v) => made := if v == me.slot then [] else [Access(Worker(k), Own(v, p), DidSteal)];
    case TrySubmitted(p) => made := [Access(Worker(k), Submitted(p), DidSteal)];
    case Counted(_, _, _, p) => made := [Access(Worker(k), Own(me.slot, p), DidInsert)];
    case _ => made := [];
  }

  lemma DisciplineKept<T>(s: State<T>, s': State<T>, made: seq<Access>)
    requires Discipline(s) && s'.accesses == s.accesses + made
    requires |s'.threads| >= |s.threads|
    requires forall i | 0 <= i < |s.threads| :: s'.threads[i].slot == s.threads[i].slot
    requires forall a | a in made :: Allowed(s.threads, a)
    ensures Discipline(s')
  {
    forall a | a in s'.accesses ensures Allowed(s'.threads, a) {
      assert Allowed(s.threads, a);
    }
  }

  lemma StepDiscipline<T>(s: State<T>, act: Action<T>)
    requires Discipline(s)
    ensures Discipline(Step(s, act))
  {
    hide WorkerNext, Discipline;
    var s' := Step(s, act);
    if act.WorkerStep? {
      if act.thread < |s.threads| {
        var made := WorkerAccess(s, act.thread, act.choice);
        WorkerSlotsKept(s, act.thread, act.choice);
        DisciplineKept(s, s', made);
      }
    } else {
      DisciplineKept(s, s', s'.accesses[|s.accesses|..]);
    }
  }

  // ---- What every run gives ----

  /** A run is a shorter run and a step. */
  lemma RunBefore<T(!new)>(workerCount: nat, priorities: nat, run: seq<State<T>>) returns (act: Action<T>)
    requires IsRun(workerCount, priorities, run) && |run| > 1
    ensures IsRun(workerCount, priorities, run[..|run| - 1]) && Final(run) == Step(Final(run[..|run| - 1]), act)
  {
    hide Initial, Step;
    var before, n := run[..|run| - 1], |run|;
    assert Follows(run[n - 2], run[n - 1]);
    act :| run[n - 1] == Step(run[n - 2], act);
    forall i | 0 <= i < |before| - 1 ensures Follows(before[i], before[i + 1]) {
      assert Follows(run[i], run[i + 1]);
    }
  }

  lemma {:induction false} RunInv<T(!new)>(workerCount: nat, priorities: nat, run: seq<State<T>>)
    requires IsRun(workerCount, priorities, run)
    ensures run != [] && Inv(Final(run)) && Final(run).maxWorkers == if workerCount < 1 then 1 else workerCount
  {
    hide Step;
    if |run| > 1 {
      hide Inv;
      var act := RunBefore(workerCount, priorities, run);
      RunInv(workerCount, priorities, run[..|run| - 1]);
      StepInv(Final(run[..|run| - 1]), act);
      StepKeepsMax(Final(run[..|run| - 1]), act);
    }
  }

  /**
   * Once the outside thread has stopped submitting, a zero counter stays zero, and means
   * that all queues are empty, no worker has work in hand, and everything accepted is done.
   */
  lemma ZeroIsFinal<T(!new)>(s: State<T>, act: Action<T>)
    requires Inv(s) && Ended(s) && s.pending == 0
    ensures Ended(Step(s, act)) && Step(s, act).pending == 0
    ensures s.pool == [] && s.accepted == s.done
    ensures forall k | 0 <= k < |s.threads| :: OwedBy(s.threads[k].pc) == multiset{}
  {
    hide Slots, Phases, Discipline, Placed, Conserves, Step, Ended, Owed, OwedBy;
    NothingOwed(s);
    NobodyBusy(s);
    ZeroStays(s, act);
  }

  lemma NobodyBusy<T>(s: State<T>)
    requires Counts(s) && s.pending == 0
    ensures forall k | 0 <= k < |s.threads| :: OwedBy(s.threads[k].pc) == multiset{}
  {
    forall k | 0 <= k < |s.threads| ensures OwedBy(s.threads[k].pc) == multiset{} { OwedAtLeast(s.threads, k); }
  }

  lemma ZeroStays<T>(s: State<T>, act: Action<T>)
    requires Ended(s) && s.pending == 0 && forall k | 0 <= k < |s.threads| :: OwedBy(s.threads[k].pc) == multiset{}
    ensures Ended(Step(s, act)) && Step(s, act).pending == 0
  {
    hide WorkerNext, OwedBy;
    if act.WorkerStep? && act.thread < |s.threads| { IdleStep(s, act.thread, act.choice); }
  }

  lemma NothingOwed<T(!new)>(s: State<T>)
    requires Counts(s) && Conserves(s) && s.pending == 0
    ensures s.pool == [] && s.accepted == s.done
  {
    OwedCountZero(s.threads);
    forall e: T ensures s.accepted[e] == s.done[e] {
      assert s.accepted[e] == s.done[e] + Outstanding(s, e);
    }
  }

  lemma {:induction false} OwedCountZero<T>(threads: seq<Thread<T>>)
    ensures OwedCount(threads) == |Owed(threads)|
  {
    if threads != [] { OwedCountZero(threads[..|threads| - 1]); }
  }

  lemma IdleStep<T>(s: State<T>, k: nat, choice: Choice<T>)
    requires k < |s.threads| && OwedBy(s.threads[k].pc) == multiset{}
    ensures WorkerNext(s, k, choice).pending == s.pending && WorkerNext(s, k, choice).outside == s.outside
  {
    hide Front, Back, StealFrom, Grow;
  }

  /** When Wait returns, every accepted task was processed exactly once and every thread is gone. */
  lemma WaitMeansDone<T(!new)>(workerCount: nat, priorities: nat, run: seq<State<T>>)
    requires IsRun(workerCount, priorities, run) && Final(run).outside.Returned?
    ensures var s := Final(run);
      && s.accepted == s.done && s.pool == []
      && forall k | 0 <= k < |s.threads| :: s.threads[k].pc.Exited?
  {
    RunInv(workerCount, priorities, run);
    NothingOwed(Final(run));
  }

  /**
   * The queues' owner-only rule, discharged: over a whole run all Inserts and Takes on a
   * worker's queue come from one thread, which never steals from it; outside submissions
   * are inserted by the seeder alone and never taken; at most maxWorkers threads start, no
   * two on one slot.
   */
  lemma OwnersOnly<T(!new)>(workerCount: nat, priorities: nat, run: seq<State<T>>, a: Access, b: Access)
    requires IsRun(workerCount, priorities, run)
    requires var s := Final(run); a in s.accesses && b in s.accesses && a.q == b.q
    ensures !a.kind.DidSteal? && !b.kind.DidSteal? ==> a.who == b.who
    ensures a.q.Own? && a.kind.DidSteal? && !b.kind.DidSteal? ==> a.who != b.who
    ensures a.q.Submitted? ==> !a.kind.DidTake?
    ensures |Final(run).threads| <= if workerCount < 1 then 1 else workerCount
    ensures var threads := Final(run).threads; forall i, j | 0 <= i < j < |threads| :: threads[i].slot != threads[j].slot
  {
    RunInv(workerCount, priorities, run);
    var s := Final(run);
    assert Allowed(s.threads, a) && Allowed(s.threads, b);
    FewThreads(s.threads, s.maxWorkers);
  }

  lemma StepKeepsMax<T(!new)>(s: State<T>, act: Action<T>)
    ensures Step(s, act).maxWorkers == s.maxWorkers
  {
    hide Front, Back, StealFrom;
  }

  /** Distinct slots below a bound number no more than the bound. */
  lemma {:induction false} FewThreads<T>(threads: seq<Thread<T>>, bound: nat)
    requires forall i | 0 <= i < |threads| :: threads[i].slot < bound
    requires forall i, j | 0 <= i < j < |threads| :: threads[i].slot != threads[j].slot
    ensures |threads| <= bound
  {
    if threads != [] {
      assert threads[0].slot < bound;
      if k :| 0 <= k < |threads| && threads[k].slot == bound - 1 {
        var rest := threads[..k] + threads[k + 1..];
        forall i | 0 <= i < |rest| ensures rest[i].slot < bound - 1 {
          assert rest[i] == threads[if i < k then i else i + 1];
        }
        FewThreads(rest, bound - 1);
      } else {
        FewThreads(threads, bound - 1);
      }
    }
  }

  /** Work pending with no Submit from outside under way always has a running worker to do it. */
  lemma SomeWorkerLives<T(!new)>(workerCount: nat, priorities: nat, run: seq<State<T>>)
    requires IsRun(workerCount, priorities, run)
    requires var s := Final(run); s.pending != 0 && !Submitting(s)
    ensures exists t | t in Final(run).threads :: !t.pc.Exited?
  {
    RunInv(workerCount, priorities, run);
    var s := Final(run);
    assert HasThread(s, 0);
    var k :| 0 <= k < |s.threads| && Holds(s.threads[k], 0);
    assert s.threads[k] in s.threads && !s.threads[k].pc.Exited?;
  }

  // ---- One worker serves the urgent first ----

  /** The priority a scan has got to. */
  ghost function ScanAt<T>(pc: Pc<T>): nat {
    if Scans(pc) then pc.priority else 0
  }

  /** Queue `q` is one a scan at `pc` has still to look at. */
  ghost predicate Ahead<T>(pc: Pc<T>, q: QueueId) {
    && ScanAt(pc) <= q.priority
    && (pc.TryVictim? || pc.TrySubmitted? ==> q.Own? ==> pc.priority < q.priority)
  }

  /** One worker, seeding over, and nothing queued where the worker's scan has passed. */
  ghost predicate Tidy<T>(s: State<T>) {
    && Ended(s) && s.maxWorkers == 1
    && forall k, e | 0 <= k < |s.threads| && e in s.pool :: Ahead(s.threads[k].pc, e.q)
  }

  /** The only worker, on the only slot. */
  lemma TheWorker<T(!new)>(s: State<T>, k: nat)
    requires Inv(s) && s.maxWorkers == 1 && k < |s.threads|
    ensures |s.threads| == 1 && k == 0 && s.threads[0].slot == 0 && s.live == 1
    ensures forall e | e in s.pool && e.q.Own? :: e.q.slot == 0
    ensures SpawnOf(s.threads[0].pc) == None
  {
    hide Counts, Conserves, Phases, Discipline, HasThread;
    FewThreads(s.threads, 1);
    assert s.threads[0].slot == 0;
  }

  /** A look at one queue finds it empty, or claims from it and nothing more urgent was there. */
  lemma LookTidy<T(!new)>(s: State<T>, q: QueueId, kind: Kind, i: int, otherwise: Pc<T>)
    requires |s.threads| == 1 && -1 <= i < |s.pool| && !otherwise.Processing?
    requires i >= 0 ==> s.pool[i].q == q
    requires forall e | e in s.pool :: q.priority <= e.q.priority
    requires i == -1 ==> forall e | e in s.pool :: Ahead(otherwise, e.q)
    ensures var pc := Claim(s, 0, q, kind, i, otherwise).threads[0].pc;
      && (pc.Processing? ==> forall e | e in s.pool :: pc.taken <= e.q.priority)
      && forall e | e in s.pool :: Ahead(pc, e.q)
  {
    hide Without;
  }

  /** Nothing is queued before the queue the lone worker looks at. */
  lemma NothingBefore<T(!new)>(s: State<T>, e: Entry<T>)
    requires Tidy(s) && |s.threads| == 1 && Scans(s.threads[0].pc) && e in s.pool
    ensures Ahead(s.threads[0].pc, e.q) && s.threads[0].pc.priority <= e.q.priority
  {
  }

  lemma OwnTidy<T(!new)>(s: State<T>, choice: Choice<T>)
    requires Inv(s) && Tidy(s) && |s.threads| == 1 && s.threads[0].pc.TryOwn?
    ensures var pc := WorkerNext(s, 0, choice).threads[0].pc;
      && (pc.Processing? ==> forall e | e in s.pool :: pc.taken <= e.q.priority)
      && forall e | e in s.pool :: Ahead(pc, e.q)
  {
    hide Inv, Front, StealFrom, Claim, Ahead, NextPriority, Grow;
    TheWorker(s, 0);
    var p := s.threads[0].pc.priority;
    var q := Own(0, p);
    forall e | e in s.pool ensures p <= e.q.priority && (Back(s.pool, q) == -1 ==> Ahead(NextVictim(s, p, 0), e.q)) {
      NothingBefore(s, e);
      OwnEmpty(s, p, e);
    }
    LookTidy(s, q, DidTake, Back(s.pool, q), NextVictim(s, p, 0));
  }

  lemma OwnEmpty<T(!new)>(s: State<T>, p: nat, e: Entry<T>)
    requires e in s.pool && p <= e.q.priority && (e.q.Own? ==> e.q.slot == 0)
    ensures Back(s.pool, Own(0, p)) == -1 ==> Ahead(NextVictim(s, p, 0), e.q)
  {
  }

  lemma VictimTidy<T(!new)>(s: State<T>, choice: Choice<T>)
    requires Inv(s) && Tidy(s) && |s.threads| == 1 && s.threads[0].pc.TryVictim?
    ensures var pc := WorkerNext(s, 0, choice).threads[0].pc;
      && (pc.Processing? ==> forall e | e in s.pool :: pc.taken <= e.q.priority)
      && forall e | e in s.pool :: Ahead(pc, e.q)
  {
    hide Inv, Without, Grow, Back;
    TheWorker(s, 0);
    forall e | e in s.pool ensures Ahead(s.threads[0].pc, e.q) {}
  }

  lemma SubmittedTidy<T(!new)>(s: State<T>, choice: Choice<T>)
    requires Inv(s) && Tidy(s) && |s.threads| == 1 && s.threads[0].pc.TrySubmitted?
    ensures var pc := WorkerNext(s, 0, choice).threads[0].pc;
      && (pc.Processing? ==> forall e | e in s.pool :: pc.taken <= e.q.priority)
      && forall e | e in s.pool :: Ahead(pc, e.q)
  {
    hide Inv, Without, Grow, Back;
    forall e | e in s.pool ensures Ahead(s.threads[0].pc, e.q) {}
  }

  lemma ScanTidy<T(!new)>(s: State<T>, choice: Choice<T>)
    requires Inv(s) && Tidy(s) && |s.threads| == 1 && Scans(s.threads[0].pc)
    ensures var pc := WorkerNext(s, 0, choice).threads[0].pc;
      && (pc.Processing? ==> forall e | e in s.pool :: pc.taken <= e.q.priority)
      && forall e | e in s.pool :: Ahead(pc, e.q)
  {
    hide Inv, Tidy, WorkerNext, Ahead;
    match s.threads[0].pc
    case TryOwn(_) => OwnTidy(s, choice);
    case TryVictim(_, _) => VictimTidy(s, choice);
    case TrySubmitted(_) => SubmittedTidy(s, choice);
  }

  /** Whatever the worker's step claims, nothing more urgent is left queued. */
  lemma UrgentStep<T(!new)>(s: State<T>, k: nat, choice: Choice<T>)
    requires Inv(s) && Tidy(s) && k < |s.threads|
    requires OwedBy(s.threads[k].pc) == multiset{}
    requires k < |WorkerNext(s, k, choice).threads| && WorkerNext(s, k, choice).threads[k].pc.Processing?
    ensures forall e | e in s.pool :: WorkerNext(s, k, choice).threads[k].pc.taken <= e.q.priority
  {
    TheWorker(s, k);
    var pc := s.threads[0].pc;
    if Scans(pc) {
      ScanTidy(s, choice);
    }
  }

  /** One worker, seeding over, and no scan under way past its first look. */
  ghost predicate BetweenTasks<T>(s: State<T>) {
    && Ended(s) && s.maxWorkers == 1
    && forall k | 0 <= k < |s.threads| ::
      ScanAt(s.threads[k].pc) == 0 && !s.threads[k].pc.TryVictim? && !s.threads[k].pc.TrySubmitted?
  }

  /** That condition holds whenever the worker is between tasks as seeding ends, and then stays. */
  lemma TidyKept<T(!new)>(s: State<T>, act: Action<T>)
    requires Inv(s) && (Tidy(s) || BetweenTasks(s))
    ensures Tidy(Step(s, act))
  {
    hide Counts, Conserves, Phases, Discipline, Placed, WorkerNext;
    if act.WorkerStep? && act.thread < |s.threads| {
      TheWorker(s, act.thread);
      WorkerTidy(s, act.choice);
    }
  }

  /** Outside a scan, a worker's step ends at most at the head of one. */
  lemma RestPc<T>(s: State<T>, choice: Choice<T>)
    requires |s.threads| == 1 && SpawnOf(s.threads[0].pc) == None && !Scans(s.threads[0].pc)
    ensures var s' := WorkerNext(s, 0, choice);
      |s'.threads| == 1 && ScanAt(s'.threads[0].pc) == 0 && !s'.threads[0].pc.TryVictim? && !s'.threads[0].pc.TrySubmitted?
  {
    hide Front, Back, StealFrom, Claim;
  }

  /** And from there every queue is still ahead. */
  lemma RestTidy<T(!new)>(s: State<T>, choice: Choice<T>)
    requires Inv(s) && s.maxWorkers == 1 && |s.threads| == 1
    requires !Scans(s.threads[0].pc)
    ensures var s' := WorkerNext(s, 0, choice);
      |s'.threads| == 1 && forall q :: Ahead(s'.threads[0].pc, q)
  {
    hide Inv, WorkerNext, SpawnOf, Scans;
    TheWorker(s, 0);
    RestPc(s, choice);
  }

  lemma WorkerTidy<T(!new)>(s: State<T>, choice: Choice<T>)
    requires Inv(s) && Tidy(s) && |s.threads| == 1
    ensures Tidy(WorkerNext(s, 0, choice))
  {
    hide Counts, Conserves, Discipline, Placed, Phases, Slots, WorkerNext, Ahead;
    TheWorker(s, 0);
    var pc := s.threads[0].pc;
    if Scans(pc) {
      ScanTidy(s, choice);
      ScanPool(s, choice);
    } else {
      RestTidy(s, choice);
    }
    StepKeepsEnded(s, WorkerStep(0, choice));
  }

  lemma ScanPool<T>(s: State<T>, choice: Choice<T>)
    requires |s.threads| == 1
    requires Scans(s.threads[0].pc)
    ensures var s' := WorkerNext(s, 0, choice); |s'.threads| == 1 && forall e | e in s'.pool :: e in s.pool
  {
    hide Front, Back, StealFrom;
  }

  lemma StepKeepsEnded<T(!new)>(s: State<T>, act: Action<T>)
    requires Ended(s)
    ensures Ended(Step(s, act)) && Step(s, act).maxWorkers == s.maxWorkers
  {
    hide Front, Back, StealFrom;
  }

  lemma RunPrefix<T(!new)>(workerCount: nat, priorities: nat, run: seq<State<T>>, n: nat)
    requires IsRun(workerCount, priorities, run) && 1 <= n <= |run|
    ensures IsRun(workerCount, priorities, run[..n])
  {
    hide Initial, Follows;
    forall i | 0 <= i < n - 1 ensures Follows(run[..n][i], run[..n][i + 1]) {
      assert Follows(run[i], run[i + 1]);
    }
  }

  lemma {:induction false} TidyFrom<T(!new)>(workerCount: nat, priorities: nat, run: seq<State<T>>, m: nat, i: nat)
    requires IsRun(workerCount, priorities, run) && m <= i < |run| && BetweenTasks(run[m])
    ensures Inv(run[i]) && Tidy(run[i])
    decreases i
  {
    hide Inv, Step, Tidy, BetweenTasks;
    RunPrefix(workerCount, priorities, run, i + 1);
    RunInv(workerCount, priorities, run[..i + 1]);
    if i == m {
      BetweenIsTidy(run[m]);
    } else {
      TidyFrom(workerCount, priorities, run, m, i - 1);
      assert Follows(run[i - 1], run[i]);
      var act :| run[i] == Step(run[i - 1], act);
      TidyStays(run[i - 1], act);
    }
  }

  lemma BetweenIsTidy<T>(s: State<T>)
    requires BetweenTasks(s)
    ensures Tidy(s)
  {
  }

  lemma TidyStays<T(!new)>(s: State<T>, act: Action<T>)
    requires Inv(s) && Tidy(s)
    ensures Tidy(Step(s, act))
  {
    hide Inv, Step, Ahead;
    TidyKept(s, act);
  }

  /** Thread `k` gets hold of a task between the two states. */
  ghost predicate Takes<T>(s: State<T>, s': State<T>, k: nat) {
    && k < |s.threads| && k < |s'.threads|
    && OwedBy(s.threads[k].pc) == multiset{} && s'.threads[k].pc.Processing?
  }

  lemma TakerSteps<T>(s: State<T>, act: Action<T>, k: nat)
    requires Takes(s, Step(s, act), k)
    ensures act.WorkerStep? && act.thread == k
  {
    hide Front, Back, StealFrom, Without;
  }

  lemma UrgentTake<T(!new)>(s: State<T>, act: Action<T>, k: nat)
    requires Inv(s) && Tidy(s) && Takes(s, Step(s, act), k)
    ensures forall e | e in s.pool :: Step(s, act).threads[k].pc.taken <= e.q.priority
  {
    hide Inv, Tidy, Ahead, WorkerNext, OutsideNext;
    TakerSteps(s, act, k);
    UrgentStep(s, k, act.choice);
  }

  /**
   * With one worker, once seeding is over and the worker has been between tasks, every
   * task is taken only when nothing more urgent is queued anywhere: a parked one only when
   * no runnable one exists.
   */
  lemma UrgentFirst<T(!new)>(workerCount: nat, priorities: nat, run: seq<State<T>>, m: nat, i: nat, k: nat)
    requires IsRun(workerCount, priorities, run) && m <= i < |run| - 1 && BetweenTasks(run[m])
    requires Takes(run[i], run[i + 1], k)
    ensures forall e | e in run[i].pool :: run[i + 1].threads[k].pc.taken <= e.q.priority
  {
    hide Inv, Tidy, BetweenTasks, Step, Initial, Takes;
    TidyFrom(workerCount, priorities, run, m, i);
    assert Follows(run[i], run[i + 1]);
    var act :| run[i + 1] == Step(run[i], act);
    UrgentTake(run[i], act, k);
  }

  /**
   * What a thread takes was queued, at the priority it is taken at, and leaves its queue:
   * the newest of its own queue, the oldest of another's or of what came from outside.
   */
  lemma TakesQueued<T>(s: State<T>, act: Action<T>, k: nat) returns (n: nat)
    requires Takes(s, Step(s, act), k)
    ensures n < |s.pool| && Step(s, act).pool == Without(s.pool, n)
    ensures var pc := Step(s, act).threads[k].pc; s.pool[n].task == pc.task && s.pool[n].q.priority == pc.taken
    ensures if s.pool[n].q.Own? && s.pool[n].q.slot == s.threads[k].slot
      then forall j | n < j < |s.pool| :: s.pool[j].q != s.pool[n].q
      else forall j | 0 <= j < n :: s.pool[j].q != s.pool[n].q
  {
    hide Without, Grow;
    TakerSteps(s, act, k);
    var me := s.threads[k];
    match me.pc
    case TryOwn(p) => n := Back(s.pool, Own(me.slot, p));
    case TryVictim(p, v) => n := StealFrom(s, Own(v, p), act.choice);
    case TrySubmitted(p) => n := StealFrom(s, Submitted(p), act.choice);
  }
}
