/**
 * The walk and the scheduler together, with one worker: every step of either, and the
 * steps in which they meet. A directory is handed to Submit as the walk lets go of it, and
 * taken up by the walk as AcquireNextTask returns it. Over whole runs the queues hold what
 * the walk has queued and parked, so the rule by which the walk's lone worker takes
 * directories is what the scheduler does, and the walk is over when Wait returns.
 */
module WalkSchedule {
  import opened Common
  import S = TaskScheduler
  import W = Walk
  import WalkFamily
  import WalkHistory
  import WalkRun
  import WalkTermination

  type Path = W.Path

  /** The priorities directories are submitted at: to be scanned, or to be opened once more. */
  const RUNNABLE := 0
  const PARKED := 1
  const PRIORITIES := 2

  datatype Joint = Joint(w: W.State, s: S.State<Path>)

  /** A directory for the scheduler, at a priority. */
  datatype Offer = Offer(dir: Path, priority: nat)

  // ---- What either side holds ----

  /** The walk has let the directory go, to be taken at this priority. */
  ghost predicate Stands(w: W.State, o: Offer) {
    && o.dir in w.nodes
    && ((o.priority == RUNNABLE && w.nodes[o.dir].at.Queued?) || (o.priority == PARKED && w.nodes[o.dir].at.Parked?))
  }

  ghost function Queued(pool: seq<S.Entry<Path>>): multiset<Offer> {
    if pool == [] then multiset{}
    else
      var last := pool[|pool| - 1];
      Queued(pool[..|pool| - 1]) + multiset{Offer(last.task, last.q.priority)}
  }

  /** Counted and not yet inserted by the worker. */
  ghost function Carried(threads: seq<S.Thread<Path>>): multiset<Offer> {
    if threads != [] && threads[0].pc.Counted? then multiset{Offer(threads[0].pc.child, threads[0].pc.priority)}
    else multiset{}
  }

  ghost function Seeding(outside: S.Outside<Path>): multiset<Offer> {
    if outside.OutsideCounted? then multiset{Offer(outside.task, outside.priority)} else multiset{}
  }

  /** All that was submitted and not yet taken. */
  ghost function Held(s: S.State<Path>): multiset<Offer> {
    Queued(s.pool) + Carried(s.threads) + Seeding(s.outside)
  }

  /** The worker is inside Process. */
  ghost predicate Inside(pc: S.Pc<Path>) {
    pc.Processing? || pc.Counted? || pc.Growing?
  }

  ghost predicate AtWork(s: S.State<Path>) {
    s.threads != [] && Inside(s.threads[0].pc)
  }

  // ---- Steps ----

  /** What the worker's next step at `p` submits: a child, or the directory itself to be retried. */
  ghost function Handing(w: W.State, p: Path): Option<Offer> {
    if p !in w.nodes then None
    else
      var at := w.nodes[p].at;
      if at.Handling? && at.entry.ChildSubmit? && p + [at.name] in w.nodes then
        Some(Offer(p + [at.name], if w.nodes[p + [at.name]].open then RUNNABLE else PARKED))
      else if at.Refusing? && W.Retryable(w, at.before) then Some(Offer(p, PARKED))
      else None
  }

  datatype Move =
    | Alone(act: S.Action<Path>)
    | Take(act: S.Action<Path>, thread: nat)
    | Work(step: W.Action)
    | HandOver(dir: Path, choice: W.Choice)
    | Return
    | SeedCall(choice: W.Choice)
    | SeedHandOver(choice: W.Choice)

  /** The worker's thread is inside Process and not inside Submit. */
  ghost predicate Processes(s: S.State<Path>) {
    s.threads != [] && s.threads[0].pc.Processing?
  }

  /** Outside Process, and without taking anything; Wait comes when every operand is seeded. */
  ghost predicate MovesAlone(c: W.Config, j: Joint, act: S.Action<Path>) {
    && !act.Submit? && (act.Wait? ==> j.w.seed == |c.operands|)
    && (act.WorkerStep? ==> !Processes(j.s))
    && forall k: nat :: !S.Takes(j.s, S.Step(j.s, act), k)
  }

  /** One step of the two, of either alone or of both where they meet. */
  ghost predicate Moves(c: W.Config, j: Joint, m: Move, j': Joint) {
    match m
    case Alone(act) => MovesAlone(c, j, act) && j' == Joint(j.w, S.Step(j.s, act))
    case Take(act, k) =>
      && S.Takes(j.s, S.Step(j.s, act), k) && j'.s == S.Step(j.s, act)
      && j'.w == W.Step(c, j.w, W.Acquire(j'.s.threads[k].pc.task))
    case Work(step) =>
      && Processes(j.s) && (step.Climb? || (step.Advance? && Handing(j.w, step.dir) == None))
      && j' == Joint(W.Step(c, j.w, step), j.s)
    case HandOver(p, choice) =>
      && Processes(j.s) && Handing(j.w, p).Some?
      && var o := Handing(j.w, p).value;
         j' == Joint(W.Step(c, j.w, W.Advance(p, choice)), S.Step(j.s, S.WorkerStep(0, S.SubmitChild(o.dir, o.priority))))
    case Return =>
      && Processes(j.s) && WalkTermination.Busy(j.w) == {}
      && j' == Joint(j.w, S.Step(j.s, S.WorkerStep(0, S.Go)))
    case SeedCall(choice) =>
      && j.s.outside.Idle? && j.w.seed < |c.operands| && !j.w.seedAt.SeedSubmit?
      && j' == Joint(W.Step(c, j.w, W.Seed(choice)), j.s)
    case SeedHandOver(choice) =>
      && j.s.outside.Idle? && j.w.seed < |c.operands| && j.w.seedAt.SeedSubmit?
      && j' == Joint(W.Step(c, j.w, W.Seed(choice)), S.Step(j.s, S.Submit([c.operands[j.w.seed]], RUNNABLE)))
  }

  ghost predicate Follows(c: W.Config, j: Joint, j': Joint) {
    exists m :: Moves(c, j, m, j')
  }

  /** The states of any interleaving of the main thread and one worker, with any answers. */
  ghost predicate IsRun(c: W.Config, run: seq<Joint>) {
    && run != [] && run[0] == Joint(W.Initial(c), S.Initial(1, PRIORITIES))
    && forall i | 0 <= i < |run| - 1 :: Follows(c, run[i], run[i + 1])
  }

  // ---- What always holds ----

  /** The scheduler holds each directory the walk has let go, once, and nothing else. */
  ghost predicate SameOffers(w: W.State, s: S.State<Path>) {
    forall o: Offer :: Held(s)[o] == if Stands(w, o) then 1 else 0
  }

  ghost predicate Scheduled(s: S.State<Path>) {
    S.Inv(s) && s.maxWorkers == 1 && s.priorities == PRIORITIES
  }

  ghost predicate Together(c: W.Config, j: Joint) {
    && WalkRun.Invariant(c, j.w) && Scheduled(j.s)
    && SameOffers(j.w, j.s)
    && (WalkTermination.Busy(j.w) != {} ==> AtWork(j.s))
    && (S.Ended(j.s) ==> j.w.seed == |c.operands|)
  }

  // ---- The scheduler's side ----

  lemma OneThread(s: S.State<Path>)
    requires Scheduled(s)
    ensures |s.threads| <= 1 && (s.outside.Idle? ==> !s.stop)
  {
    hide S.Counts, S.Conserves, S.Discipline, S.HasThread;
    S.FewThreads(s.threads, 1);
  }

  lemma QueuedMore(pool: seq<S.Entry<Path>>, e: S.Entry<Path>)
    ensures Queued(pool + [e]) == Queued(pool) + multiset{Offer(e.task, e.q.priority)}
  {
    assert (pool + [e])[..|pool|] == pool;
  }

  lemma {:induction false} QueuedLess(pool: seq<S.Entry<Path>>, i: nat)
    requires i < |pool|
    ensures Queued(S.Without(pool, i)) + multiset{Offer(pool[i].task, pool[i].q.priority)} == Queued(pool)
  {
    hide S.Without;
    var n := |pool| - 1;
    S.WithoutFromEnd(pool, i);
    if i < n { QueuedLess(pool[..n], i); }
  }

  lemma {:induction false} QueuedIs(pool: seq<S.Entry<Path>>, o: Offer)
    ensures Queued(pool)[o] > 0 <==> exists e | e in pool :: o == Offer(e.task, e.q.priority)
  {
    if pool != [] {
      var rest, last := pool[..|pool| - 1], pool[|pool| - 1];
      QueuedIs(rest, o);
      assert forall e :: e in pool <==> e in rest || e == last;
    }
  }

  /** A step alone may insert what was counted; it drops nothing and adds nothing. */
  lemma AloneHolds(c: W.Config, j: Joint, act: S.Action<Path>)
    requires Scheduled(j.s) && MovesAlone(c, j, act)
    ensures Held(S.Step(j.s, act)) == Held(j.s)
    ensures AtWork(j.s) ==> AtWork(S.Step(j.s, act))
  {
    hide S.Inv, Queued, S.Front, S.Back, S.StealFrom;
    OneThread(j.s);
    match act
    case Wait =>
    case OutsideStep(choice) => OutsideHolds(j.s, choice);
    case WorkerStep(k, choice) => if k < |j.s.threads| { WorkerHolds(j.s, choice); }
  }

  /** Pool and counted tasks as they were. */
  ghost predicate Same(s: S.State<Path>, s': S.State<Path>) {
    && s'.pool == s.pool && Carried(s'.threads) == Carried(s.threads) && Seeding(s'.outside) == Seeding(s.outside)
    && (AtWork(s) ==> AtWork(s'))
  }

  lemma OutsideInserts(s: S.State<Path>, choice: S.Choice<Path>)
    requires s.outside.OutsideCounted?
    ensures var s' := S.OutsideNext(s, choice);
      && s'.pool == s.pool + [S.Entry(S.Submitted(s.outside.priority), s.outside.task)]
      && s'.threads == s.threads && s'.outside.OutsideGrowing?
  {
    hide S.Grow;
  }

  /** From counted to queued. */
  lemma InsertHolds(s: S.State<Path>, s': S.State<Path>, e: S.Entry<Path>)
    requires s'.pool == s.pool + [e]
    requires multiset{Offer(e.task, e.q.priority)} + Carried(s'.threads) + Seeding(s'.outside)
          == Carried(s.threads) + Seeding(s.outside)
    ensures Held(s') == Held(s)
  {
    hide Carried, Seeding, Queued;
    QueuedMore(s.pool, e);
    forall o: Offer ensures Held(s')[o] == Held(s)[o] {
      assert (multiset{Offer(e.task, e.q.priority)} + Carried(s'.threads) + Seeding(s'.outside))[o]
          == (Carried(s.threads) + Seeding(s.outside))[o];
    }
  }

  lemma OutsideSame(s: S.State<Path>, choice: S.Choice<Path>)
    requires !s.outside.OutsideCounted?
    ensures Same(s, S.OutsideNext(s, choice))
  {
    hide S.Grow, Queued, Carried;
    if s.outside.OutsideGrowing? { GrowSame(s, s.outside.growth, choice.GiveUp?); }
  }

  lemma GrowSame(s: S.State<Path>, g: S.Growth, spurious: bool)
    ensures var s' := S.Grow(s, g, spurious).0;
      && s.threads <= s'.threads && s'.pool == s.pool && s'.outside == s.outside
      && Carried(s'.threads) == Carried(s.threads) && (AtWork(s) ==> AtWork(s'))
  {
  }

  lemma OutsideHolds(s: S.State<Path>, choice: S.Choice<Path>)
    ensures var s' := S.Step(s, S.OutsideStep(choice));
      Held(s') == Held(s) && (AtWork(s) ==> AtWork(s'))
  {
    hide Queued, Carried, S.OutsideNext;
    if s.outside.OutsideCounted? {
      OutsideInserts(s, choice);
      InsertHolds(s, S.OutsideNext(s, choice), S.Entry(S.Submitted(s.outside.priority), s.outside.task));
    } else {
      OutsideSame(s, choice);
    }
  }

  lemma WorkerInserts(s: S.State<Path>, choice: S.Choice<Path>)
    requires |s.threads| == 1 && s.threads[0].pc.Counted?
    ensures var s' := S.Step(s, S.WorkerStep(0, choice));
      Held(s') == Held(s) && AtWork(s')
  {
    hide Queued, S.Grow, S.Claim, Held, Seeding;
    var me := s.threads[0];
    InsertHolds(s, S.WorkerNext(s, 0, choice), S.Entry(S.Own(me.slot, me.pc.priority), me.pc.child));
  }

  lemma WorkerGrows(s: S.State<Path>, choice: S.Choice<Path>)
    requires |s.threads| == 1 && s.threads[0].pc.Growing?
    ensures Same(s, S.WorkerNext(s, 0, choice))
  {
    hide S.Grow, S.WorkerNext, S.OwedBy, Queued;
    var pc := S.GrowMoves(s, 0, choice);
    GrowSame(s, s.threads[0].pc.growth, choice.GiveUp?);
  }

  lemma ClaimNothing(s: S.State<Path>, q: S.QueueId, kind: S.Kind, i: int, otherwise: S.Pc<Path>)
    requires |s.threads| == 1 && S.Scans(s.threads[0].pc) && (S.Scans(otherwise) || otherwise.LoopHead?)
    requires -1 <= i < |s.pool| && |S.Claim(s, 0, q, kind, i, otherwise).threads| == 1
    requires !S.Claim(s, 0, q, kind, i, otherwise).threads[0].pc.Processing?
    ensures Same(s, S.Claim(s, 0, q, kind, i, otherwise))
  {
    hide S.Without, Queued;
  }

  lemma WorkerLooks(s: S.State<Path>, choice: S.Choice<Path>)
    requires |s.threads| == 1 && S.Scans(s.threads[0].pc)
    requires !S.Takes(s, S.WorkerNext(s, 0, choice), 0)
    ensures Same(s, S.WorkerNext(s, 0, choice))
  {
    hide S.WorkerNext, S.Claim, Queued, Same, S.OwedBy;
    var skips, q, kind, i, otherwise := S.Look(s, 0, choice);
    if skips { SkipSame(s, otherwise); }
    else {
      ClaimThreads(s, q, kind, i, otherwise);
      ClaimNothing(s, q, kind, i, otherwise);
    }
  }

  lemma ClaimThreads(s: S.State<Path>, q: S.QueueId, kind: S.Kind, i: int, otherwise: S.Pc<Path>)
    requires |s.threads| == 1 && -1 <= i < |s.pool|
    ensures |S.Claim(s, 0, q, kind, i, otherwise).threads| == 1
  {
    hide S.Without;
  }

  lemma SkipSame(s: S.State<Path>, otherwise: S.Pc<Path>)
    requires |s.threads| == 1 && S.Scans(s.threads[0].pc) && (S.Scans(otherwise) || otherwise.LoopHead?)
    ensures Same(s, S.WithPc(s, 0, otherwise))
  {
    hide Queued;
  }

  lemma WorkerRests(s: S.State<Path>, choice: S.Choice<Path>)
    requires |s.threads| == 1
    requires var pc := s.threads[0].pc; pc.LoopHead? || pc.Processed? || pc.Exited?
    ensures Same(s, S.Step(s, S.WorkerStep(0, choice)))
  {
    hide S.Claim, S.Front, S.Back, S.StealFrom, S.Grow;
  }

  lemma WorkerHolds(s: S.State<Path>, choice: S.Choice<Path>)
    requires |s.threads| == 1 && !s.threads[0].pc.Processing?
    requires !S.Takes(s, S.Step(s, S.WorkerStep(0, choice)), 0)
    ensures var s' := S.Step(s, S.WorkerStep(0, choice));
      Held(s') == Held(s) && (AtWork(s) ==> AtWork(s'))
  {
    hide Queued, Carried, Seeding, AtWork, S.WorkerNext, S.Takes;
    var pc := s.threads[0].pc;
    if pc.Counted? { WorkerInserts(s, choice); }
    else if pc.Growing? { WorkerGrows(s, choice); }
    else if S.Scans(pc) { WorkerLooks(s, choice); }
    else { WorkerRests(s, choice); }
  }

  /** The step keeps the two constants and what Inv says. */
  lemma StepScheduled(s: S.State<Path>, act: S.Action<Path>)
    requires Scheduled(s)
    ensures Scheduled(S.Step(s, act))
  {
    hide S.Inv, S.Step;
    S.StepInv(s, act);
    S.StepKeepsMax(s, act);
    StepKeepsPriorities(s, act);
  }

  lemma StepKeepsPriorities(s: S.State<Path>, act: S.Action<Path>)
    ensures S.Step(s, act).priorities == s.priorities
  {
    hide S.Front, S.Back, S.StealFrom;
  }

  // ---- The walk's side ----

  /** The same directories stand to be taken. */
  ghost predicate SameStands(w: W.State, w': W.State) {
    forall o :: Stands(w', o) <==> Stands(w, o)
  }

  lemma WorkStands(c: W.Config, w: W.State, p: Path, choice: W.Choice)
    requires WalkFamily.Family(c, w) && Handing(w, p) == None
    ensures SameStands(w, W.Step(c, w, W.Advance(p, choice)))
  {
    hide WalkFamily.Family, W.HandleEntry, W.Children, W.Possible, W.Render, W.GiveUp, W.Retryable, W.DropReference;
    if p in w.nodes && W.AdvanceDir(c, w, p, choice) != w {
      var at := w.nodes[p].at;
      if at.Handling? && at.entry.ChildNew? { BirthStands(c, w, p, choice); }
      else if at.Handling? && at.entry.ChildSubmit? { WalkFamily.Unborn(c, w, p); }
      else if !at.Dropping? && !at.Removed? { MoveStands(c, w, p, choice); }
    }
  }

  lemma BirthStands(c: W.Config, w: W.State, p: Path, choice: W.Choice)
    requires WalkFamily.Family(c, w) && p in w.nodes && w.nodes[p].at.Handling? && w.nodes[p].at.entry.ChildNew?
    ensures SameStands(w, W.HandleEntry(c, w, p, choice))
  {
    hide WalkFamily.Family, W.Possible, W.Render, W.GiveUp, W.Retryable;
    WalkTermination.NewInTree(c, w, p);
  }

  lemma MoveStands(c: W.Config, w: W.State, p: Path, choice: W.Choice)
    requires p in w.nodes && W.AdvanceDir(c, w, p, choice) != w && Handing(w, p) == None
    requires var at := w.nodes[p].at;
      && !at.Dropping? && !at.Removed?
      && !(at.Handling? && (at.entry.ChildNew? || at.entry.ChildSubmit?))
    ensures SameStands(w, W.AdvanceDir(c, w, p, choice))
  {
    hide W.HandleEntry, W.Possible, W.Render, W.GiveUp, W.Retryable, W.Children, W.DropReference;
    assert WalkTermination.Active(w.nodes[p].at);
    WalkTermination.MovedOn(c, w, p, choice);
    hide W.AdvanceDir;
  }

  lemma ClimbStands(c: W.Config, w: W.State, p: Path)
    requires WalkFamily.Family(c, w)
    ensures SameStands(w, W.Step(c, w, W.Climb(p)))
  {
    hide WalkFamily.FsOk, WalkFamily.NodeOk, WalkFamily.RefsOk, WalkFamily.LivesOk, WalkFamily.SeedOk;
    if p in w.climbing { assert WalkFamily.ClimbOk(w, p); }
  }

  /** Handing over adds what is handed over. */
  lemma HandingStands(c: W.Config, w: W.State, p: Path, choice: W.Choice)
    requires WalkFamily.Family(c, w) && Handing(w, p).Some?
    ensures var w' := W.Step(c, w, W.Advance(p, choice)); var handed := Handing(w, p).value;
      && (forall o :: Stands(w', o) <==> Stands(w, o) || o == handed)
      && !Stands(w, handed) && handed.priority < PRIORITIES
  {
    hide WalkFamily.Family, W.Possible, W.Render, W.GiveUp, W.Retryable, W.Children;
    if w.nodes[p].at.Handling? { WalkFamily.Unborn(c, w, p); }
  }

  lemma SeedCallKeeps(c: W.Config, w: W.State, choice: W.Choice)
    requires w.seed < |c.operands| && !w.seedAt.SeedSubmit? && !w.seedAt.SeedRefused?
    ensures var w' := W.SeedNext(c, w, choice);
      w'.nodes == w.nodes && w'.climbing == w.climbing && w'.seed <= |c.operands|
  {
    hide W.Possible, W.Render, W.GiveUp;
  }

  lemma SeedRefusedKeeps(c: W.Config, w: W.State, choice: W.Choice)
    requires w.seed < |c.operands| && w.seedAt.SeedRefused?
    ensures var w' := W.SeedNext(c, w, choice);
      w'.nodes == w.nodes && w'.climbing == w.climbing && w'.seed <= |c.operands|
  {
    hide W.Possible, W.Render, W.GiveUp;
    var p, line := [c.operands[w.seed]], c.operands[w.seed];
    var err := if choice.Answer? then choice.err else Some(W.OtherError(0));
    if W.GiveUp(c, w, p, line, err).Some? { WalkFamily.GiveUpKeeps(c, w, p, line, err); }
  }

  lemma SeedStands(c: W.Config, w: W.State, choice: W.Choice)
    requires w.seed < |c.operands| && !w.seedAt.SeedSubmit?
    ensures var w' := W.Step(c, w, W.Seed(choice));
      SameStands(w, w') && WalkTermination.Busy(w') == WalkTermination.Busy(w) && w'.seed <= |c.operands|
  {
    hide W.SeedNext;
    if w.seedAt.SeedRefused? { SeedRefusedKeeps(c, w, choice); } else { SeedCallKeeps(c, w, choice); }
  }

  lemma SubmitAdds(c: W.Config, w: W.State, choice: W.Choice)
    requires w.seed < |c.operands| && w.seedAt.SeedSubmit?
    ensures var w' := W.Step(c, w, W.Seed(choice));
      && w'.nodes == w.nodes[[c.operands[w.seed]] := W.DirNode(1, true, W.Queued)]
      && w'.climbing == w.climbing && w'.seed == w.seed + 1
  {
  }

  lemma RootStands(w: W.State, w': W.State, p: Path)
    requires p !in w.nodes && w'.nodes == w.nodes[p := W.DirNode(1, true, W.Queued)] && w'.climbing == w.climbing
    ensures forall o :: Stands(w', o) <==> Stands(w, o) || o == Offer(p, RUNNABLE)
    ensures !Stands(w, Offer(p, RUNNABLE)) && WalkTermination.Busy(w') == WalkTermination.Busy(w)
  {
    assert forall q | q in w'.nodes && q != p :: q in w.nodes && w'.nodes[q] == w.nodes[q];
  }

  lemma SubmitStands(c: W.Config, w: W.State, choice: W.Choice)
    requires WalkFamily.Family(c, w) && w.seed < |c.operands| && w.seedAt.SeedSubmit?
    ensures var w', handed := W.Step(c, w, W.Seed(choice)), Offer([c.operands[w.seed]], RUNNABLE);
      && (forall o :: Stands(w', o) <==> Stands(w, o) || o == handed)
      && !Stands(w, handed) && WalkTermination.Busy(w') == WalkTermination.Busy(w) && w'.seed <= |c.operands|
  {
    hide WalkFamily.Family, W.Step, Stands;
    WalkFamily.NoRootYet(c, w);
    SubmitAdds(c, w, choice);
    RootStands(w, W.Step(c, w, W.Seed(choice)), [c.operands[w.seed]]);
  }

  // ---- Each move keeps them together ----

  /** Both let go of the same directory, or take it up. */
  lemma OfferAdded(w: W.State, s: S.State<Path>, w': W.State, s': S.State<Path>, handed: Offer)
    requires SameOffers(w, s) && Held(s') == Held(s) + multiset{handed} && !Stands(w, handed)
    requires forall o :: Stands(w', o) <==> Stands(w, o) || o == handed
    ensures SameOffers(w', s')
  {
    hide Held, Stands;
  }

  lemma OfferTaken(w: W.State, s: S.State<Path>, w': W.State, s': S.State<Path>, taken: Offer)
    requires SameOffers(w, s) && Held(s) == Held(s') + multiset{taken} && !Stands(w', taken)
    requires forall o | o != taken :: Stands(w', o) <==> Stands(w, o)
    ensures SameOffers(w', s')
  {
    hide Held, Stands;
    forall o: Offer ensures Held(s')[o] == if Stands(w', o) then 1 else 0 {
      assert Held(s)[o] == if Stands(w, o) then 1 else 0;
    }
  }

  lemma NothingMoves(w: W.State, s: S.State<Path>, w': W.State, s': S.State<Path>)
    requires SameOffers(w, s) && Held(s') == Held(s) && SameStands(w, w')
    ensures SameOffers(w', s')
  {
    hide Held, Stands;
    forall o: Offer ensures Held(s')[o] == if Stands(w', o) then 1 else 0 {
      assert Held(s)[o] == if Stands(w, o) then 1 else 0;
    }
  }

  lemma AloneTogether(c: W.Config, j: Joint, act: S.Action<Path>)
    requires Together(c, j) && MovesAlone(c, j, act)
    ensures Together(c, Joint(j.w, S.Step(j.s, act)))
  {
    hide WalkRun.Invariant, SameOffers, S.Step, WalkTermination.Busy, MovesAlone, AtWork, S.Inv;
    StepScheduled(j.s, act);
    AloneHolds(c, j, act);
    NothingMoves(j.w, j.s, j.w, S.Step(j.s, act));
    if S.Ended(S.Step(j.s, act)) { AloneEnds(c, j, act); }
  }

  lemma WorkerKeepsOutside(s: S.State<Path>, k: nat, choice: S.Choice<Path>)
    requires k < |s.threads|
    ensures S.WorkerNext(s, k, choice).outside == s.outside
  {
    if s.threads[k].pc.Growing? {
      hide S.WorkerNext, S.OwedBy;
      var pc := S.GrowMoves(s, k, choice);
    } else {
      hide S.WorkerNext;
      S.WorkerFrame(s, k, choice);
    }
  }

  lemma AloneEnds(c: W.Config, j: Joint, act: S.Action<Path>)
    requires MovesAlone(c, j, act) && S.Ended(S.Step(j.s, act))
    ensures S.Ended(j.s) || j.w.seed == |c.operands|
  {
    hide S.Takes, Processes, S.WorkerNext;
    if act.WorkerStep? && act.thread < |j.s.threads| { WorkerKeepsOutside(j.s, act.thread, act.choice); }
  }

  /** A take empties one place of the pool, and the worker is then inside Process. */
  lemma TakeHolds(s: S.State<Path>, act: S.Action<Path>, k: nat) returns (taken: Offer)
    requires Scheduled(s) && S.Takes(s, S.Step(s, act), k)
    ensures var s' := S.Step(s, act);
      && k == 0 && AtWork(s') && !AtWork(s) && s'.outside == s.outside
      && Held(s) == Held(s') + multiset{taken} && taken.dir == s'.threads[0].pc.task && taken.priority == s'.threads[0].pc.taken
  {
    hide S.Inv, Queued, S.Step, S.Without;
    var s' := S.Step(s, act);
    OneThread(s);
    var n := S.TakesQueued(s, act, k);
    TakeFrame(s, act);
    taken := Offer(s.pool[n].task, s.pool[n].q.priority);
    QueuedLess(s.pool, n);
  }

  lemma TakeFrame(s: S.State<Path>, act: S.Action<Path>)
    requires |s.threads| == 1 && S.Takes(s, S.Step(s, act), 0)
    ensures S.Step(s, act).outside == s.outside
    ensures !s.threads[0].pc.Counted? && !AtWork(s)
  {
    hide S.Step;
    S.TakerSteps(s, act, 0);
    var pc := s.threads[0].pc;
    assert !pc.Growing? && !pc.Counted? && !pc.Processing?;
    StepIsWorkers(s, act);
    WorkerKeepsOutside(s, 0, act.choice);
  }

  lemma StepIsWorkers(s: S.State<Path>, act: S.Action<Path>)
    requires act.WorkerStep? && act.thread < |s.threads|
    ensures S.Step(s, act) == S.WorkerNext(s, act.thread, act.choice)
  {
    hide S.WorkerNext;
  }

  /** Seeding that is over stays over. */
  lemma SeededStays(c: W.Config, w: W.State, act: W.Action)
    requires W.ValidConfig(c) && WalkRun.Invariant(c, w)
    ensures var w' := W.Step(c, w, act);
      WalkRun.Invariant(c, w') && (w.seed == |c.operands| ==> w'.seed == |c.operands|)
  {
    hide W.Step, WalkFamily.Family, WalkHistory.Noticed, WalkHistory.Untouched, WalkHistory.Record;
    WalkRun.StepInvariant(c, w, act);
    var e := WalkHistory.StepSummary(c, w, act);
    SeedWithin(c, W.Step(c, w, act));
  }

  lemma SeedWithin(c: W.Config, w: W.State)
    requires WalkFamily.Family(c, w)
    ensures w.seed <= |c.operands|
  {
  }

  lemma AcquireStands(c: W.Config, w: W.State, taken: Offer)
    requires Stands(w, taken)
    ensures var w' := W.Step(c, w, W.Acquire(taken.dir));
      !Stands(w', taken) && forall o | o != taken :: Stands(w', o) <==> Stands(w, o)
  {
    hide W.Children;
  }

  lemma TakeTogether(c: W.Config, j: Joint, act: S.Action<Path>, k: nat)
    requires W.ValidConfig(c) && Together(c, j) && S.Takes(j.s, S.Step(j.s, act), k)
    ensures var s' := S.Step(j.s, act); Together(c, Joint(W.Step(c, j.w, W.Acquire(s'.threads[k].pc.task)), s'))
  {
    hide WalkRun.Invariant, Held, Stands, S.Step, W.Step, WalkTermination.Busy, S.Inv, AtWork;
    var taken := TakeHolds(j.s, act, k);
    StepScheduled(j.s, act);
    SeededStays(c, j.w, W.Acquire(taken.dir));
    assert Held(j.s)[taken] == if Stands(j.w, taken) then 1 else 0;
    AcquireStands(c, j.w, taken);
    OfferTaken(j.w, j.s, W.Step(c, j.w, W.Acquire(taken.dir)), S.Step(j.s, act), taken);
  }

  lemma WorkTogether(c: W.Config, j: Joint, step: W.Action)
    requires W.ValidConfig(c) && Together(c, j) && Moves(c, j, Work(step), Joint(W.Step(c, j.w, step), j.s))
    ensures Together(c, Joint(W.Step(c, j.w, step), j.s))
  {
    hide WalkFamily.Family, WalkHistory.History, Held, Stands, W.Step, WalkTermination.Busy, S.Inv, Handing, SameStands;
    SeededStays(c, j.w, step);
    match step {
      case Climb(p) => ClimbStands(c, j.w, p);
      case Advance(p, choice) => WorkStands(c, j.w, p, choice);
    }
    NothingMoves(j.w, j.s, W.Step(c, j.w, step), j.s);
  }

  lemma SubmitsChild(s: S.State<Path>, handed: Offer)
    requires Processes(s) && handed.priority < s.priorities
    ensures var s' := S.Step(s, S.WorkerStep(0, S.SubmitChild(handed.dir, handed.priority)));
      && s'.pool == s.pool && s'.outside == s.outside && s'.threads != []
      && s'.threads[0].pc.Counted? && Offer(s'.threads[0].pc.child, s'.threads[0].pc.priority) == handed
  {
    hide S.Claim, S.Grow;
  }

  /** The worker's thread goes into Submit. */
  lemma HandOverHolds(s: S.State<Path>, handed: Offer)
    requires Scheduled(s) && Processes(s) && handed.priority < PRIORITIES
    ensures var s' := S.Step(s, S.WorkerStep(0, S.SubmitChild(handed.dir, handed.priority)));
      Held(s') == Held(s) + multiset{handed} && AtWork(s') && s'.outside == s.outside
  {
    hide S.Inv, Queued, Seeding, S.Step;
    SubmitsChild(s, handed);
  }

  lemma HandOverTogether(c: W.Config, j: Joint, p: Path, choice: W.Choice)
    requires W.ValidConfig(c) && Together(c, j) && Processes(j.s) && Handing(j.w, p).Some?
    ensures var o := Handing(j.w, p).value;
      Together(c, Joint(W.Step(c, j.w, W.Advance(p, choice)), S.Step(j.s, S.WorkerStep(0, S.SubmitChild(o.dir, o.priority)))))
  {
    hide WalkFamily.Family, WalkHistory.History, Held, Stands, W.Step, S.Step, WalkTermination.Busy, S.Inv, Handing, AtWork;
    var o := Handing(j.w, p).value;
    HandingStands(c, j.w, p, choice);
    HandOverHolds(j.s, o);
    SeededStays(c, j.w, W.Advance(p, choice));
    StepScheduled(j.s, S.WorkerStep(0, S.SubmitChild(o.dir, o.priority)));
    OfferAdded(j.w, j.s, W.Step(c, j.w, W.Advance(p, choice)), S.Step(j.s, S.WorkerStep(0, S.SubmitChild(o.dir, o.priority))), o);
  }

  lemma ReturnHolds(s: S.State<Path>)
    requires Processes(s)
    ensures var s' := S.Step(s, S.WorkerStep(0, S.Go)); Held(s') == Held(s) && s'.outside == s.outside
  {
    hide Queued, S.Claim, S.Grow;
  }

  lemma ReturnTogether(c: W.Config, j: Joint)
    requires Together(c, j) && Processes(j.s) && WalkTermination.Busy(j.w) == {}
    ensures Together(c, Joint(j.w, S.Step(j.s, S.WorkerStep(0, S.Go))))
  {
    hide WalkRun.Invariant, Held, Stands, S.Step, WalkTermination.Busy, S.Inv;
    ReturnHolds(j.s);
    StepScheduled(j.s, S.WorkerStep(0, S.Go));
    NothingMoves(j.w, j.s, j.w, S.Step(j.s, S.WorkerStep(0, S.Go)));
  }

  lemma SeedCallTogether(c: W.Config, j: Joint, choice: W.Choice)
    requires W.ValidConfig(c) && Together(c, j) && j.w.seed < |c.operands| && !j.w.seedAt.SeedSubmit?
    ensures Together(c, Joint(W.Step(c, j.w, W.Seed(choice)), j.s))
  {
    hide WalkRun.Invariant, Held, Stands, W.Step, WalkTermination.Busy, S.Inv, AtWork;
    SeededStays(c, j.w, W.Seed(choice));
    SeedStands(c, j.w, choice);
    NothingMoves(j.w, j.s, W.Step(c, j.w, W.Seed(choice)), j.s);
  }

  lemma SubmitHolds(s: S.State<Path>, handed: Offer)
    requires s.outside.Idle? && !s.stop && handed.priority < s.priorities
    ensures var s' := S.Step(s, S.Submit(handed.dir, handed.priority));
      Held(s') == Held(s) + multiset{handed} && s'.threads == s.threads && !S.Ended(s')
  {
    hide Queued, Carried;
  }

  lemma SeedHandOverTogether(c: W.Config, j: Joint, choice: W.Choice)
    requires W.ValidConfig(c) && Together(c, j) && j.s.outside.Idle? && j.w.seed < |c.operands| && j.w.seedAt.SeedSubmit?
    ensures Together(c, Joint(W.Step(c, j.w, W.Seed(choice)), S.Step(j.s, S.Submit([c.operands[j.w.seed]], RUNNABLE))))
  {
    hide WalkFamily.Family, WalkHistory.History, Held, Stands, W.Step, S.Step, WalkTermination.Busy, S.Inv;
    var handed := Offer([c.operands[j.w.seed]], RUNNABLE);
    OneThread(j.s);
    SeededStays(c, j.w, W.Seed(choice));
    SubmitStands(c, j.w, choice);
    SubmitHolds(j.s, handed);
    StepScheduled(j.s, S.Submit(handed.dir, RUNNABLE));
    OfferAdded(j.w, j.s, W.Step(c, j.w, W.Seed(choice)), S.Step(j.s, S.Submit(handed.dir, RUNNABLE)), handed);
  }

  lemma MoveTogether(c: W.Config, j: Joint, m: Move, j': Joint)
    requires W.ValidConfig(c) && Together(c, j) && Moves(c, j, m, j')
    ensures Together(c, j')
  {
    hide Together, MovesAlone, S.Step, S.Takes, W.Step, Processes, Handing, WalkTermination.Busy;
    match m
    case Alone(act) => AloneTogether(c, j, act);
    case Take(act, k) => TakeTogether(c, j, act, k);
    case Work(step) => WorkTogether(c, j, step);
    case HandOver(p, choice) => HandOverTogether(c, j, p, choice);
    case Return => ReturnTogether(c, j);
    case SeedCall(choice) => SeedCallTogether(c, j, choice);
    case SeedHandOver(choice) => SeedHandOverTogether(c, j, choice);
  }

  lemma InitialTogether(c: W.Config)
    requires W.ValidConfig(c)
    ensures Together(c, Joint(W.Initial(c), S.Initial(1, PRIORITIES)))
  {
    WalkRun.InitialInvariant(c);
    hide WalkRun.Invariant;
    assert Scheduled(S.Initial(1, PRIORITIES)) by { InitialScheduled(); }
    hide S.Inv;
  }

  lemma InitialScheduled()
    ensures Scheduled(S.Initial(1, PRIORITIES))
  {
    S.RunInv<Path>(1, PRIORITIES, [S.Initial(1, PRIORITIES)]);
    hide S.Inv;
  }

  // ---- Whole runs ----

  lemma {:induction false} RunTogether(c: W.Config, run: seq<Joint>, i: nat)
    requires W.ValidConfig(c) && IsRun(c, run) && i < |run|
    ensures Together(c, run[i])
  {
    hide Together, Moves;
    if i == 0 {
      InitialTogether(c);
    } else {
      RunTogether(c, run, i - 1);
      assert Follows(c, run[i - 1], run[i]);
      var m :| Moves(c, run[i - 1], m, run[i]);
      MoveTogether(c, run[i - 1], m, run[i]);
    }
  }

  /**
   * Over every run of the main thread and one worker: what was submitted and not taken is
   * what the walk has let go, each directory once and at its priority; and while the walk
   * has a directory in hand the worker is inside Process.
   */
  lemma QueuesMatch(c: W.Config, run: seq<Joint>)
    requires W.ValidConfig(c) && IsRun(c, run)
    ensures var j := Final(run);
      && (forall o: Offer :: Held(j.s)[o] == if Stands(j.w, o) then 1 else 0)
      && (WalkTermination.Busy(j.w) != {} ==> AtWork(j.s))
  {
    hide Moves;
    RunTogether(c, run, |run| - 1);
  }

  /** The walk's half of a run. */
  ghost function Walks(run: seq<Joint>): (walks: seq<W.State>)
    ensures |walks| == |run| && forall i | 0 <= i < |run| :: walks[i] == run[i].w
  {
    seq(|run|, i requires 0 <= i < |run| => run[i].w)
  }

  /** Seeding is over, and the worker is back at its queues with nothing in hand. */
  ghost predicate AtRest(s: S.State<Path>) {
    S.BetweenTasks(s) && forall t | t in s.threads :: S.OwedBy(t.pc) == multiset{}
  }

  /** Whatever moves, the walk takes a step of its own or rests. */
  lemma WalkFollows(c: W.Config, j: Joint, m: Move, j': Joint)
    requires Together(c, j) && Moves(c, j, m, j')
    ensures WalkRun.Follows(c, j.w, j'.w)
  {
    hide WalkFamily.Family, WalkHistory.History, SameOffers, W.AdvanceDir, W.SeedNext, S.Step, S.Inv, Handing;
    match m {
      case Alone(_) => Resting(c, j.w);
      case Return => Resting(c, j.w);
      case Take(act, k) => assert j'.w == W.Step(c, j.w, W.Acquire(j'.s.threads[k].pc.task));
      case Work(step) => assert j'.w == W.Step(c, j.w, step);
      case HandOver(p, choice) => assert j'.w == W.Step(c, j.w, W.Advance(p, choice));
      case SeedCall(choice) => assert j'.w == W.Step(c, j.w, W.Seed(choice));
      case SeedHandOver(choice) => assert j'.w == W.Step(c, j.w, W.Seed(choice));
    }
  }

  /** An action that does not apply. */
  lemma Resting(c: W.Config, w: W.State)
    requires WalkFamily.Family(c, w)
    ensures WalkRun.Follows(c, w, w)
  {
    hide WalkFamily.Family;
    if [] in w.nodes { WalkFamily.NonEmpty(c, w, []); }
    assert W.Step(c, w, W.Acquire([])) == w;
  }

  lemma WalksRun(c: W.Config, run: seq<Joint>)
    requires W.ValidConfig(c) && IsRun(c, run)
    ensures WalkRun.IsRun(c, Walks(run))
  {
    hide Together, Moves, WalkRun.Follows, W.Initial, S.Initial;
    var walks := Walks(run);
    forall i | 0 <= i < |walks| - 1 ensures WalkRun.Follows(c, walks[i], walks[i + 1]) {
      RunTogether(c, run, i);
      assert Follows(c, run[i], run[i + 1]);
      var m :| Moves(c, run[i], m, run[i + 1]);
      WalkFollows(c, run[i], m, run[i + 1]);
    }
  }

  // ---- One worker, seeding over ----

  lemma TidyMoves(c: W.Config, j: Joint, m: Move, j': Joint)
    requires Together(c, j) && S.Tidy(j.s) && Moves(c, j, m, j')
    ensures S.Tidy(j'.s)
  {
    hide WalkRun.Invariant, SameOffers, S.Inv, S.Tidy, S.Step, S.Takes, W.Step, Handing, WalkTermination.Busy;
    match m {
      case Alone(act) => S.TidyStays(j.s, act);
      case Take(act, k) => S.TidyStays(j.s, act);
      case Return => S.TidyStays(j.s, S.WorkerStep(0, S.Go));
      case HandOver(p, choice) =>
        var o := Handing(j.w, p).value;
        S.TidyStays(j.s, S.WorkerStep(0, S.SubmitChild(o.dir, o.priority)));
      case SeedHandOver(_) => S.TidyStays(j.s, S.Submit([c.operands[j.w.seed]], RUNNABLE));
      case _ =>
    }
  }

  lemma {:induction false} TidyFrom(c: W.Config, run: seq<Joint>, m: nat, i: nat)
    requires W.ValidConfig(c) && IsRun(c, run) && m <= i < |run| && AtRest(run[m].s)
    ensures Together(c, run[i]) && S.Tidy(run[i].s)
    decreases i
  {
    hide Together, Moves, S.Tidy, W.Initial, S.Initial;
    RunTogether(c, run, i);
    if i == m {
      S.BetweenIsTidy(run[m].s);
    } else {
      TidyFrom(c, run, m, i - 1);
      assert Follows(c, run[i - 1], run[i]);
      var move :| Moves(c, run[i - 1], move, run[i]);
      TidyMoves(c, run[i - 1], move, run[i]);
    }
  }

  lemma RestIsSolo(c: W.Config, j: Joint)
    requires Together(c, j) && AtRest(j.s)
    ensures WalkTermination.Solo(c, j.w) && WalkTermination.Busy(j.w) == {}
  {
    hide WalkRun.Invariant, SameOffers, S.Inv, WalkTermination.Busy;
    assert !AtWork(j.s);
  }

  /** With nothing counted elsewhere, what stands to be taken is in the pool. */
  lemma StandsInPool(w: W.State, s: S.State<Path>, o: Offer)
    requires SameOffers(w, s) && Stands(w, o) && Carried(s.threads) == multiset{} && Seeding(s.outside) == multiset{}
    ensures exists e | e in s.pool :: o == Offer(e.task, e.q.priority)
  {
    hide Stands, Queued, Carried, Seeding;
    assert Held(s)[o] == 1;
    QueuedIs(s.pool, o);
  }

  /** What the worker takes is what the walk's rule for one worker lets it acquire. */
  lemma TakeIsSolo(c: W.Config, j: Joint, act: S.Action<Path>, k: nat)
    requires Together(c, j) && S.Tidy(j.s) && S.Takes(j.s, S.Step(j.s, act), k)
    ensures WalkTermination.SoloStep(c, j.w, W.Acquire(S.Step(j.s, act).threads[k].pc.task))
  {
    hide WalkRun.Invariant, S.Inv, S.Tidy, S.Step, S.Takes, Held, AtWork, Queued;
    var taken := TakeHolds(j.s, act, k);
    S.UrgentTake(j.s, act, k);
    NothingCounted(j.s, act, k);
    assert Held(j.s)[taken] == if Stands(j.w, taken) then 1 else 0;
    assert Stands(j.w, taken);
    if taken.priority == PARKED {
      forall q | q in j.w.nodes ensures !j.w.nodes[q].at.Queued? {
        if j.w.nodes[q].at.Queued? { StandsInPool(j.w, j.s, Offer(q, RUNNABLE)); }
      }
    }
    Acquirable(c, j.w, taken);
  }

  lemma NothingCounted(s: S.State<Path>, act: S.Action<Path>, k: nat)
    requires Scheduled(s) && S.Tidy(s) && S.Takes(s, S.Step(s, act), k)
    ensures Carried(s.threads) == multiset{} && Seeding(s.outside) == multiset{}
  {
    hide S.Inv, S.Step;
    OneThread(s);
  }

  lemma Acquirable(c: W.Config, w: W.State, taken: Offer)
    requires Stands(w, taken) && WalkTermination.Busy(w) == {}
    requires taken.priority == PARKED ==> forall q | q in w.nodes :: !w.nodes[q].at.Queued?
    ensures WalkTermination.SoloStep(c, w, W.Acquire(taken.dir))
  {
    hide WalkTermination.Busy, W.Children;
    assert W.AcquireDir(w, taken.dir).nodes[taken.dir].at != w.nodes[taken.dir].at;
  }

  lemma AdvanceIsSolo(c: W.Config, w: W.State, p: Path, choice: W.Choice)
    ensures var act := W.Advance(p, choice); W.Step(c, w, act) == w || WalkTermination.SoloStep(c, w, act)
  {
    hide W.HandleEntry, W.Possible, W.Children, W.GiveUp, W.Retryable, W.Delete, W.DropReference;
  }

  lemma MoveIsSolo(c: W.Config, j: Joint, m: Move, j': Joint)
    requires Together(c, j) && S.Tidy(j.s) && Moves(c, j, m, j')
    ensures j'.w == j.w || WalkTermination.SoloFollows(c, j.w, j'.w)
  {
    hide WalkRun.Invariant, SameOffers, S.Inv, S.Step, W.Step, Handing, WalkTermination.SoloStep, WalkTermination.Busy;
    match m {
      case Alone(_) =>
      case Return =>
      case Take(act, k) =>
        TakeIsSolo(c, j, act, k);
        assert j'.w == W.Step(c, j.w, W.Acquire(j'.s.threads[k].pc.task));
      case Work(step) =>
        if step.Advance? { AdvanceIsSolo(c, j.w, step.dir, step.choice); } else { ClimbIsSolo(c, j.w, step); }
      case HandOver(p, choice) => AdvanceIsSolo(c, j.w, p, choice);
      case SeedCall(_) => assert false;
      case SeedHandOver(_) => assert false;
    }
  }

  lemma ClimbIsSolo(c: W.Config, w: W.State, act: W.Action)
    requires act.Climb?
    ensures W.Step(c, w, act) == w || WalkTermination.SoloStep(c, w, act)
  {
    hide W.ClimbFrom;
  }

  /**
   * From any point of a run of the main thread and one worker at which seeding is over and
   * the worker is back at its queues, the walk's half is the run of a lone worker that
   * takes a parked directory only when none is runnable: what is said of such runs holds
   * of the program with one worker.
   */
  lemma LoneWorker(c: W.Config, run: seq<Joint>, m: nat)
    requires W.ValidConfig(c) && IsRun(c, run) && m < |run| && AtRest(run[m].s)
    ensures WalkRun.IsRun(c, Walks(run)) && WalkTermination.SoloFrom(c, Walks(run), m)
  {
    hide Together, Moves, AtRest, S.Tidy, W.Initial, S.Initial, WalkTermination.Solo, WalkTermination.Busy, WalkTermination.SoloFollows;
    WalksRun(c, run);
    RunTogether(c, run, m);
    RestIsSolo(c, run[m]);
    var walks := Walks(run);
    forall i | m <= i < |walks| - 1 ensures walks[i + 1] == walks[i] || WalkTermination.SoloFollows(c, walks[i], walks[i + 1]) {
      TidyFrom(c, run, m, i);
      assert Follows(c, run[i], run[i + 1]);
      var move :| Moves(c, run[i], move, run[i + 1]);
      MoveIsSolo(c, run[i], move, run[i + 1]);
    }
  }

  lemma OnlyTakes(c: W.Config, j: Joint, m: Move, j': Joint)
    requires Moves(c, j, m, j') && S.Takes(j.s, j'.s, 0)
    ensures m.Take?
  {
    hide S.WorkerNext, S.OutsideNext, W.Step, Handing, WalkTermination.Busy;
  }

  /**
   * From then on whatever the scheduler hands out is a directory the walk's rule lets the
   * lone worker acquire, a parked one only when none is runnable, and the walk acquires it.
   */
  lemma RunnableFirst(c: W.Config, run: seq<Joint>, m: nat, i: nat)
    requires W.ValidConfig(c) && IsRun(c, run) && m <= i < |run| - 1 && AtRest(run[m].s)
    requires S.Takes(run[i].s, run[i + 1].s, 0)
    ensures var acquire := W.Acquire(run[i + 1].s.threads[0].pc.task);
      WalkTermination.SoloStep(c, run[i].w, acquire) && run[i + 1].w == W.Step(c, run[i].w, acquire)
  {
    hide AtRest, Together, S.Tidy, S.Step, W.Step, MovesAlone, Handing, W.Initial, S.Initial, WalkTermination.SoloStep, WalkTermination.Busy;
    TidyFrom(c, run, m, i);
    assert Follows(c, run[i], run[i + 1]);
    var move :| Moves(c, run[i], move, run[i + 1]);
    OnlyTakes(c, run[i], move, run[i + 1]);
    TakeIsSolo(c, run[i], move.act, move.thread);
    OnlyThread(c, run[i], move.act, move.thread);
  }

  lemma OnlyThread(c: W.Config, j: Joint, act: S.Action<Path>, k: nat)
    requires Together(c, j) && S.Takes(j.s, S.Step(j.s, act), k)
    ensures k == 0
  {
    hide WalkRun.Invariant, SameOffers, S.Inv, S.Step, Held;
    var taken := TakeHolds(j.s, act, k);
  }

  /** Each directory the scheduler hands out from then on is handed out once. */
  lemma HandedOutOnce(c: W.Config, run: seq<Joint>, m: nat, i: nat, j: nat)
    requires W.ValidConfig(c) && IsRun(c, run) && m <= i < j < |run| - 1 && AtRest(run[m].s)
    requires S.Takes(run[i].s, run[i + 1].s, 0) && S.Takes(run[j].s, run[j + 1].s, 0)
    ensures run[i + 1].s.threads[0].pc.task != run[j + 1].s.threads[0].pc.task
  {
    hide IsRun, AtRest, WalkTermination.Taken, WalkTermination.SoloFrom, WalkRun.IsRun;
    LoneWorker(c, run, m);
    var p := run[i + 1].s.threads[0].pc.task;
    TakenUp(c, run, i);
    TakenUp(c, run, j);
    WalkTermination.TakenOnce(c, Walks(run), m, i + 1, j, p);
  }

  /** A directory stands to be taken before it is taken and not after. */
  lemma TakenUp(c: W.Config, run: seq<Joint>, i: nat)
    requires W.ValidConfig(c) && IsRun(c, run) && i < |run| - 1 && S.Takes(run[i].s, run[i + 1].s, 0)
    ensures 0 < |run[i + 1].s.threads| && run[i + 1].s.threads[0].pc.Processing?
    ensures var p := run[i + 1].s.threads[0].pc.task;
      && WalkTermination.Taken(run[i + 1].w, p)
      && p in run[i].w.nodes && !WalkTermination.Taken(run[i].w, p)
  {
    hide Together, W.Initial, S.Initial;
    RunTogether(c, run, i);
    assert Follows(c, run[i], run[i + 1]);
    hide S.Step, W.Step, MovesAlone, Handing, WalkTermination.Busy, WalkTermination.Taken;
    var m :| Moves(c, run[i], m, run[i + 1]);
    TakeMove(c, run[i], m, run[i + 1]);
  }

  lemma TakeMove(c: W.Config, j: Joint, m: Move, j': Joint)
    requires Together(c, j) && Moves(c, j, m, j') && S.Takes(j.s, j'.s, 0)
    ensures var p := j'.s.threads[0].pc.task;
      && WalkTermination.Taken(j'.w, p)
      && p in j.w.nodes && !WalkTermination.Taken(j.w, p)
  {
    hide WalkRun.Invariant, S.Inv, S.Step, W.Step, Handing, WalkTermination.Busy, Held, Stands, WalkTermination.Taken;
    OnlyTakes(c, j, m, j');
    var act := m.act;
    var taken := TakeHolds(j.s, act, m.thread);
    assert Held(j.s)[taken] == if Stands(j.w, taken) then 1 else 0;
    Taking(c, j.w, taken);
  }

  lemma Taking(c: W.Config, w: W.State, taken: Offer)
    requires Stands(w, taken)
    ensures WalkTermination.Taken(W.Step(c, w, W.Acquire(taken.dir)), taken.dir)
    ensures taken.dir in w.nodes && !WalkTermination.Taken(w, taken.dir)
  {
    hide W.Children;
  }

  // ---- When Wait returns ----

  lemma NothingHeld(s: S.State<Path>)
    requires Scheduled(s) && s.outside.Returned?
    ensures (forall o: Offer :: Held(s)[o] == 0) && !AtWork(s) && S.Ended(s)
  {
    S.NothingOwed(s);
    hide S.Counts, S.Conserves, S.Slots, S.Discipline;
    assert s.threads != [] ==> s.threads[0].pc.Exited?;
  }

  /** Nothing in hand and nothing queued or parked: what is left waits for its subdirectories. */
  lemma OnlyWaiting(c: W.Config, w: W.State)
    requires WalkFamily.Family(c, w) && WalkTermination.Busy(w) == {} && w.seed == |c.operands|
    requires forall o :: !Stands(w, o)
    ensures WalkRun.Done(c, w)
  {
    hide WalkFamily.Family;
    forall p | p in w.nodes ensures w.nodes[p].at.Waiting? {
      WalkTermination.NoneUnsubmitted(c, w, p);
      assert !Stands(w, Offer(p, RUNNABLE)) && !Stands(w, Offer(p, PARKED));
      assert p !in WalkTermination.Busy(w);
    }
    assert w.climbing <= WalkTermination.Busy(w);
  }

  /**
   * When Wait returns to the main thread the walk is over: every operand seeded, no
   * directory queued, parked or in hand. What is said of finished walks holds then.
   */
  lemma WaitMeansWalked(c: W.Config, run: seq<Joint>)
    requires W.ValidConfig(c) && IsRun(c, run) && Final(run).s.outside.Returned?
    ensures WalkRun.Done(c, Final(run).w)
    ensures WalkRun.IsRun(c, Walks(run)) && Final(Walks(run)) == Final(run).w
  {
    hide Moves, Held, Stands, WalkFamily.Family, WalkHistory.History, S.Inv, AtWork, WalkRun.Done, WalkRun.IsRun, WalkTermination.Busy;
    RunTogether(c, run, |run| - 1);
    WalksRun(c, run);
    var j := Final(run);
    NothingHeld(j.s);
    forall o ensures !Stands(j.w, o) { assert Held(j.s)[o] == if Stands(j.w, o) then 1 else 0; }
    OnlyWaiting(c, j.w);
  }
}
