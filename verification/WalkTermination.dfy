/**
 * One worker, every operand seeded: a parked directory is taken only when nothing is
 * runnable, so nothing the walk holds could free a descriptor for it. A refused open is
 * then final, no directory is processed twice, and the run comes to its end whatever the
 * system answers.
 */
module WalkTermination {
  import opened Common
  import opened Walk
  import opened WalkFamily
  import opened WalkPool
  import opened WalkHistory
  import opened WalkRun

  /** Still in a queue, or about to be put there. */
  ghost predicate Untaken(at: At) {
    at.Unsubmitted? || at.Queued? || at.Parked?
  }

  /** In a worker's hands. */
  ghost predicate Active(at: At) {
    !Untaken(at) && !at.Waiting?
  }

  ghost function Busy(s: State): set<Path> {
    (set p | p in s.nodes && Active(s.nodes[p].at)) + s.climbing
  }

  ghost predicate Solo(c: Config, s: State) {
    s.seed == |c.operands| && forall p, q | p in Busy(s) && q in Busy(s) :: p == q
  }

  /** The lowest rank has runnable directories first; parked ones wait until there are none. */
  ghost predicate SoloStep(c: Config, s: State, act: Action) {
    && Step(c, s, act) != s
    && match act
       case Seed(_) => false
       case Acquire(p) =>
         && Busy(s) == {} && p in s.nodes
         && (s.nodes[p].at.Parked? ==> forall q | q in s.nodes :: !s.nodes[q].at.Queued?)
       case Advance(p, _) => p in s.nodes && Active(s.nodes[p].at)
       case Climb(p) => true
  }

  ghost predicate Reopening(at: At) {
    at.Opening? || at.Reserved? || at.Refusing?
  }

  /** The pool has nothing to give back to the directory being opened. */
  ghost predicate Hopeless(s: State, at: At) {
    && Opens(s) == {}
    && (at.Reserved? || at.Refusing? ==> at.before.epoch == s.pool.epoch)
  }

  /** False only while the open in progress began before seeding had ended. */
  ghost predicate RefusalsFinal(s: State) {
    forall p | p in s.nodes && Reopening(s.nodes[p].at) :: Hopeless(s, s.nodes[p].at)
  }

  // ---- The measure ----

  ghost function EntryRank(entry: EntryAt): nat {
    match entry
    case Stat => 9
    case Unlink => 8
    case CheckLimit => 8
    case ChildReserved(_) => 7
    case ChildRefusing(_) => 6
    case ChildRefused(_) => 5
    case ChildNew(_) => 4
    case ChildSubmit => 3
  }

  ghost function Rank(at: At): nat {
    match at
    case Opening => 4
    case Reserved(_) => 3
    case Refusing(_) => 2
    case OpenFailed(_) => 1
    case Scanning(unread) => 10 + 10 * |unread|
    case Handling(unread, _, entry) => 10 + 10 * |unread| + EntryRank(entry)
    case Closing => 9
    case ScanDone => 8
    case Removing => 3
    case Removed => 2
    case Dropping => 1
    case _ => 0
  }

  /** How far the worker is with what it has in hand. */
  ghost function Phase(s: State): nat {
    if Busy(s) == {} then 0
    else
      var p :| p in Busy(s);
      if p in s.nodes then Rank(s.nodes[p].at) else 4
  }

  ghost function UnscannedDirs(s: State): set<Path> {
    set p | p in s.nodes && Unscanned(s.nodes[p].at)
  }

  ghost function UntakenDirs(s: State): set<Path> {
    set p | p in s.nodes && Untaken(s.nodes[p].at)
  }

  /** Compared from left to right. */
  datatype Measure = Measure(stale: nat, unborn: nat, unscanned: nat, untaken: nat, nodes: nat, phase: nat)

  ghost function MeasureOf(c: Config, s: State): Measure {
    Measure(
      if RefusalsFinal(s) then 0 else 1,
      |c.kinds.Keys - s.born|,
      |UnscannedDirs(s)|,
      |UntakenDirs(s)|,
      |s.nodes|,
      Phase(s))
  }

  ghost predicate Less(a: Measure, b: Measure) {
    || a.stale < b.stale
    || (a.stale == b.stale && (
      || a.unborn < b.unborn
      || (a.unborn == b.unborn && (
        || a.unscanned < b.unscanned
        || (a.unscanned == b.unscanned && (
          || a.untaken < b.untaken
          || (a.untaken == b.untaken && (
            || a.nodes < b.nodes
            || (a.nodes == b.nodes && a.phase < b.phase)))))))))
  }

  /** A directory moves on within its life. */
  ghost predicate Onward(at': At, at: At) {
    && (Unscanned(at') ==> Unscanned(at))
    && (Unscanned(at') == Unscanned(at) ==>
      && (Untaken(at') ==> Untaken(at))
      && (Untaken(at') == Untaken(at) ==> Rank(at') < Rank(at)))
  }

  lemma PhaseIs(s: State, p: Path)
    requires forall q, r | q in Busy(s) && r in Busy(s) :: q == r
    requires p in Busy(s) || (Busy(s) == {} && p in s.nodes)
    ensures Phase(s) == if p in s.nodes then Rank(s.nodes[p].at) else 4
  {
    if Busy(s) == {} {
      assert !Active(s.nodes[p].at) by { assert p !in Busy(s); }
    } else {
      assert Busy(s) == {p};
    }
  }

  /** One directory's move: what it means for the rest of the measure. */
  lemma MoveDecreases(c: Config, s: State, s': State, p: Path)
    requires Solo(c, s) && p in s.nodes && p in s'.nodes && s'.nodes == s.nodes[p := s'.nodes[p]]
    requires s'.born == s.born && s'.climbing == s.climbing && p !in s.climbing && s'.seed == s.seed
    requires Busy(s) <= {p} && Onward(s'.nodes[p].at, s.nodes[p].at)
    requires RefusalsFinal(s) ==> RefusalsFinal(s')
    ensures Less(MeasureOf(c, s'), MeasureOf(c, s)) && Solo(c, s')
  {
    hide RefusalsFinal, Unscanned, Untaken, Rank;
    SetToggled(UnscannedDirs(s), UnscannedDirs(s'), p);
    SetToggled(UntakenDirs(s), UntakenDirs(s'), p);
    assert s'.nodes.Keys == s.nodes.Keys;
    assert Busy(s') <= {p};
    PhaseIs(s, p);
    PhaseIs(s', p);
  }

  // ---- What one worker may rely on ----

  /** No open is in progress, so none is hopeful. */
  lemma NothingReopening(s: State, p: Path)
    requires Busy(s) <= {p} && (p in s.nodes ==> !Reopening(s.nodes[p].at))
    ensures RefusalsFinal(s)
  {
    forall q | q in s.nodes && Reopening(s.nodes[q].at) ensures Hopeless(s, s.nodes[q].at) {
      assert q in Busy(s);
    }
  }

  lemma OnlyBusy(c: Config, s: State, p: Path)
    requires Family(c, s) && Solo(c, s) && p in s.nodes && Active(s.nodes[p].at)
    ensures Busy(s) == {p} && p !in s.climbing
  {
    assert p in Busy(s);
    assert p in s.climbing ==> ClimbOk(s, p);
  }

  lemma NoneUnsubmitted(c: Config, s: State, q: Path)
    requires Family(c, s) && Busy(s) == {} && q in s.nodes
    ensures !s.nodes[q].at.Unsubmitted?
  {
    hide FsOk, RefsOk, ClimbOk, LivesOk, SeedOk, EntryOk, NamesOk, OpenOk;
    assert NodeOk(c, s, q);
    assert |q| > 1 && Parent(q) in s.nodes ==> Parent(q) !in Busy(s);
  }

  /** With nothing runnable and nothing in hand, no directory holds a descriptor. */
  lemma NoneOpen(c: Config, s: State)
    requires Family(c, s) && Busy(s) == {} && forall q | q in s.nodes :: !s.nodes[q].at.Queued?
    ensures Opens(s) == {}
  {
    forall q | q in s.nodes ensures !s.nodes[q].open {
      assert NodeOk(c, s, q);
      assert q !in Busy(s);
      assert !s.nodes[q].at.Unsubmitted? by { NoneUnsubmitted(c, s, q); }
    }
  }

  /** Refused's verdict on the worker's own open is final where nothing could come back to the pool. */
  lemma RefusalStands(c: Config, s: State, p: Path)
    requires Family(c, s) && PoolOk(s) && Noticed(c, s) && Solo(c, s) && RefusalsFinal(s)
    requires p in s.nodes && s.nodes[p].at.Refusing?
    ensures !Retryable(s, s.nodes[p].at.before)
  {
    OnlyBusy(c, s, p);
    hide Family;
    assert Hopeless(s, s.nodes[p].at);
    forall q | q in s.nodes ensures !HoldsLease(s.nodes[q].at) {
      assert q != p ==> q !in Busy(s);
    }
    assert Leasers(s) == {};
  }

  // ---- Each step is progress ----

  /** One directory moves and nothing else about the directories changes. */
  ghost predicate OneMoved(s: State, s': State, p: Path) {
    && p in s'.nodes && s'.nodes == s.nodes[p := s'.nodes[p]]
    && s'.born == s.born && s'.climbing == s.climbing && s'.seed == s.seed
  }

  lemma OnwardOpening(c: Config, s: State, p: Path, choice: Choice)
    requires p in s.nodes && AdvanceDir(c, s, p, choice) != s && Reopening(s.nodes[p].at)
    requires s.nodes[p].at.Refusing? ==> !Retryable(s, s.nodes[p].at.before)
    ensures var s' := AdvanceDir(c, s, p, choice); OneMoved(s, s', p) && Onward(s'.nodes[p].at, s.nodes[p].at)
  {
    hide HandleEntry, GiveUp, Possible, Render, Children, Retryable;
  }

  lemma OnwardScanning(c: Config, s: State, p: Path, choice: Choice)
    requires p in s.nodes && AdvanceDir(c, s, p, choice) != s && s.nodes[p].at.Scanning?
    ensures var s' := AdvanceDir(c, s, p, choice); OneMoved(s, s', p) && Onward(s'.nodes[p].at, s.nodes[p].at)
  {
    hide HandleEntry, GiveUp, Possible, Render, Children, Retryable;
    var unread := s.nodes[p].at.unread;
    if choice.NextEntry? && choice.name in unread {
      assert |unread - {choice.name}| == |unread| - 1;
    }
  }

  lemma OnwardEnding(c: Config, s: State, p: Path, choice: Choice)
    requires p in s.nodes && AdvanceDir(c, s, p, choice) != s
    requires var at := s.nodes[p].at; at.Closing? || at.ScanDone? || at.Removing?
    ensures var s' := AdvanceDir(c, s, p, choice); OneMoved(s, s', p) && Onward(s'.nodes[p].at, s.nodes[p].at)
  {
    hide HandleEntry, GiveUp, Possible, Render, Children, Retryable;
  }

  lemma OnwardFailed(c: Config, s: State, p: Path, choice: Choice)
    requires p in s.nodes && AdvanceDir(c, s, p, choice) != s && s.nodes[p].at.OpenFailed?
    ensures var s' := AdvanceDir(c, s, p, choice); OneMoved(s, s', p) && Onward(s'.nodes[p].at, s.nodes[p].at)
  {
    hide HandleEntry, Possible, Render, Children, Retryable;
  }

  lemma OnwardStat(c: Config, s: State, p: Path, choice: Choice)
    requires p in s.nodes && s.nodes[p].at.Handling? && HandleEntry(c, s, p, choice) != s
    requires s.nodes[p].at.entry.Stat?
    ensures var s' := HandleEntry(c, s, p, choice); OneMoved(s, s', p) && Onward(s'.nodes[p].at, s.nodes[p].at)
  {
    hide GiveUp, Possible, Render, Retryable;
  }

  lemma OnwardUnlink(c: Config, s: State, p: Path, choice: Choice)
    requires p in s.nodes && s.nodes[p].at.Handling? && HandleEntry(c, s, p, choice) != s
    requires s.nodes[p].at.entry.Unlink?
    ensures var s' := HandleEntry(c, s, p, choice); OneMoved(s, s', p) && Onward(s'.nodes[p].at, s.nodes[p].at)
  {
    hide GiveUp, Possible, Render, Retryable;
  }

  lemma OnwardOpen(c: Config, s: State, p: Path, choice: Choice)
    requires p in s.nodes && s.nodes[p].at.Handling? && HandleEntry(c, s, p, choice) != s
    requires var entry := s.nodes[p].at.entry; entry.CheckLimit? || entry.ChildReserved? || entry.ChildRefusing?
    ensures var s' := HandleEntry(c, s, p, choice); OneMoved(s, s', p) && Onward(s'.nodes[p].at, s.nodes[p].at)
  {
    hide GiveUp, Possible, Render, Retryable;
  }

  lemma OnwardRefused(c: Config, s: State, p: Path, choice: Choice)
    requires p in s.nodes && s.nodes[p].at.Handling? && HandleEntry(c, s, p, choice) != s
    requires s.nodes[p].at.entry.ChildRefused?
    ensures var s' := HandleEntry(c, s, p, choice); OneMoved(s, s', p) && Onward(s'.nodes[p].at, s.nodes[p].at)
  {
    hide Possible, Render, Retryable;
  }

  lemma MovedOn(c: Config, s: State, p: Path, choice: Choice)
    requires p in s.nodes && AdvanceDir(c, s, p, choice) != s
    requires var at := s.nodes[p].at;
      && Active(at) && !at.Dropping? && !at.Removed? && !(at.Refusing? && Retryable(s, at.before))
      && !(at.Handling? && (at.entry.ChildNew? || at.entry.ChildSubmit?))
    ensures var s' := AdvanceDir(c, s, p, choice); OneMoved(s, s', p) && Onward(s'.nodes[p].at, s.nodes[p].at)
  {
    hide HandleEntry, GiveUp, Possible, Render, Children, Retryable, Onward, DropReference;
    var at := s.nodes[p].at;
    if at.Handling? {
      if at.entry.ChildRefused? { OnwardRefused(c, s, p, choice); }
      else if at.entry.Stat? { OnwardStat(c, s, p, choice); }
      else if at.entry.Unlink? { OnwardUnlink(c, s, p, choice); }
      else { OnwardOpen(c, s, p, choice); }
    }
    else if Reopening(at) { OnwardOpening(c, s, p, choice); }
    else if at.Scanning? { OnwardScanning(c, s, p, choice); }
    else if at.OpenFailed? { OnwardFailed(c, s, p, choice); }
    else { OnwardEnding(c, s, p, choice); }
  }

  /** The open's own steps neither free nor take a descriptor for good. */
  lemma StillHopeless(c: Config, s: State, p: Path, choice: Choice)
    requires p in s.nodes && Hopeless(s, s.nodes[p].at) && Reopening(s.nodes[p].at)
    requires var s' := AdvanceDir(c, s, p, choice); p in s'.nodes && Reopening(s'.nodes[p].at)
    ensures var s' := AdvanceDir(c, s, p, choice); Hopeless(s', s'.nodes[p].at)
  {
    hide HandleEntry, GiveUp, Possible, Render, Children, Retryable;
    var s' := AdvanceDir(c, s, p, choice);
    assert Opens(s') == Opens(s);
  }

  lemma WorkDecreases(c: Config, s: State, p: Path, choice: Choice)
    requires Family(c, s) && Solo(c, s) && p in s.nodes && AdvanceDir(c, s, p, choice) != s
    requires var at := s.nodes[p].at;
      && Active(at) && !at.Dropping? && !at.Removed? && !(at.Refusing? && Retryable(s, at.before))
      && !(at.Handling? && (at.entry.ChildNew? || at.entry.ChildSubmit?))
    ensures var s' := AdvanceDir(c, s, p, choice); Less(MeasureOf(c, s'), MeasureOf(c, s)) && Solo(c, s')
  {
    var s' := AdvanceDir(c, s, p, choice);
    hide Family, AdvanceDir, Onward, Less, MeasureOf, Hopeless;
    OnlyBusy(c, s, p);
    MovedOn(c, s, p, choice);
    assert Busy(s') <= {p};
    if RefusalsFinal(s) && Reopening(s'.nodes[p].at) {
      OnlyReopened(s.nodes[p].at, s'.nodes[p].at);
      StillHopeless(c, s, p, choice);
      forall q | q in s'.nodes && Reopening(s'.nodes[q].at) ensures q == p { assert q in Busy(s'); }
    } else {
      if !Reopening(s'.nodes[p].at) { NothingReopening(s', p); }
    }
    MoveDecreases(c, s, s', p);
  }

  lemma OnlyReopened(at: At, at': At)
    requires Onward(at', at) && Reopening(at') && Active(at)
    ensures Reopening(at)
  {
  }

  /** Parking again happens only to an open begun before seeding ended, and at most once. */
  lemma ReparkDecreases(c: Config, s: State, p: Path, choice: Choice)
    requires Family(c, s) && PoolOk(s) && Noticed(c, s) && Solo(c, s)
    requires p in s.nodes && s.nodes[p].at.Refusing? && Retryable(s, s.nodes[p].at.before)
    ensures var s' := AdvanceDir(c, s, p, choice);
      Less(MeasureOf(c, s'), MeasureOf(c, s)) && Solo(c, s') && !RefusalsFinal(s) && RefusalsFinal(s')
  {
    hide Family, RefusalsFinal, PoolOk, Retryable, HandleEntry, GiveUp, Children, Noticed, Possible, Render;
    OnlyBusy(c, s, p);
    var s' := AdvanceDir(c, s, p, choice);
    if RefusalsFinal(s) { RefusalStands(c, s, p); }
    assert Busy(s') <= {p};
    NothingReopening(s', p);
  }

  lemma BirthDecreases(c: Config, s: State, p: Path, choice: Choice)
    requires Family(c, s) && Solo(c, s) && p in s.nodes && s.nodes[p].at.Handling? && s.nodes[p].at.entry.ChildNew?
    ensures var s' := HandleEntry(c, s, p, choice); Less(MeasureOf(c, s'), MeasureOf(c, s)) && Solo(c, s')
  {
    hide Family, RefusalsFinal, GiveUp, Possible, Render, PoolOk;
    OnlyBusy(c, s, p);
    var s', child := HandleEntry(c, s, p, choice), p + [s.nodes[p].at.name];
    NewInTree(c, s, p);
    assert Busy(s') <= {p};
    NothingReopening(s, p);
    NothingReopening(s', p);
    UnbornShrinks(c, s.born, child);
  }

  lemma UnbornShrinks(c: Config, born: set<Path>, child: Path)
    requires child in c.kinds && child !in born
    ensures |c.kinds.Keys - (born + {child})| < |c.kinds.Keys - born|
  {
    var unborn := c.kinds.Keys - born;
    assert c.kinds.Keys - (born + {child}) == unborn - {child};
    assert child in unborn;
  }

  lemma NewInTree(c: Config, s: State, p: Path)
    requires Family(c, s) && p in s.nodes && s.nodes[p].at.Handling? && s.nodes[p].at.entry.ChildNew?
    ensures var child := p + [s.nodes[p].at.name]; child in c.kinds && child !in s.born && child !in s.nodes && child != p
  {
    assert NodeOk(c, s, p);
    assert s.nodes[p].at.name in Names(s.nodes[p].at);
  }

  lemma HandOverDecreases(c: Config, s: State, p: Path, choice: Choice)
    requires Family(c, s) && Solo(c, s) && p in s.nodes && s.nodes[p].at.Handling? && s.nodes[p].at.entry.ChildSubmit?
    ensures var s' := HandleEntry(c, s, p, choice); Less(MeasureOf(c, s'), MeasureOf(c, s)) && Solo(c, s')
  {
    hide Family, RefusalsFinal, GiveUp, Possible, Render, PoolOk, Less, MeasureOf;
    OnlyBusy(c, s, p);
    Unborn(c, s, p);
    var child := p + [s.nodes[p].at.name];
    assert child != p by { assert |child| != |p|; }
    var s1 := Moved(s, p, Scanning(s.nodes[p].at.unread));
    assert Busy(s1) <= {p};
    NothingReopening(s, p);
    NothingReopening(s1, p);
    MoveDecreases(c, s, s1, p);
    var s2 := Moved(s1, child, if s.nodes[child].open then Queued else Parked);
    SameMeasure(c, s1, s2, p, child);
  }

  /** Going into a queue counts for nothing. */
  lemma SameMeasure(c: Config, s: State, s': State, p: Path, child: Path)
    requires Solo(c, s) && Busy(s) == {p} && p in s.nodes && !Reopening(s.nodes[p].at) && child != p
    requires child in s.nodes && child in s'.nodes && s.nodes[child].at.Unsubmitted? && s'.nodes == s.nodes[child := s'.nodes[child]]
    requires s'.nodes[child].at.Queued? || s'.nodes[child].at.Parked?
    requires s'.born == s.born && s'.climbing == s.climbing && s'.seed == s.seed
    ensures MeasureOf(c, s') == MeasureOf(c, s) && Solo(c, s')
  {
    hide RefusalsFinal;
    assert Busy(s') == Busy(s) && UnscannedDirs(s') == UnscannedDirs(s) && UntakenDirs(s') == UntakenDirs(s);
    assert s'.nodes.Keys == s.nodes.Keys;
    NothingReopening(s, p);
    NothingReopening(s', p);
    PhaseIs(s, p);
    PhaseIs(s', p);
  }

  /** The same directories are unscanned and untaken. */
  ghost predicate SameQueues(s: State, s': State) {
    UnscannedDirs(s') == UnscannedDirs(s) && UntakenDirs(s') == UntakenDirs(s) && s'.born == s.born && s'.seed == s.seed
  }

  lemma DeleteQueues(s: State, p: Path)
    requires p in s.nodes && (s.nodes[p].at.Dropping? || s.nodes[p].at.Removed?) && Busy(s) == {p}
    ensures SameQueues(s, Delete(s, p)) && Busy(Delete(s, p)) <= {p} && |Delete(s, p).nodes| < |s.nodes|
  {
    EndedNowhere(s.nodes[p].at);
    hide Unscanned, Untaken;
    var s' := Delete(s, p);
    FewerNodes(s.nodes, p);
    forall q ensures q in UnscannedDirs(s') <==> q in UnscannedDirs(s) {}
    forall q ensures q in UntakenDirs(s') <==> q in UntakenDirs(s) {}
    forall q | q in Busy(s') ensures q == p {
      assert q in s'.nodes ==> q in Busy(s) || q == p;
    }
  }

  lemma EndedNowhere(at: At)
    requires at.Dropping? || at.Removed?
    ensures !Unscanned(at) && !Untaken(at)
  {
  }

  lemma FewerNodes(nodes: map<Path, DirNode>, p: Path)
    requires p in nodes
    ensures |nodes - {p}| < |nodes|
  {
    assert (nodes - {p}).Keys == nodes.Keys - {p};
    assert |nodes.Keys - {p}| == |nodes.Keys| - 1;
  }

  lemma DeleteDecreases(c: Config, s: State, p: Path)
    requires Family(c, s) && Solo(c, s) && p in s.nodes && (s.nodes[p].at.Dropping? || s.nodes[p].at.Removed?)
    ensures Less(MeasureOf(c, Delete(s, p)), MeasureOf(c, s)) && Solo(c, Delete(s, p))
  {
    hide Family, RefusalsFinal, Busy, UnscannedDirs, UntakenDirs;
    OnlyBusy(c, s, p);
    DeleteQueues(s, p);
    NothingReopening(s, p);
    NothingReopening(Delete(s, p), p);
  }

  lemma AcquireDecreases(c: Config, s: State, p: Path)
    requires Family(c, s) && Solo(c, s) && SoloStep(c, s, Acquire(p))
    ensures var s' := AcquireDir(s, p); Less(MeasureOf(c, s'), MeasureOf(c, s)) && Solo(c, s')
  {
    hide Family, RefusalsFinal, Children, Less, MeasureOf;
    OpenOf(c, s, p);
    var s' := AcquireDir(s, p);
    assert p !in s.climbing by { assert s.climbing <= Busy(s); }
    assert Busy(s') <= {p};
    if s.nodes[p].at.Parked? {
      NoneOpen(c, s);
      assert Opens(s') == {};
      OpeningHopeless(s', p);
    } else {
      NothingReopening(s', p);
    }
    MoveDecreases(c, s, s', p);
  }

  lemma OpeningHopeless(s: State, p: Path)
    requires Busy(s) <= {p} && p in s.nodes && s.nodes[p].at.Opening? && Opens(s) == {}
    ensures RefusalsFinal(s)
  {
    forall q | q in s.nodes && Reopening(s.nodes[q].at) ensures Hopeless(s, s.nodes[q].at) { assert q in Busy(s); }
  }

  /** The parent a lone worker climbs to is waiting for its subdirectories. */
  lemma ParentWaits(c: Config, s: State, p: Path)
    requires Family(c, s) && Solo(c, s) && p in s.climbing && p != []
    ensures Busy(s) == {p} && p !in s.nodes && Parent(p) in s.nodes && s.nodes[Parent(p)].at.Waiting?
  {
    hide Family, Claims, ClimbFrom;
    ClimbCount(c, s, p);
    ClimberGone(c, s, p);
    assert p in Busy(s);
    assert Parent(p) !in Busy(s);
  }

  lemma ClimbQueues(s: State, p: Path)
    requires p != [] && Busy(s) == {p} && p in s.climbing && p !in s.nodes && Parent(p) in s.nodes && s.nodes[Parent(p)].at.Waiting?
    ensures var s', q := ClimbFrom(s, p), Parent(p);
      && SameQueues(s, s') && Busy(s') <= {q} && |s'.nodes| == |s.nodes|
      && q in s'.nodes && !Reopening(s'.nodes[q].at) && Rank(s'.nodes[q].at) < 4
  {
    var s', q := ClimbFrom(s, p), Parent(p);
    assert s'.nodes.Keys == s.nodes.Keys;
    assert |s'.nodes.Keys| == |s.nodes.Keys|;
    forall r ensures r in UnscannedDirs(s') <==> r in UnscannedDirs(s) {}
    forall r ensures r in UntakenDirs(s') <==> r in UntakenDirs(s) {}
    forall r | r in Busy(s') ensures r == q { assert r != q ==> r in Busy(s); }
  }

  lemma ClimbDecreases(c: Config, s: State, p: Path)
    requires Family(c, s) && Solo(c, s) && p in s.climbing && p != []
    ensures var s' := ClimbFrom(s, p); Less(MeasureOf(c, s'), MeasureOf(c, s)) && Solo(c, s')
  {
    hide Family, RefusalsFinal, Busy, UnscannedDirs, UntakenDirs, Rank, Reopening, ClimbFrom, Phase;
    ParentWaits(c, s, p);
    ClimbQueues(s, p);
    var s', q := ClimbFrom(s, p), Parent(p);
    NothingReopening(s, p);
    NothingReopening(s', q);
    PhaseIs(s, p);
    PhaseIs(s', q);
  }

  lemma ClimberGone(c: Config, s: State, p: Path)
    requires Family(c, s) && p in s.climbing
    ensures p !in s.nodes
  {
    assert ClimbOk(s, p);
  }

  lemma SoloStepDecreases(c: Config, s: State, act: Action)
    requires Family(c, s) && PoolOk(s) && Noticed(c, s) && Solo(c, s) && SoloStep(c, s, act)
    ensures Less(MeasureOf(c, Step(c, s, act)), MeasureOf(c, s)) && Solo(c, Step(c, s, act))
  {
    hide Family, PoolOk, Noticed, Solo, Less, MeasureOf, AdvanceDir, AcquireDir, ClimbFrom, Delete, Retryable;
    match act
    case Seed(_) =>
    case Acquire(p) => AcquireDecreases(c, s, p);
    case Climb(p) => ClimbDecreases(c, s, p);
    case Advance(p, choice) => AdvanceDecreases(c, s, p, choice);
  }

  lemma AdvanceDecreases(c: Config, s: State, p: Path, choice: Choice)
    requires Family(c, s) && PoolOk(s) && Noticed(c, s) && Solo(c, s)
    requires p in s.nodes && Active(s.nodes[p].at) && AdvanceDir(c, s, p, choice) != s
    ensures var s' := AdvanceDir(c, s, p, choice); Less(MeasureOf(c, s'), MeasureOf(c, s)) && Solo(c, s')
  {
    hide Family, PoolOk, Noticed, Solo, Less, MeasureOf, HandleEntry, Delete, Retryable, DropReference, GiveUp, Possible, Children;
    var at := s.nodes[p].at;
    if at.Dropping? || at.Removed? { DeleteDecreases(c, s, p); }
    else if at.Refusing? && Retryable(s, at.before) { ReparkDecreases(c, s, p, choice); }
    else if at.Handling? && at.entry.ChildNew? { BirthDecreases(c, s, p, choice); }
    else if at.Handling? && at.entry.ChildSubmit? { HandOverDecreases(c, s, p, choice); }
    else { WorkDecreases(c, s, p, choice); }
  }

  // ---- The run comes to its end ----

  /** The run goes on with this step. */
  ghost function Going(c: Config, run: seq<State>, act: Action): seq<State>
    requires run != []
  {
    run + [Step(c, Final(run), act)]
  }

  lemma SoloKept(c: Config, run: seq<State>, act: Action)
    requires ValidConfig(c) && IsRun(c, run) && Solo(c, Final(run)) && SoloStep(c, Final(run), act)
    ensures IsRun(c, Going(c, run, act)) && Solo(c, Final(Going(c, run, act)))
    ensures Less(MeasureOf(c, Final(Going(c, run, act))), MeasureOf(c, Final(run)))
  {
    RunInvariant(c, run);
    RunExtended(c, run, act);
    hide Family, PoolOk, Less, MeasureOf, Solo, SoloStep, Step, Untouched, Record, Noticed, IsRun;
    SoloStepDecreases(c, Final(run), act);
  }

  /** From position `n` on, each step is the one the rule names for the run so far. */
  ghost predicate ByRule(c: Config, run: seq<State>, n: nat, next: seq<State> -> Action) {
    forall i | n <= i < |run| && i > 0 :: run[i] == Step(c, run[i - 1], next(run[..i]))
  }

  /** One step by the rule, and then by the rule. */
  lemma RuleGoesOn(c: Config, run: seq<State>, longer: seq<State>, next: seq<State> -> Action)
    requires run != [] && Going(c, run, next(run)) <= longer && ByRule(c, longer, |run| + 1, next)
    ensures run <= longer && ByRule(c, longer, |run|, next)
  {
    hide Step;
    assert longer[..|run|] == run;
    assert longer[|run|] == Going(c, run, next(run))[|run|];
  }

  /**
   * However the system answers, with every open refused for good or not, a run with one
   * worker is over after finitely many steps: `next` is any rule that names a step of the
   * worker or an answer as long as there is something to do, and following it comes to
   * the end.
   */
  lemma {:induction false} RunEnds(c: Config, run: seq<State>, next: seq<State> -> Action)
    requires ValidConfig(c) && IsRun(c, run) && Solo(c, Final(run))
    requires forall h | IsRun(c, h) && Solo(c, Final(h)) && !Done(c, Final(h)) :: SoloStep(c, Final(h), next(h))
    ensures exists longer ::
      IsRun(c, longer) && run <= longer && Done(c, Final(longer)) && ByRule(c, longer, |run|, next)
    decreases var m := MeasureOf(c, Final(run)); m.stale, MeasureOf(c, Final(run)).unborn,
      MeasureOf(c, Final(run)).unscanned, MeasureOf(c, Final(run)).untaken,
      MeasureOf(c, Final(run)).nodes, MeasureOf(c, Final(run)).phase
  {
    assert run != [];
    hide IsRun, Solo, SoloStep, Step, Done, MeasureOf;
    if Done(c, Final(run)) {
      assert ByRule(c, run, |run|, next);
    } else {
      SoloKept(c, run, next(run));
      RunEnds(c, Going(c, run, next(run)), next);
      var longer :| IsRun(c, longer) && Going(c, run, next(run)) <= longer && Done(c, Final(longer))
        && ByRule(c, longer, |run| + 1, next);
      RuleGoesOn(c, run, longer, next);
    }
  }

  /** Until the run is over there is a step to take: nobody waits for somebody who waits. */
  lemma NeverStuck(c: Config, run: seq<State>)
    requires ValidConfig(c) && IsRun(c, run) && Solo(c, Final(run)) && !Done(c, Final(run))
    ensures exists act :: SoloStep(c, Final(run), act)
  {
    var s := Final(run);
    RunInvariant(c, run);
    hide IsRun, PoolOk, Untouched, Record, Noticed, SoloStep, Family;
    if s.climbing != {} {
      var p :| p in s.climbing;
      ClimbStep(c, s, p);
    } else if Busy(s) != {} {
      var p :| p in Busy(s);
      var act := WorkStep(c, s, p);
    } else {
      var p :| p in s.nodes && !s.nodes[p].at.Waiting?;
      assert p !in Busy(s);
      NoneUnsubmitted(c, s, p);
      if q :| q in s.nodes && s.nodes[q].at.Queued? {
        TakeStep(c, s, q);
      } else {
        TakeStep(c, s, p);
      }
    }
  }

  lemma ClimbStep(c: Config, s: State, p: Path)
    requires Family(c, s) && p in s.climbing
    ensures SoloStep(c, s, Climb(p))
  {
    assert ClimbOk(s, p);
    hide Family;
    assert p !in ClimbFrom(s, p).climbing;
  }

  lemma TakeStep(c: Config, s: State, p: Path)
    requires Busy(s) == {} && p in s.nodes
    requires s.nodes[p].at.Queued? || (s.nodes[p].at.Parked? && forall q | q in s.nodes :: !s.nodes[q].at.Queued?)
    ensures SoloStep(c, s, Acquire(p))
  {
    assert AcquireDir(s, p).nodes[p].at != s.nodes[p].at;
  }

  /** An answer that moves the directory at hand on; a refusal is always possible. */
  ghost function SomeAnswer(c: Config, s: State, p: Path): Choice
    requires p in s.nodes
  {
    var at := s.nodes[p].at;
    if at.Scanning? then
      if at.unread == {} then Answer(None) else var name :| name in at.unread; NextEntry(name, None)
    else if at.Handling? && at.entry.CheckLimit? then Limit(true)
    else Answer(Some(OtherError(0)))
  }

  lemma WorkStep(c: Config, s: State, p: Path) returns (act: Action)
    requires Family(c, s) && p in s.nodes && Active(s.nodes[p].at)
    ensures SoloStep(c, s, act)
  {
    act := Advance(p, SomeAnswer(c, s, p));
    hide Family, Children, Render, Retryable, HandleEntry, HasChild, SomeAnswer;
    if s.nodes[p].at.Handling? {
      EntryMoves(c, s, p);
    } else if s.nodes[p].at.Scanning? {
      ReadMoves(c, s, p);
    } else {
      DirMoves(c, s, p);
    }
  }

  lemma ReadMoves(c: Config, s: State, p: Path)
    requires Family(c, s) && p in s.nodes && s.nodes[p].at.Scanning?
    ensures AdvanceDir(c, s, p, SomeAnswer(c, s, p)) != s
  {
    hide Family, HandleEntry;
    InHand(c, s, p);
    hide NodeOk, RefsOk, FsOk;
    var s' := AdvanceDir(c, s, p, SomeAnswer(c, s, p));
    assert s'.nodes[p].at != s.nodes[p].at;
  }

  lemma DirMoves(c: Config, s: State, p: Path)
    requires p in s.nodes && Active(s.nodes[p].at) && !s.nodes[p].at.Scanning? && !s.nodes[p].at.Handling?
    ensures AdvanceDir(c, s, p, SomeAnswer(c, s, p)) != s
  {
    hide HandleEntry, Render, Retryable, Children;
    var s' := AdvanceDir(c, s, p, SomeAnswer(c, s, p));
    assert p !in s'.nodes || s'.nodes[p].at != s.nodes[p].at;
  }

  lemma EntryMoves(c: Config, s: State, p: Path)
    requires Family(c, s) && p in s.nodes && s.nodes[p].at.Handling?
    ensures HandleEntry(c, s, p, SomeAnswer(c, s, p)) != s
  {
    hide Family, Render, Retryable;
    if s.nodes[p].at.entry.ChildSubmit? {
      Unborn(c, s, p);
      assert p + [s.nodes[p].at.name] != p by { assert |p + [s.nodes[p].at.name]| != |p|; }
    } else if s.nodes[p].at.entry.ChildNew? {
      NewInTree(c, s, p);
    }
    var s' := HandleEntry(c, s, p, SomeAnswer(c, s, p));
    assert s'.nodes[p].at != s.nodes[p].at;
  }

  // ---- No directory is taken twice ----

  ghost predicate Taken(s: State, p: Path) {
    p in s.nodes && !Untaken(s.nodes[p].at)
  }

  /** Back at its queues the worker has no open in progress. */
  lemma IdleSettles(s: State)
    requires Busy(s) == {}
    ensures RefusalsFinal(s)
  {
    forall q | q in s.nodes ensures !Reopening(s.nodes[q].at) { assert q !in Busy(s); }
  }

  lemma TakenKept(c: Config, s: State, act: Action, p: Path)
    requires Family(c, s) && PoolOk(s) && Noticed(c, s) && Solo(c, s) && RefusalsFinal(s) && SoloStep(c, s, act) && Taken(s, p)
    ensures p in Step(c, s, act).nodes ==> Taken(Step(c, s, act), p)
  {
    hide Family, PoolOk, Noticed, Solo, RefusalsFinal, AdvanceDir, Children;
    match act
    case Seed(_) =>
    case Acquire(_) =>
    case Climb(_) =>
    case Advance(q, choice) => WorkKeepsTaken(c, s, q, choice, p);
  }

  lemma WorkKeepsTaken(c: Config, s: State, q: Path, choice: Choice, p: Path)
    requires Family(c, s) && PoolOk(s) && Noticed(c, s) && Solo(c, s) && RefusalsFinal(s) && Taken(s, p)
    requires q in s.nodes && Active(s.nodes[q].at) && AdvanceDir(c, s, q, choice) != s
    ensures p in AdvanceDir(c, s, q, choice).nodes ==> Taken(AdvanceDir(c, s, q, choice), p)
  {
    hide Family, PoolOk, Noticed, Solo, RefusalsFinal, HandleEntry, Children, Possible, Render, GiveUp, Retryable, DropReference;
    var at := s.nodes[q].at;
    if at.Refusing? { RefusalStands(c, s, q); }
    if at.Handling? && at.entry.ChildNew? { BirthKeepsTaken(c, s, q, choice, p); }
    else if at.Handling? && at.entry.ChildSubmit? { HandOverKeepsTaken(c, s, q, choice, p); }
    else if !at.Dropping? && !at.Removed? { MovedOn(c, s, q, choice); }
  }

  lemma BirthKeepsTaken(c: Config, s: State, q: Path, choice: Choice, p: Path)
    requires Family(c, s) && Taken(s, p) && q in s.nodes && s.nodes[q].at.Handling? && s.nodes[q].at.entry.ChildNew?
    ensures Taken(HandleEntry(c, s, q, choice), p)
  {
    hide Family, Possible, Render, GiveUp, Retryable;
    NewInTree(c, s, q);
  }

  lemma HandOverKeepsTaken(c: Config, s: State, q: Path, choice: Choice, p: Path)
    requires Family(c, s) && Taken(s, p) && q in s.nodes && s.nodes[q].at.Handling? && s.nodes[q].at.entry.ChildSubmit?
    ensures Taken(HandleEntry(c, s, q, choice), p)
  {
    hide Family, Possible, Render, GiveUp, Retryable;
    Unborn(c, s, q);
  }

  // ---- Over the rest of a run ----

  ghost predicate SoloFollows(c: Config, s: State, s': State) {
    exists act :: SoloStep(c, s, act) && s' == Step(c, s, act)
  }

  /**
   * From position `m` on one worker is left alone, and there it was back at its queues.
   * The walk may rest while the scheduler moves.
   */
  ghost predicate SoloFrom(c: Config, run: seq<State>, m: nat) {
    && m < |run| && Solo(c, run[m]) && Busy(run[m]) == {}
    && forall i | m <= i < |run| - 1 :: run[i + 1] == run[i] || SoloFollows(c, run[i], run[i + 1])
  }

  /** Taken, or already done with. */
  ghost predicate Handled(s: State, p: Path) {
    p in s.born && (p in s.nodes ==> Taken(s, p))
  }

  /**
   * Once seeding has ended and the worker has been back to its queues, a directory it has
   * taken is in no queue again, for the rest of the run: Process parks nothing a second
   * time and sees each directory once.
   */
  lemma TakenOnce(c: Config, run: seq<State>, m: nat, i: nat, j: nat, p: Path)
    requires ValidConfig(c) && IsRun(c, run) && SoloFrom(c, run, m) && m <= i <= j < |run|
    requires Taken(run[i], p)
    ensures p in run[j].nodes ==> Taken(run[j], p)
  {
    hide SoloFrom, IsRun, Invariant;
    InvariantAt(c, run, i);
    assert Handled(run[i], p) by { HandledNow(c, run[i], p); }
    HandledFrom(c, run, m, i, j, p);
  }

  lemma HandledNow(c: Config, s: State, p: Path)
    requires Invariant(c, s) && Taken(s, p)
    ensures Handled(s, p)
  {
    hide NodeOk, RefsOk, ClimbOk, FsOk, PoolOk, History;
  }

  lemma InvariantAt(c: Config, run: seq<State>, i: nat)
    requires ValidConfig(c) && IsRun(c, run) && i < |run|
    ensures Invariant(c, run[i])
  {
    hide Invariant, Initial, Step;
    var prefix := run[..i + 1];
    forall k | 0 <= k < |prefix| - 1 ensures Follows(c, prefix[k], prefix[k + 1]) { assert Follows(c, run[k], run[k + 1]); }
    RunInvariant(c, prefix);
  }

  lemma StepAt(c: Config, run: seq<State>, m: nat, i: nat) returns (act: Action)
    requires SoloFrom(c, run, m) && m <= i < |run| - 1 && run[i + 1] != run[i]
    ensures SoloStep(c, run[i], act) && run[i + 1] == Step(c, run[i], act)
  {
    hide SoloStep, Step, Solo, Busy;
    assert SoloFollows(c, run[i], run[i + 1]);
    act :| SoloStep(c, run[i], act) && run[i + 1] == Step(c, run[i], act);
  }

  lemma SoloStart(c: Config, run: seq<State>, m: nat)
    requires SoloFrom(c, run, m)
    ensures Solo(c, run[m]) && RefusalsFinal(run[m])
  {
    IdleSettles(run[m]);
  }

  /** The worker stays alone, and refusals stay final. */
  lemma {:induction false} SoloAt(c: Config, run: seq<State>, m: nat, i: nat)
    requires ValidConfig(c) && IsRun(c, run) && SoloFrom(c, run, m) && m <= i < |run|
    ensures Solo(c, run[i]) && RefusalsFinal(run[i])
    decreases i
  {
    hide SoloFrom, IsRun, Solo, SoloStep, Step, RefusalsFinal, Invariant;
    if i == m {
      SoloStart(c, run, m);
    } else {
      SoloAt(c, run, m, i - 1);
      InvariantAt(c, run, i - 1);
      if run[i] != run[i - 1] {
        var act := StepAt(c, run, m, i - 1);
        SoloStays(c, run[i - 1], act);
      }
    }
  }

  lemma SoloStays(c: Config, s: State, act: Action)
    requires Invariant(c, s) && Solo(c, s) && RefusalsFinal(s) && SoloStep(c, s, act)
    ensures Solo(c, Step(c, s, act)) && RefusalsFinal(Step(c, s, act))
  {
    hide Solo, SoloStep, Step, RefusalsFinal, Family, PoolOk, Untouched, Record, Noticed, Less, MeasureOf;
    SoloStepDecreases(c, s, act);
    StaysFinal(c, s, Step(c, s, act));
  }

  lemma StaysFinal(c: Config, s: State, s': State)
    requires RefusalsFinal(s) && Less(MeasureOf(c, s'), MeasureOf(c, s))
    ensures RefusalsFinal(s')
  {
    hide RefusalsFinal, UnscannedDirs, UntakenDirs, Phase;
  }

  lemma {:induction false} HandledFrom(c: Config, run: seq<State>, m: nat, i: nat, j: nat, p: Path)
    requires ValidConfig(c) && IsRun(c, run) && SoloFrom(c, run, m) && m <= i <= j < |run| && Handled(run[i], p)
    ensures Handled(run[j], p)
    decreases j
  {
    hide SoloFrom, IsRun, Invariant, Solo, SoloStep, Step, RefusalsFinal, Handled;
    if i < j {
      HandledFrom(c, run, m, i, j - 1, p);
      SoloAt(c, run, m, j - 1);
      InvariantAt(c, run, j - 1);
      if run[j] != run[j - 1] {
        var act := StepAt(c, run, m, j - 1);
        HandledStep(c, run[j - 1], act, p);
      }
    }
  }

  lemma HandledStep(c: Config, s: State, act: Action, p: Path)
    requires Invariant(c, s) && Solo(c, s) && RefusalsFinal(s) && SoloStep(c, s, act) && Handled(s, p)
    ensures Handled(Step(c, s, act), p)
  {
    hide Family, PoolOk, Noticed, Untouched, Record, Solo, RefusalsFinal, SoloStep, Step;
    var e := StepSummary(c, s, act);
    BornStays(c, s, Step(c, s, act), e, p);
    if Taken(s, p) { TakenKept(c, s, act, p); }
  }

  /** A path whose node is gone gets no other. */
  lemma BornStays(c: Config, s: State, s': State, e: Effect, p: Path)
    requires Summary(c, s, s', e) && p in s.born
    ensures p in s'.born && (p !in s.nodes ==> p !in s'.nodes)
  {
    hide InHands, Made, Honest, Render;
  }

  /** From then on a refused open is refused for good, at every such moment of the run. */
  lemma RefusedForGood(c: Config, run: seq<State>, m: nat, i: nat, p: Path)
    requires ValidConfig(c) && IsRun(c, run) && SoloFrom(c, run, m) && m <= i < |run|
    requires p in run[i].nodes && run[i].nodes[p].at.Refusing?
    ensures run[i].pool.live == 0 && !Retryable(run[i], run[i].nodes[p].at.before)
  {
    hide SoloFrom, IsRun, Solo, RefusalsFinal, Family, PoolOk, Untouched, Record, Noticed;
    InvariantAt(c, run, i);
    SoloAt(c, run, m, i);
    RefusalStands(c, run[i], p);
  }
}
