/**
 * Whole runs of the walk: what is true in every state some interleaving reaches, what is
 * left of the operands when the run is over, and what its exit status says about that.
 */
module WalkRun {
  import opened Common
  import opened Walk
  import opened WalkFamily
  import opened WalkPool
  import opened WalkCover
  import opened WalkHistory

  ghost predicate Follows(c: Config, s: State, s': State) {
    exists act :: s' == Step(c, s, act)
  }

  /** The states of any interleaving of the main thread and the workers, with any answers. */
  ghost predicate IsRun(c: Config, run: seq<State>) {
    && run != [] && run[0] == Initial(c)
    && forall i | 0 <= i < |run| - 1 :: Follows(c, run[i], run[i + 1])
  }

  /** A run is a shorter run and a step. */
  lemma RunBefore(c: Config, run: seq<State>) returns (act: Action)
    requires IsRun(c, run) && |run| > 1
    ensures IsRun(c, run[..|run| - 1]) && Final(run) == Step(c, Final(run[..|run| - 1]), act)
  {
    hide Initial, Step;
    var before := run[..|run| - 1];
    assert Follows(c, run[|run| - 2], run[|run| - 1]);
    act :| run[|run| - 1] == Step(c, run[|run| - 2], act);
    forall i | 0 <= i < |before| - 1 ensures Follows(c, before[i], before[i + 1]) {
      assert Follows(c, run[i], run[i + 1]);
    }
  }

  lemma RunExtended(c: Config, run: seq<State>, act: Action)
    requires IsRun(c, run)
    ensures IsRun(c, run + [Step(c, Final(run), act)])
  {
    hide Initial, Step;
    var longer := run + [Step(c, Final(run), act)];
    forall i | 0 <= i < |longer| - 1 ensures Follows(c, longer[i], longer[i + 1]) {
      if i < |run| - 1 { assert Follows(c, run[i], run[i + 1]); }
    }
  }

  ghost predicate Invariant(c: Config, s: State) {
    Family(c, s) && PoolOk(s) && Coverage(c, s) && History(c, s)
  }

  lemma InitialPool(c: Config)
    ensures PoolOk(Initial(c))
  {
    assert Opens(Initial(c)) == {} && Leasers(Initial(c)) == {};
  }

  lemma InitialInvariant(c: Config)
    requires ValidConfig(c)
    ensures Invariant(c, Initial(c))
  {
    hide Family, PoolOk, Coverage, History, Initial;
    InitialFamily(c);
    InitialCover(c);
    InitialHistory(c);
    InitialPool(c);
  }

  lemma StepInvariant(c: Config, s: State, act: Action)
    requires ValidConfig(c) && Invariant(c, s)
    ensures Invariant(c, Step(c, s, act))
  {
    hide Family, PoolOk, Coverage, History, Step;
    StepFamily(c, s, act);
    StepPool(c, s, act);
    StepCover(c, s, act);
    StepHistory(c, s, act);
  }

  lemma {:induction false} RunInvariant(c: Config, run: seq<State>)
    requires ValidConfig(c) && IsRun(c, run)
    ensures run != [] && Invariant(c, Final(run))
  {
    hide Invariant, Step, Initial;
    if |run| == 1 {
      InitialInvariant(c);
    } else {
      var act := RunBefore(c, run);
      RunInvariant(c, run[..|run| - 1]);
      StepInvariant(c, Final(run[..|run| - 1]), act);
    }
  }

  /** No directory is queued or in a worker's hands and every operand has been seeded: Wait returns. */
  ghost predicate Done(c: Config, s: State) {
    && s.seed == |c.operands| && s.climbing == {}
    && forall p | p in s.nodes :: s.nodes[p].at.Waiting?
  }

  // ---- Directory nodes ----

  /** A directory's count, who may be deleted, and when its rmdir may be tried. */
  lemma NodesAreCounted(c: Config, run: seq<State>, p: Path)
    requires ValidConfig(c) && IsRun(c, run) && p in Final(run).nodes
    ensures var s := Final(run); var n := s.nodes[p];
      && n.refs == (if OwnReference(n.at) then 1 else 0) + |Claims(s, p)|
      && (|p| > 1 ==> Parent(p) in s.nodes)
      && (n.at.Removing? || n.at.Removed? || n.at.Dropping? ==> Claims(s, p) == {})
      && p !in s.deleted
  {
    RunInvariant(c, run);
    var s := Final(run);
    InHand(c, s, p);
    hide IsRun, FsOk, PoolOk, Coverage, History;
  }

  /** Deleted at most once, and whoever is about to drop a reference finds the parent alive. */
  lemma DeletedOnce(c: Config, run: seq<State>)
    requires ValidConfig(c) && IsRun(c, run)
    ensures var s := Final(run);
      && (forall i, j | 0 <= i < j < |s.deleted| :: s.deleted[i] != s.deleted[j])
      && (forall p :: p in s.deleted <==> p in s.born && p !in s.nodes)
      && (forall p | p in s.climbing :: p in s.deleted && |p| > 1 && Parent(p) in s.nodes && s.nodes[Parent(p)].refs >= 1)
  {
    RunInvariant(c, run);
    var s := Final(run);
    hide IsRun, PoolOk, Coverage, History;
    forall p | p in s.climbing
      ensures p in s.deleted && |p| > 1 && Parent(p) in s.nodes && s.nodes[Parent(p)].refs >= 1
    {
      ClimbCount(c, s, p);
      assert ClimbOk(s, p) && RefsOk(s, Parent(p));
      assert p in Claims(s, Parent(p));
    }
  }

  /** A scan never gives a child up for want of descriptors, and never sees an idle pool. */
  lemma ScanNeverStarves(c: Config, run: seq<State>, p: Path)
    requires ValidConfig(c) && IsRun(c, run) && p in Final(run).nodes && Final(run).nodes[p].at.Handling?
    ensures var s := Final(run);
      && s.pool.live >= 1
      && (s.nodes[p].at.entry.ChildRefused? ==> s.nodes[p].at.entry.e != OutOfDescriptors)
  {
    RunInvariant(c, run);
    var s := Final(run);
    InHand(c, s, p);
    hide IsRun, FsOk, Coverage, History;
    OpenMeansLive(s, p);
  }

  lemma {:induction false} Deeper(c: Config, s: State, n: nat)
    requires Family(c, s) && Done(c, s) && s.nodes != map[]
    ensures exists p :: p in s.nodes && |p| >= n
  {
    if n == 0 {
      var p :| p in s.nodes;
      assert |p| >= n;
    } else {
      Deeper(c, s, n - 1);
      var p :| p in s.nodes && |p| >= n - 1;
      assert RefsOk(s, p);
      assert Claims(s, p) != {};
      var q :| q in Claims(s, p);
      assert q in s.nodes && |q| >= n;
    }
  }

  lemma {:induction false} Bounded(paths: set<Path>) returns (n: nat)
    ensures forall p | p in paths :: |p| < n
  {
    if paths == {} {
      n := 0;
    } else {
      var p :| p in paths;
      var m := Bounded(paths - {p});
      n := if m > |p| then m else |p| + 1;
    }
  }

  /** A run that is over has deleted every node it made. */
  lemma NothingLeaks(c: Config, run: seq<State>)
    requires ValidConfig(c) && IsRun(c, run) && Done(c, Final(run))
    ensures Final(run).nodes == map[]
    ensures forall p :: p in Final(run).deleted <==> p in Final(run).born
    ensures Final(run).pool.live == 0
  {
    RunInvariant(c, run);
    var s := Final(run);
    assert Noticed(c, s);
    hide IsRun, Family, Coverage, History;
    AllDeleted(c, s);
    assert Opens(s) == {} && Leasers(s) == {};
  }

  lemma AllDeleted(c: Config, s: State)
    requires Family(c, s) && Done(c, s)
    ensures s.nodes == map[]
  {
    if s.nodes != map[] {
      var n := Bounded(s.nodes.Keys);
      Deeper(c, s, n);
    }
  }

  lemma ParentScanned(c: Config, s: State, p: Path)
    requires Family(c, s) && p in s.nodes && |p| > 1
    ensures Parent(p) in s.nodes && Scanned(s.nodes[Parent(p)].at)
  {
    hide FsOk, RefsOk, LivesOk, SeedOk, ClimbOk;
    assert NodeOk(c, s, p);
  }

  /** Every directory above a node is there and has been opened to be scanned. */
  lemma {:induction false} AncestorsScanned(c: Config, run: seq<State>, p: Path, k: nat)
    requires ValidConfig(c) && IsRun(c, run) && p in Final(run).nodes && 1 <= k < |p|
    ensures p[..k] in Final(run).nodes && Scanned(Final(run).nodes[p[..k]].at)
    decreases |p|
  {
    hide Family, PoolOk, Coverage, History, IsRun, Scanned;
    RunInvariant(c, run);
    ParentScanned(c, Final(run), p);
    if k < |p| - 1 {
      AncestorsScanned(c, run, Parent(p), k);
      assert Parent(p)[..k] == p[..k];
    } else {
      assert p[..k] == Parent(p);
    }
  }

  // ---- What is left ----

  /** A failed stat, unlink, rmdir or open of the path itself was reported. */
  ghost predicate GivenUp(s: State, p: Path) {
    exists r | r in s.reports :: r.path == p && r.cause.Fault? && !r.scope.Beneath?
  }

  /** Reported as a directory that could not be looked into, or not as far as this entry. */
  ghost predicate Shut(s: State, d: Path, name: Name) {
    exists r | r in s.reports ::
      r.path == d && r.cause.Fault? && (r.scope.Subtree? || (r.scope.Beneath? && name in r.scope.unread))
  }

  ghost predicate InShut(s: State, p: Path) {
    exists k | 1 <= k < |p| :: Shut(s, p[..k], p[k])
  }

  /** The operand's lstat failed and nothing was said. */
  ghost predicate Skipped(c: Config, s: State, o: Path) {
    o in s.silent && MaySkip(c) && Refused(DoStat, o) in s.faults
  }

  /** The only reasons for which a path under an operand may outlive the run. */
  ghost predicate WhyLeft(c: Config, s: State, p: Path)
    requires p != []
  {
    || GivenUp(s, p)
    || HasChild(s.fs, p)
    || InShut(s, p)
    || Skipped(c, s, [p[0]])
    || PlainDirectory(c, [p[0]])
  }

  /**
   * Once the run is over, whatever is left under an operand is there because a call on it
   * was reported as refused, because something in it is left, because a directory it lies in
   * was reported as not opened or not read as far as its entry, because its operand was
   * skipped in silence, or because that is a directory and -r was not given.
   */
  lemma WhatIsLeft(c: Config, run: seq<State>, p: Path)
    requires ValidConfig(c) && IsRun(c, run) && Done(c, Final(run))
    requires p in Final(run).fs && UnderOperand(c, p)
    ensures WhyLeft(c, Final(run), p)
    ensures Explained(Final(run), p)
  {
    hide IsRun, Family, PoolOk, Coverage, WhyLeft, Noticed, Untouched, Record, Explained;
    RunInvariant(c, run);
    ExplainedWhenDone(c, Final(run), p);
    ExplainedIsReason(c, Final(run), p);
  }

  lemma ExplainedIsReason(c: Config, s: State, p: Path)
    requires Family(c, s) && Record(c, s) && p in s.fs && p != [] && Explained(s, p)
    ensures WhyLeft(c, s, p)
  {
    hide Family, Record, Blames, WhyLeft;
    if r :| r in s.reports && Blames(r, p) {
      ReportIsReason(c, s, r, p);
    } else {
      var o :| o in s.silent && o <= p;
      SilenceIsReason(c, s, o, p);
    }
  }

  lemma ExplainedWhenDone(c: Config, s: State, p: Path)
    requires Family(c, s) && Coverage(c, s) && Done(c, s) && p in s.fs && UnderOperand(c, p)
    ensures Explained(s, p)
  {
    AllDeleted(c, s);
    hide Family, Explained;
    assert Covered(c, s, p) || Explained(s, p);
    forall k | 1 <= k <= |p| ensures !InPlay(c, s, p[..k]) {}
  }

  lemma ReportIsReason(c: Config, s: State, r: Report, p: Path)
    requires Family(c, s) && Record(c, s) && r in s.reports && Blames(r, p) && p in s.fs && p != []
    ensures WhyLeft(c, s, p)
  {
    assert Honest(c, s, r) && FsOk(c, s);
    hide Family, Record, FsOk;
    assert r.path <= p && p[..|r.path|] == r.path;
    NothingBelow(c, s, r.path, p);
    if PlainDirectory(c, r.path) { assert r.path == [p[0]]; }
    else if r.path < p { assert Shut(s, p[..|r.path|], p[|r.path|]); }
    else { assert r.path == p; }
  }

  /** What was never there has nothing below it. */
  lemma NothingBelow(c: Config, s: State, q: Path, p: Path)
    requires FsOk(c, s) && p in s.fs && q != [] && q <= p
    ensures q in c.kinds
  {
    PrefixThere(c, s, p, |q|);
    assert p[..|q|] == q;
  }

  lemma SilenceIsReason(c: Config, s: State, o: Path, p: Path)
    requires Record(c, s) && o in s.silent && o <= p
    ensures p != [] && WhyLeft(c, s, p)
  {
    assert Refused(DoStat, o) in s.faults && |o| == 1;
    assert o == [p[0]];
  }

  // ---- What is removed and said ----

  /** Only what lies under an operand goes, each path once, and -v prints exactly those. */
  lemma OnlyOperandsGo(c: Config, run: seq<State>)
    requires ValidConfig(c) && IsRun(c, run)
    ensures var s := Final(run);
      && (forall p :: p in c.kinds && p !in s.fs <==> p in s.removed)
      && (forall p | p in s.removed :: UnderOperand(c, p))
      && (forall i, j | 0 <= i < j < |s.removed| :: s.removed[i] != s.removed[j])
      && s.printed == (if c.verbose then Lines(s.removed) else [])
  {
    RunInvariant(c, run);
    hide IsRun, Family, PoolOk, Coverage, Noticed, Untouched, Honest, Lines;
  }

  /** Every report names a refused call, an entry that is still there, a directory without -r or a missing operand. */
  lemma ReportsAreHonest(c: Config, run: seq<State>, r: Report)
    requires ValidConfig(c) && IsRun(c, run) && r in Final(run).reports
    ensures Honest(c, Final(run), r)
  {
    RunInvariant(c, run);
    hide IsRun, Family, PoolOk, Coverage, Noticed, Untouched, Honest, Lines;
  }

  // ---- The exit status ----

  /** failures_ summed over the workers and the main thread is the number of reports. */
  ghost function ExitStatus(s: State): nat {
    if |s.reports| == 0 then 0 else 1
  }

  ghost predicate NothingLeft(c: Config, s: State) {
    forall p | p in s.fs :: !UnderOperand(c, p)
  }

  ghost predicate ZeroMeansGone(c: Config) {
    forall run | IsRun(c, run) && Done(c, Final(run)) && ExitStatus(Final(run)) == 0 :: NothingLeft(c, Final(run))
  }

  /**
   * Exit status 0 promises that no operand is left, except under -rf without root, where
   * an lstat that fails is passed over in silence (src/main.cpp:456-463): there the
   * promise is empty unless no operand existed in the first place.
   */
  lemma ExitZeroPromise(c: Config)
    requires ValidConfig(c)
    ensures ZeroMeansGone(c) <==> !MaySkip(c) || forall o | o in c.operands :: [o] !in c.kinds
  {
    if !MaySkip(c) || forall o | o in c.operands :: [o] !in c.kinds {
      forall run | IsRun(c, run) && Done(c, Final(run)) && ExitStatus(Final(run)) == 0 ensures NothingLeft(c, Final(run)) {
        ExitZero(c, run);
      }
    } else {
      var o :| o in c.operands && [o] in c.kinds;
      var run := SilentRun(c, |c.operands|);
      assert UnderOperand(c, [o]);
      assert !NothingLeft(c, Final(run));
    }
  }

  lemma ExitZero(c: Config, run: seq<State>)
    requires ValidConfig(c) && IsRun(c, run) && Done(c, Final(run)) && ExitStatus(Final(run)) == 0
    requires !MaySkip(c) || forall o | o in c.operands :: [o] !in c.kinds
    ensures NothingLeft(c, Final(run))
  {
    var s := Final(run);
    RunInvariant(c, run);
    assert Record(c, s) && FsOk(c, s);
    hide IsRun, Family, PoolOk, Coverage, History, Done, Honest, FsOk;
    forall p | p in s.fs ensures !UnderOperand(c, p) {
      if UnderOperand(c, p) {
        WhatIsLeft(c, run, p);
        RootThere(c, s, p);
      }
    }
  }

  lemma RootThere(c: Config, s: State, p: Path)
    requires FsOk(c, s) && p in s.fs && p != []
    ensures [p[0]] in c.kinds
  {
    PrefixThere(c, s, p, 1);
    assert p[..1] == [p[0]];
  }

  /** lstat fails for one operand after another. */
  lemma {:induction false} SilentRun(c: Config, n: nat) returns (run: seq<State>)
    requires MaySkip(c) && n <= |c.operands|
    ensures IsRun(c, run)
    ensures var s := Final(run);
      s.fs == c.kinds.Keys && s.nodes == map[] && s.climbing == {} && s.seed == n && s.seedAt.SeedStat? && s.reports == []
  {
    if n == 0 {
      run := [Initial(c)];
    } else {
      var before := SilentRun(c, n - 1);
      var lstat := Seed(Answer(Some(OtherError(0))));
      RunExtended(c, before, lstat);
      run := before + [Step(c, Final(before), lstat)];
    }
  }

  // ---- Without faults ----

  /**
   * A recursive run in which no call is refused, over operands that exist (or under -f),
   * removes all that lies under them, each path once, and exits 0.
   */
  lemma FaultFreeRun(c: Config, run: seq<State>)
    requires ValidConfig(c) && IsRun(c, run) && Done(c, Final(run)) && c.recursive && Final(run).faults == {}
    requires c.force || forall o | o in c.operands :: [o] in c.kinds
    ensures NothingLeft(c, Final(run)) && ExitStatus(Final(run)) == 0
    ensures forall p :: p in Final(run).removed <==> p in c.kinds && UnderOperand(c, p)
  {
    var s := Final(run);
    RunInvariant(c, run);
    OnlyOperandsGo(c, run);
    NoSurvivor(c, run);
    if s.reports != [] { ReportMeansTrouble(c, run, s.reports[0]); }
    assert FsOk(c, s);
    hide IsRun, Family, PoolOk, Coverage, History, Done;
  }

  /** What may have gone wrong when a run reports something. */
  ghost predicate Trouble(c: Config, s: State) {
    || s.faults != {} || !c.recursive || !NothingLeft(c, s)
    || (!c.force && exists o | o in c.operands :: [o] !in c.kinds)
  }

  /** Exit status 1 is never given for nothing. */
  lemma ReportMeansTrouble(c: Config, run: seq<State>, r: Report)
    requires ValidConfig(c) && IsRun(c, run) && r in Final(run).reports
    ensures Trouble(c, Final(run))
  {
    hide IsRun, Family, PoolOk, Coverage, Noticed, Untouched, Record, Trouble;
    RunInvariant(c, run);
    HonestMeansTrouble(c, Final(run), r);
  }

  lemma HonestMeansTrouble(c: Config, s: State, r: Report)
    requires Record(c, s) && r in s.reports
    ensures Trouble(c, s)
  {
    assert Honest(c, s, r);
    if r.cause.StillFull? {
      var name :| r.path + [name] in s.fs;
      assert UnderOperand(c, r.path + [name]);
    } else if r.cause.Missing? {
      assert r.path == [r.path[0]];
    }
  }

  lemma NoSurvivor(c: Config, run: seq<State>)
    requires ValidConfig(c) && IsRun(c, run) && Done(c, Final(run)) && c.recursive && Final(run).faults == {}
    ensures NothingLeft(c, Final(run))
  {
    var s := Final(run);
    hide IsRun, Done;
    if !NothingLeft(c, s) {
      var n := Bounded(s.fs);
      SurvivorBelow(c, run, n);
    }
  }

  /** With no call refused, only what has something in it has a reason to be left. */
  lemma OnlyTheFull(c: Config, s: State, p: Path)
    requires Record(c, s) && s.faults == {} && c.recursive && p != [] && WhyLeft(c, s, p)
    ensures HasChild(s.fs, p)
  {
    hide Lines, Accounted, HasChild;
    forall r | r in s.reports ensures !r.cause.Fault? { assert Honest(c, s, r); }
  }

  lemma {:induction false} SurvivorBelow(c: Config, run: seq<State>, n: nat)
    requires ValidConfig(c) && IsRun(c, run) && Done(c, Final(run)) && c.recursive && Final(run).faults == {}
    requires !NothingLeft(c, Final(run))
    ensures exists p :: p in Final(run).fs && UnderOperand(c, p) && |p| >= n
  {
    var s := Final(run);
    hide IsRun, Done;
    if n == 0 {
      var p :| p in s.fs && UnderOperand(c, p);
      assert |p| >= n;
    } else {
      SurvivorBelow(c, run, n - 1);
      var p :| p in s.fs && UnderOperand(c, p) && |p| >= n - 1;
      WhatIsLeft(c, run, p);
      RunInvariant(c, run);
      OnlyTheFull(c, s, p);
      var name :| p + [name] in s.fs;
      assert UnderOperand(c, p + [name]) && |p + [name]| >= n;
    }
  }
}
