/**
 * What a report says is left whole was never looked into: a path reported with everything
 * in it, or an entry of a directory whose reading stopped before it. No scan of it began,
 * no node was made below it, and neither it nor anything below it was removed.
 */
module WalkSealed {
  import opened Common
  import opened Walk
  import opened WalkFamily
  import opened WalkPool
  import opened WalkCover
  import opened WalkHistory
  import opened WalkRun

  /** The report says that `d` is left with all that is in it. */
  ghost predicate Leaves(r: Report, d: Path) {
    d != [] && match r.scope
    case Itself => false
    case Beneath(unread) => Parent(d) == r.path && Last(d) in unread
    case Subtree => d == r.path
  }

  /**
   * Whatever was removed is gone, no operand still ahead was, and what was removed from a
   * directory was removed by its scan.
   */
  ghost predicate Scanners(c: Config, s: State) {
    && (forall q | q in s.removed :: q !in s.fs)
    && (forall i | s.seed <= i < |c.operands| :: [c.operands[i]] !in s.removed)
    && forall q | q in s.removed && |q| > 1 ::
      Parent(q) in s.born && (Parent(q) in s.nodes ==> !Unscanned(s.nodes[Parent(q)].at))
  }

  /** No node will be made for `d` any more. */
  ghost predicate Passed(c: Config, s: State, d: Path)
    requires d != []
  {
    if |d| == 1 then forall i | s.seed <= i < |c.operands| :: d[0] != c.operands[i]
    else
      && Parent(d) in s.born
      && (Parent(d) in s.nodes ==> !Unscanned(s.nodes[Parent(d)].at) && Last(d) !in Names(s.nodes[Parent(d)].at))
  }

  /** `d` is there, and nothing below it has been given a node or been removed. */
  ghost predicate Whole(s: State, d: Path) {
    d !in s.removed && forall q | d < q :: q !in s.born && q !in s.removed
  }

  ghost predicate Sealed(c: Config, s: State, d: Path) {
    && d != []
    && (d in s.nodes ==> s.nodes[d].at.Dropping?)
    && (d in s.born || Passed(c, s, d))
    && Whole(s, d)
  }

  ghost predicate AllSealed(c: Config, s: State) {
    && Scanners(c, s)
    && forall r, d | r in s.reports && Leaves(r, d) :: Sealed(c, s, d)
  }

  lemma LivesIn(c: Config, s: State)
    requires Family(c, s)
    ensures LivesOk(s)
  {
  }

  lemma ScannersKept(c: Config, s: State, s': State, e: Effect)
    requires Family(c, s) && Distinct(c) && Scanners(c, s) && Summary(c, s, s', e)
    ensures Scanners(c, s')
  {
    if e.gone.Some? && |e.gone.value| > 1 { GoneFromScanned(c, s, e.gone.value); }
    OperandsStay(c, s, s', e);
    hide Family, Distinct, InHands, Made, Honest, Render, Unscanned, Names;
    forall q | q in s'.removed && |q| > 1
      ensures Parent(q) in s'.born && (Parent(q) in s'.nodes ==> !Unscanned(s'.nodes[Parent(q)].at))
    {
      assert q in s.removed || e.gone == Some(q);
      assert Parent(q) in s.born;
    }
  }

  lemma OperandsStay(c: Config, s: State, s': State, e: Effect)
    requires Family(c, s) && Distinct(c) && Scanners(c, s) && Summary(c, s, s', e)
    ensures forall i | s'.seed <= i < |c.operands| :: [c.operands[i]] !in s'.removed
  {
    hide FsOk, NodeOk, RefsOk, ClimbOk, Made, Honest, Render, Unscanned, Names;
    forall i | s'.seed <= i < |c.operands| ensures [c.operands[i]] !in s'.removed {
      var o := [c.operands[i]];
      assert |o| == 1 && o[0] == c.operands[i];
      assert e.gone != Some(o);
    }
  }

  lemma GoneFromScanned(c: Config, s: State, p: Path)
    requires Family(c, s) && InHands(c, s, p) && |p| > 1
    ensures Parent(p) in s.born && Parent(p) in s.nodes && !Unscanned(s.nodes[Parent(p)].at)
  {
    if p in s.nodes { InHand(c, s, p); } else { InHand(c, s, Parent(p)); }
  }

  /** A child has a node only below directories that had one. */
  lemma {:induction false} BornAbove(s: State, q: Path, d: Path)
    requires LivesOk(s) && q in s.born && d <= q && d != []
    ensures d in s.born
    decreases |q|
  {
    if d < q { BornAbove(s, Parent(q), d); } else { assert d == q; }
  }

  // ---- A sealed directory stays sealed ----

  lemma NotMade(c: Config, s: State, d: Path)
    requires Family(c, s) && Sealed(c, s, d) && d !in s.born
    ensures !Made(c, s, d)
  {
    hide FsOk, RefsOk, ClimbOk;
    if ByParent(s, d) {
      InHand(c, s, Parent(d));
      PathSplit(d);
    }
  }

  lemma NothingBelow(c: Config, s: State, d: Path, q: Path)
    requires Family(c, s) && Sealed(c, s, d) && d < q
    ensures !Made(c, s, q) && !InHands(c, s, q)
  {
    hide FsOk, RefsOk, ClimbOk, NodeOk, SeedOk;
    if Parent(q) == d {
    } else {
      assert d < Parent(q);
    }
  }

  lemma NotInHands(c: Config, s: State, d: Path)
    requires Family(c, s) && Sealed(c, s, d)
    ensures !InHands(c, s, d)
  {
    hide FsOk, RefsOk, ClimbOk, Whole;
    if ByParent(s, d) {
      InHand(c, s, Parent(d));
      EntryThere(c, s, Parent(d));
      PathSplit(d);
    }
  }

  lemma WholeKept(c: Config, s: State, s': State, e: Effect, d: Path)
    requires Family(c, s) && Sealed(c, s, d) && Summary(c, s, s', e)
    ensures Whole(s', d)
  {
    hide Family, Passed, InHands, Made, Honest, Render, NoReturn;
    if e.made.Some? && d < e.made.value { NothingBelow(c, s, d, e.made.value); }
    if e.gone.Some? && d < e.gone.value { NothingBelow(c, s, d, e.gone.value); }
    NotInHands(c, s, d);
    assert Whole(s, d);
  }

  lemma PassedKept(c: Config, s: State, s': State, e: Effect, d: Path)
    requires LivesOk(s) && d != [] && Passed(c, s, d) && Summary(c, s, s', e)
    ensures Passed(c, s', d)
  {
    hide InHands, Made, Honest, Render, Unscanned, Names;
  }

  lemma SealedKept(c: Config, s: State, s': State, e: Effect, d: Path)
    requires Family(c, s) && Sealed(c, s, d) && Summary(c, s, s', e)
    ensures Sealed(c, s', d)
  {
    hide Family, Whole, Passed, InHands, Made, Honest, Render, Unscanned, Names;
    WholeKept(c, s, s', e, d);
    LivesIn(c, s);
    if d !in s.born {
      NotMade(c, s, d);
      PassedKept(c, s, s', e, d);
    }
  }

  // ---- What a report seals ----

  /** No descriptor of `d` has been scanned so far. */
  ghost predicate Unread(s: State, d: Path) {
    d !in s.born || (d in s.nodes && Unscanned(s.nodes[d].at))
  }

  /** No entry of `d` has had a node. */
  ghost predicate Childless(s: State, d: Path) {
    Unread(s, d) && (d in s.born ==> forall name :: d + [name] !in s.born)
  }

  lemma NoneBornBelow(s: State, d: Path, q: Path)
    requires LivesOk(s) && d != [] && Childless(s, d) && d < q
    ensures q !in s.born
  {
    hide LivesOk;
    if q in s.born {
      var child := d + [q[|d|]];
      assert child <= q;
      BornAbove(s, q, child);
      BornAbove(s, child, d);
    }
  }

  lemma NoneGoneBelow(c: Config, s: State, d: Path, q: Path)
    requires LivesOk(s) && Scanners(c, s) && d != [] && Childless(s, d) && d < q
    ensures q !in s.removed
  {
    hide LivesOk, Childless;
    if q in s.removed {
      if Parent(q) == d {
        ReadIfGone(s, d);
      } else {
        assert d < Parent(q);
        NoneBornBelow(s, d, Parent(q));
      }
    }
  }

  lemma ReadIfGone(s: State, d: Path)
    requires Childless(s, d)
    ensures d !in s.born || (d in s.nodes && Unscanned(s.nodes[d].at))
  {
  }

  lemma WholeBelow(c: Config, s: State, d: Path)
    requires LivesOk(s) && Scanners(c, s) && d != [] && d !in s.removed && Childless(s, d)
    ensures Whole(s, d)
  {
    hide LivesOk, Scanners, Childless;
    forall q | d < q ensures q !in s.born && q !in s.removed {
      NoneBornBelow(s, d, q);
      NoneGoneBelow(c, s, d, q);
    }
  }

  lemma SameWhole(s: State, s': State, d: Path)
    requires Whole(s, d) && s'.born == s.born && s'.removed == s.removed
    ensures Whole(s', d)
  {
  }

  lemma StillThere(c: Config, s: State, d: Path)
    requires Scanners(c, s) && d in s.fs
    ensures d !in s.removed
  {
  }

  /** An entry a scan that is over has not read. */
  lemma SealUnread(c: Config, s: State, s': State, p: Path, d: Path)
    requires Family(c, s) && Scanners(c, s) && p in s.nodes && s.nodes[p].at.Scanning?
    requires d != [] && Parent(d) == p && Last(d) in s.nodes[p].at.unread
    requires s'.nodes == s.nodes[p := s.nodes[p].(at := Closing)] && s'.born == s.born && s'.removed == s.removed
    ensures Sealed(c, s', d) && Unread(s, d)
  {
    hide Family, FsOk, RefsOk, LivesOk, Scanners, Whole, EntryOk;
    InHand(c, s, p);
    LivesIn(c, s);
    PathSplit(d);
    NameInTree(c, s, p, Last(d));
    StillThere(c, s, d);
    WholeBelow(c, s, d);
    SameWhole(s, s', d);
  }

  lemma NameInTree(c: Config, s: State, p: Path, name: Name)
    requires Family(c, s) && p in s.nodes && name in Names(s.nodes[p].at)
    ensures p + [name] in s.fs && p + [name] !in s.born && p + [name] !in s.nodes && p != []
  {
    hide FsOk, RefsOk, ClimbOk, SeedOk;
    assert NodeOk(c, s, p);
  }

  /** An entry given up on, whose scan goes on. */
  lemma SealEntry(c: Config, s: State, s': State, p: Path)
    requires Family(c, s) && Scanners(c, s) && p in s.nodes && s.nodes[p].at.Handling? && !s.nodes[p].at.entry.ChildSubmit?
    requires s'.nodes == s.nodes[p := s.nodes[p].(at := Scanning(s.nodes[p].at.unread))]
    requires s'.born == s.born && s'.removed == s.removed
    ensures Sealed(c, s', p + [s.nodes[p].at.name]) && Unread(s, p + [s.nodes[p].at.name])
  {
    hide Family, FsOk, NodeOk, RefsOk, LivesOk, Scanners, Whole, Render;
    InHand(c, s, p);
    EntryInHand(c, s, p);
    EntryThere(c, s, p);
    LivesIn(c, s);
    var d := p + [s.nodes[p].at.name];
    assert Parent(d) == p && Last(d) == s.nodes[p].at.name;
    StillThere(c, s, d);
    WholeBelow(c, s, d);
    SameWhole(s, s', d);
  }

  /** A directory given up on. */
  lemma SealFailed(c: Config, s: State, s': State, p: Path)
    requires Family(c, s) && Scanners(c, s) && p in s.nodes && s.nodes[p].at.OpenFailed?
    requires s'.nodes == s.nodes[p := s.nodes[p].(at := Dropping)] && s'.born == s.born && s'.removed == s.removed
    ensures Sealed(c, s', p) && Unread(s, p)
  {
    hide FsOk, RefsOk, ClimbOk, SeedOk;
    InHand(c, s, p);
    StillThere(c, s, p);
    WholeBelow(c, s, p);
  }

  /** An operand the main thread is done with. */
  lemma SealOperand(c: Config, s: State, s': State)
    requires Family(c, s) && Scanners(c, s) && Distinct(c) && s.seed < |c.operands|
    requires s'.nodes == s.nodes && s'.born == s.born && s'.removed == s.removed && s'.seed == s.seed + 1
    ensures Sealed(c, s', [c.operands[s.seed]]) && Unread(s, [c.operands[s.seed]])
  {
    hide FsOk, RefsOk, ClimbOk, NodeOk;
    var d := [c.operands[s.seed]];
    assert d !in s.born;
    WholeBelow(c, s, d);
  }

  // ---- Which steps report ----

  /** What a step reports as left whole that was not reported before. */
  ghost predicate IsNew(s: State, s': State, r: Report, d: Path) {
    r in s'.reports && r !in s.reports && Leaves(r, d)
  }

  lemma GiveUpReports(c: Config, s: State, q: Path, line: string, err: Option<Errno>, r: Report, d: Path)
    requires GiveUp(c, s, q, line, err).Some? && IsNew(s, GiveUp(c, s, q, line, err).value, r, d)
    ensures d == q && GiveUp(c, s, q, line, err).value.removed == s.removed && GiveUp(c, s, q, line, err).value.born == s.born
  {
    hide Possible;
  }

  lemma EntryCallNew(c: Config, s: State, p: Path, choice: Choice, r: Report, d: Path)
    requires Family(c, s) && Scanners(c, s) && p in s.nodes && s.nodes[p].at.Handling?
    requires !s.nodes[p].at.entry.ChildRefused? && IsNew(s, HandleEntry(c, s, p, choice), r, d)
    ensures Sealed(c, HandleEntry(c, s, p, choice), d) && Unread(s, d)
  {
    hide Family, Scanners, Sealed, Unread, Render, GiveUp, Retryable, Possible;
    var s' := HandleEntry(c, s, p, choice);
    assert s.nodes[p].at.entry.Stat? && d == p + [s.nodes[p].at.name];
    SealEntry(c, s, s', p);
  }

  lemma EntryRefusedNew(c: Config, s: State, p: Path, choice: Choice, r: Report, d: Path)
    requires Family(c, s) && Scanners(c, s) && p in s.nodes && s.nodes[p].at.Handling?
    requires s.nodes[p].at.entry.ChildRefused? && IsNew(s, HandleEntry(c, s, p, choice), r, d)
    ensures Sealed(c, HandleEntry(c, s, p, choice), d) && Unread(s, d)
  {
    hide Family, Scanners, Sealed, Unread, GiveUp, Retryable, Possible;
    var s', q := HandleEntry(c, s, p, choice), p + [s.nodes[p].at.name];
    var line, err := Render(p) + "/" + s.nodes[p].at.name, if choice.Answer? then choice.err else Some(OtherError(0));
    hide Render;
    GiveUpKeeps(c, s, q, line, err);
    GiveUpReports(c, s, q, line, err, r, d);
    SealEntry(c, s, s', p);
  }

  lemma OpenFailedNew(c: Config, s: State, p: Path, choice: Choice, r: Report, d: Path)
    requires Family(c, s) && Scanners(c, s) && p in s.nodes && s.nodes[p].at.OpenFailed? && IsNew(s, AdvanceDir(c, s, p, choice), r, d)
    ensures Sealed(c, AdvanceDir(c, s, p, choice), d) && Unread(s, d)
  {
    hide Family, Scanners, Sealed, Unread, GiveUp, HandleEntry, Possible, Render;
    var s', err := AdvanceDir(c, s, p, choice), if choice.Answer? then choice.err else Some(OtherError(0));
    GiveUpKeeps(c, s, p, Render(p), err);
    GiveUpReports(c, s, p, Render(p), err, r, d);
    SealFailed(c, s, s', p);
  }

  /** A read that failed leaves the entries not read by then. */
  lemma ReadNew(c: Config, s: State, p: Path, choice: Choice, r: Report, d: Path)
    requires Family(c, s) && Scanners(c, s) && p in s.nodes && s.nodes[p].at.Scanning? && IsNew(s, AdvanceDir(c, s, p, choice), r, d)
    ensures Sealed(c, AdvanceDir(c, s, p, choice), d) && Unread(s, d)
  {
    hide Family, Scanners, Sealed, Unread, GiveUp, HandleEntry, Possible, Render;
    SealUnread(c, s, AdvanceDir(c, s, p, choice), p, d);
  }

  lemma AdvanceNew(c: Config, s: State, p: Path, choice: Choice, r: Report, d: Path)
    requires Family(c, s) && Scanners(c, s) && p in s.nodes && IsNew(s, AdvanceDir(c, s, p, choice), r, d)
    ensures Sealed(c, AdvanceDir(c, s, p, choice), d) && Unread(s, d)
  {
    hide Family, Scanners, Sealed, Unread, GiveUp, HandleEntry, Possible, Render, Children, Retryable;
    var at := s.nodes[p].at;
    if at.Handling? {
      if at.entry.ChildRefused? { EntryRefusedNew(c, s, p, choice, r, d); } else { EntryCallNew(c, s, p, choice, r, d); }
    } else if at.Scanning? {
      ReadNew(c, s, p, choice, r, d);
    } else {
      OnlyFailedReports(c, s, p, choice, r, d);
      OpenFailedNew(c, s, p, choice, r, d);
    }
  }

  lemma OnlyFailedReports(c: Config, s: State, p: Path, choice: Choice, r: Report, d: Path)
    requires p in s.nodes && !s.nodes[p].at.Handling? && !s.nodes[p].at.Scanning?
    requires IsNew(s, AdvanceDir(c, s, p, choice), r, d)
    ensures s.nodes[p].at.OpenFailed?
  {
    hide GiveUp, HandleEntry, Possible, Render, Children, Retryable;
  }

  lemma SeedRefusedReports(c: Config, s: State, choice: Choice, r: Report, d: Path)
    requires s.seed < |c.operands| && s.seedAt.SeedRefused? && IsNew(s, SeedNext(c, s, choice), r, d)
    ensures var s' := SeedNext(c, s, choice);
      && d == [c.operands[s.seed]] && s'.nodes == s.nodes && s'.born == s.born
      && s'.removed == s.removed && s'.seed == s.seed + 1
  {
    hide Possible, Render, GiveUp;
    var p, line := [c.operands[s.seed]], c.operands[s.seed];
    var err := if choice.Answer? then choice.err else Some(OtherError(0));
    GiveUpKeeps(c, s, p, line, err);
    GiveUpReports(c, s, p, line, err, r, d);
  }

  lemma SeedStatReports(c: Config, s: State, choice: Choice, r: Report, d: Path)
    requires s.seed < |c.operands| && s.seedAt.SeedStat? && IsNew(s, SeedNext(c, s, choice), r, d)
    ensures var s' := SeedNext(c, s, choice);
      && d == [c.operands[s.seed]] && s'.nodes == s.nodes && s'.born == s.born
      && s'.removed == s.removed && s'.seed == s.seed + 1
  {
    hide Possible, Render, GiveUp;
  }

  lemma SeedUnlinkReports(c: Config, s: State, choice: Choice, r: Report, d: Path)
    requires s.seed < |c.operands| && s.seedAt.SeedUnlink?
    ensures !IsNew(s, SeedNext(c, s, choice), r, d)
  {
    hide Possible, Render, GiveUp;
  }

  lemma SeedRmdirReports(c: Config, s: State, choice: Choice, r: Report, d: Path)
    requires s.seed < |c.operands| && s.seedAt.SeedRmdir? && IsNew(s, SeedNext(c, s, choice), r, d)
    ensures var s' := SeedNext(c, s, choice);
      && d == [c.operands[s.seed]] && s'.nodes == s.nodes && s'.born == s.born
      && s'.removed == s.removed && s'.seed == s.seed + 1
  {
    hide Possible, Render, GiveUp;
  }

  lemma SeedQuiet(c: Config, s: State, choice: Choice)
    requires s.seed < |c.operands| && (s.seedAt.SeedReserve? || s.seedAt.SeedOpen? || s.seedAt.SeedSubmit?)
    ensures SeedNext(c, s, choice).reports == s.reports
  {
    hide Possible, Render, GiveUp;
  }

  lemma SeedNew(c: Config, s: State, choice: Choice, r: Report, d: Path)
    requires Family(c, s) && Scanners(c, s) && Distinct(c) && s.seed < |c.operands| && IsNew(s, SeedNext(c, s, choice), r, d)
    ensures Sealed(c, SeedNext(c, s, choice), d) && Unread(s, d)
  {
    hide Family, Scanners, Sealed, Unread, Distinct, SeedNext;
    match s.seedAt {
      case SeedStat => SeedStatReports(c, s, choice, r, d);
      case SeedUnlink => SeedUnlinkReports(c, s, choice, r, d);
      case SeedRmdir => SeedRmdirReports(c, s, choice, r, d);
      case SeedRefused(_) => SeedRefusedReports(c, s, choice, r, d);
      case _ => SeedQuiet(c, s, choice);
    }
    SealOperand(c, s, SeedNext(c, s, choice));
  }

  lemma StepNew(c: Config, s: State, act: Action, r: Report, d: Path)
    requires Family(c, s) && Scanners(c, s) && Distinct(c) && IsNew(s, Step(c, s, act), r, d)
    ensures Sealed(c, Step(c, s, act), d) && Unread(s, d)
  {
    hide Family, Scanners, Sealed, Unread, Distinct, AdvanceDir, SeedNext, Children;
    match act
    case Seed(choice) => SeedNew(c, s, choice, r, d);
    case Advance(p, choice) => AdvanceNew(c, s, p, choice, r, d);
    case _ => NoReports(c, s, act);
  }

  lemma NoReports(c: Config, s: State, act: Action)
    requires act.Acquire? || act.Climb?
    ensures Step(c, s, act).reports == s.reports
  {
    hide Children;
  }

  lemma StepSealed(c: Config, s: State, act: Action)
    requires Family(c, s) && Distinct(c) && History(c, s) && AllSealed(c, s)
    ensures AllSealed(c, Step(c, s, act))
    ensures forall r, d | IsNew(s, Step(c, s, act), r, d) :: Unread(s, d)
  {
    hide Family, Distinct, Scanners, Sealed, Unread, Leaves, Step, Summary, Noticed, Record, WalkHistory.Untouched;
    var s' := Step(c, s, act);
    var e := StepSummary(c, s, act);
    ScannersKept(c, s, s', e);
    forall r, d | r in s'.reports && Leaves(r, d) ensures Sealed(c, s', d) && (r !in s.reports ==> Unread(s, d)) {
      if r in s.reports { SealedKept(c, s, s', e, d); } else { StepNew(c, s, act, r, d); }
    }
  }

  // ---- Whole runs ----

  /** In no state of the run has a scan of `d` begun. */
  ghost predicate NeverScanned(run: seq<State>, d: Path) {
    forall i | 0 <= i < |run| && d in run[i].nodes :: Unscanned(run[i].nodes[d].at) || run[i].nodes[d].at.Dropping?
  }

  lemma UnreadBackwards(c: Config, s: State, s': State, e: Effect, d: Path)
    requires LivesOk(s) && Summary(c, s, s', e) && Unread(s', d)
    ensures Unread(s, d)
  {
    hide InHands, Made, Honest, Render, Unscanned, Names;
  }

  lemma {:induction false} UnreadBefore(c: Config, run: seq<State>, d: Path)
    requires ValidConfig(c) && IsRun(c, run) && Unread(Final(run), d)
    ensures NeverScanned(run, d)
  {
    hide Family, PoolOk, Coverage, Unscanned, Step, Summary, Noticed, Record, WalkHistory.Untouched;
    RunInvariant(c, run);
    assert d in Final(run).nodes ==> Unscanned(Final(run).nodes[d].at) by { LastUnread(c, Final(run), d); }
    if |run| > 1 {
      var before := run[..|run| - 1];
      var act := RunBefore(c, run);
      RunInvariant(c, before);
      var e := StepSummary(c, Final(before), act);
      assert LivesOk(Final(before)) by { LivesIn(c, Final(before)); }
      UnreadBackwards(c, Final(before), Final(run), e, d);
      UnreadBefore(c, before, d);
    }
  }

  lemma LastUnread(c: Config, s: State, d: Path)
    requires Family(c, s) && Unread(s, d)
    ensures d in s.nodes ==> Unscanned(s.nodes[d].at)
  {
    LivesIn(c, s);
    hide Family, Unscanned;
  }

  /** No scan began of anything reported as left whole. */
  ghost predicate AllUnscanned(run: seq<State>) {
    forall r, d | run != [] && r in Final(run).reports && Leaves(r, d) :: NeverScanned(run, d)
  }

  lemma SealedNow(c: Config, s: State, r: Report, d: Path)
    requires AllSealed(c, s) && r in s.reports && Leaves(r, d)
    ensures d in s.nodes ==> s.nodes[d].at.Dropping?
  {
    hide Scanners, Passed, Whole, Leaves;
    assert Sealed(c, s, d);
  }

  lemma StillUnscanned(c: Config, run: seq<State>, d: Path)
    requires |run| > 1 && NeverScanned(run[..|run| - 1], d)
    requires d in Final(run).nodes ==> Final(run).nodes[d].at.Dropping?
    ensures NeverScanned(run, d)
  {
    hide Unscanned;
  }

  lemma InitialSealed(c: Config)
    ensures AllSealed(c, Initial(c))
  {
  }

  lemma {:induction false} RunSealed(c: Config, run: seq<State>)
    requires ValidConfig(c) && IsRun(c, run)
    ensures run != [] && AllSealed(c, Final(run)) && AllUnscanned(run)
  {
    hide Family, PoolOk, Coverage, History, Step, AllSealed, NeverScanned, Unread, Leaves;
    if |run| == 1 {
      InitialSealed(c);
      assert Final(run) == Initial(c);
    } else {
      var before := run[..|run| - 1];
      var act := RunBefore(c, run);
      RunSealed(c, before);
      RunInvariant(c, before);
      StepSealed(c, Final(before), act);
      forall r, d | r in Final(run).reports && Leaves(r, d) ensures NeverScanned(run, d) {
        if r !in Final(before).reports {
          assert IsNew(Final(before), Final(run), r, d);
          UnreadBefore(c, before, d);
        }
        SealedNow(c, Final(run), r, d);
        StillUnscanned(c, run, d);
      }
    }
  }

  /**
   * What is reported as left whole is whole: no scan of it ever began, no node was made
   * below it, and all that the tree had at it and below it is there. So a directory whose
   * reading stopped excuses none of the entries read before.
   */
  lemma NeverLookedInto(c: Config, run: seq<State>, r: Report, d: Path)
    requires ValidConfig(c) && IsRun(c, run) && r in Final(run).reports && Leaves(r, d)
    ensures NeverScanned(run, d)
    ensures forall q | d < q :: q !in Final(run).born
    ensures forall q | d <= q && q in c.kinds :: q in Final(run).fs
  {
    RunSealed(c, run);
    RunInvariant(c, run);
    hide IsRun, Family, PoolOk, Coverage, Noticed, NeverScanned, WalkHistory.Untouched, Honest, Lines, Leaves, Passed;
    assert Sealed(c, Final(run), d);
    forall q | d <= q && q in c.kinds ensures q in Final(run).fs { assert d < q || q == d; }
  }
}
