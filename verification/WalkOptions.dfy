/**
 * What the options change: which directories go without -r, with -d, and without -f, and
 * that no refusal and no missing operand goes unreported.
 */
module WalkOptions {
  import opened Common
  import opened Walk
  import opened WalkFamily
  import opened WalkPool
  import opened WalkCover
  import opened WalkHistory
  import opened WalkRun

  // ---- Without -r ----

  /** What a run without -r takes away of its operands: files, and under -d empty directories. */
  ghost predicate Goes(c: Config, p: Path) {
    |p| == 1 && p in c.kinds && (c.kinds[p].File? || (c.dir && !Full(c, p)))
  }

  ghost predicate IsOperand(c: Config, p: Path) {
    |p| == 1 && p[0] in c.operands
  }

  /** The main thread is done with the operand: it went, was reported, or was not there under -f. */
  ghost predicate Handled(c: Config, s: State, p: Path) {
    || p in s.removed
    || (exists r | r in s.reports :: r.path == p)
    || (p !in c.kinds && c.force)
  }

  ghost predicate PlainInv(c: Config, s: State) {
    && s.nodes == map[] && s.climbing == {} && s.born == {}
    && (s.seed < |c.operands| ==> s.seedAt.SeedStat? || s.seedAt.SeedUnlink? || (s.seedAt.SeedRmdir? && c.dir))
    && (forall p | p in s.removed :: Goes(c, p))
    && (forall r | r in s.reports :: IsOperand(c, r.path))
    && (forall i | 0 <= i < s.seed && i < |c.operands| :: Handled(c, s, [c.operands[i]]))
  }

  /** A step for the operand at hand, with the next one up or not. */
  ghost predicate OperandStep(c: Config, s: State, s': State, p: Path) {
    && s'.nodes == s.nodes && s'.climbing == s.climbing && s'.born == s.born
    && (s'.removed == s.removed || (s'.removed == s.removed + [p] && Goes(c, p)))
    && (s'.reports == s.reports || exists r :: s'.reports == s.reports + [r] && r.path == p)
    && (s'.seed == s.seed || (s'.seed == s.seed + 1 && s'.seedAt.SeedStat? && Handled(c, s', p)))
    && (s'.seed == s.seed ==> s'.seedAt.SeedStat? || s'.seedAt.SeedUnlink? || (s'.seedAt.SeedRmdir? && c.dir))
  }

  lemma PlainKept(c: Config, s: State, s': State)
    requires PlainInv(c, s) && s.seed < |c.operands| && OperandStep(c, s, s', [c.operands[s.seed]])
    ensures PlainInv(c, s')
  {
    hide Goes;
    forall i | 0 <= i < s'.seed && i < |c.operands| ensures Handled(c, s', [c.operands[i]]) {
      if i < s.seed {
        assert Handled(c, s, [c.operands[i]]);
        if r :| r in s.reports && r.path == [c.operands[i]] { assert r in s'.reports; }
      }
    }
    assert IsOperand(c, [c.operands[s.seed]]);
  }

  lemma Reports(c: Config, s: State, s': State, p: Path)
    requires s'.nodes == s.nodes && s'.climbing == s.climbing && s'.born == s.born && s'.removed == s.removed
    requires |s'.reports| == |s.reports| + 1 && s'.reports[..|s.reports|] == s.reports && s'.reports[|s.reports|].path == p
    requires s'.seed == s.seed + 1 && s'.seedAt.SeedStat?
    ensures OperandStep(c, s, s', p)
  {
    var r := s'.reports[|s.reports|];
    assert s'.reports == s.reports + [r];
    assert r in s'.reports;
  }

  lemma Removes(c: Config, s: State, s': State, p: Path)
    requires s'.nodes == s.nodes && s'.climbing == s.climbing && s'.born == s.born && s'.reports == s.reports
    requires s'.removed == s.removed + [p] && Goes(c, p) && s'.seed == s.seed + 1 && s'.seedAt.SeedStat?
    ensures OperandStep(c, s, s', p)
  {
    hide Goes;
    assert s'.removed[|s.removed|] == p;
  }

  lemma GoesOn(c: Config, s: State, s': State, p: Path)
    requires s'.nodes == s.nodes && s'.climbing == s.climbing && s'.born == s.born && s'.reports == s.reports && s'.removed == s.removed
    requires s'.seed == s.seed || (s'.seed == s.seed + 1 && p !in c.kinds && c.force)
    requires s'.seedAt.SeedStat? || (s'.seed == s.seed && (s'.seedAt.SeedUnlink? || (s'.seedAt.SeedRmdir? && c.dir)))
    ensures OperandStep(c, s, s', p)
  {
  }

  lemma StatPlain(c: Config, s: State, choice: Choice)
    requires Family(c, s) && !c.recursive && s.seed < |c.operands| && s.seedAt.SeedStat?
    requires forall i | s.seed <= i < |c.operands| :: [c.operands[i]] in c.kinds ==> [c.operands[i]] in s.fs
    ensures OperandStep(c, s, SeedNext(c, s, choice), [c.operands[s.seed]])
  {
    hide Family, Full, Render, OperandStep;
    var s', p := SeedNext(c, s, choice), [c.operands[s.seed]];
    if s'.reports != s.reports { Reports(c, s, s', p); } else { GoesOn(c, s, s', p); }
  }

  lemma UnlinkPlain(c: Config, s: State, choice: Choice)
    requires Family(c, s) && s.seed < |c.operands| && s.seedAt.SeedUnlink?
    ensures OperandStep(c, s, SeedNext(c, s, choice), [c.operands[s.seed]])
  {
    hide Family, FsOk, Full, Render, OperandStep, GiveUp;
    SeedInHand(c, s);
    var s', p := SeedNext(c, s, choice), [c.operands[s.seed]];
    if s'.reports != s.reports { Reports(c, s, s', p); }
    else if s'.removed != s.removed { Removes(c, s, s', p); }
    else { GoesOn(c, s, s', p); }
  }

  lemma RmdirPlain(c: Config, s: State, choice: Choice)
    requires Family(c, s) && History(c, s) && PlainInv(c, s) && s.seed < |c.operands| && s.seedAt.SeedRmdir?
    ensures OperandStep(c, s, SeedNext(c, s, choice), [c.operands[s.seed]])
  {
    assert c.dir;
    hide Family, FsOk, History, PlainInv, Full, HasChild, Render, Goes, GiveUp, OperandStep;
    SeedInHand(c, s);
    var s', p := SeedNext(c, s, choice), [c.operands[s.seed]];
    if s'.reports != s.reports { Reports(c, s, s', p); }
    else if s'.removed != s.removed { EmptyGoes(c, s, p); Removes(c, s, s', p); }
    else { GoesOn(c, s, s', p); }
  }

  /** Without -r nothing below an operand is ever removed. */
  lemma FullStays(c: Config, s: State, p: Path)
    requires History(c, s) && PlainInv(c, s) && |p| == 1 && Full(c, p)
    ensures HasChild(s.fs, p)
  {
    var name :| p + [name] in c.kinds;
    assert p + [name] !in s.removed by { assert |p + [name]| == 2; }
  }

  /** So an operand that is empty was so from the start. */
  lemma EmptyGoes(c: Config, s: State, p: Path)
    requires History(c, s) && PlainInv(c, s) && |p| == 1 && p in c.kinds && c.dir && !HasChild(s.fs, p)
    ensures Goes(c, p)
  {
    hide History, PlainInv, Full, HasChild;
    if Full(c, p) { FullStays(c, s, p); }
  }

  lemma StepPlain(c: Config, s: State, act: Action)
    requires Family(c, s) && History(c, s) && PlainInv(c, s) && !c.recursive
    ensures PlainInv(c, Step(c, s, act))
  {
    if act.Seed? && s.seed < |c.operands| {
      var s' := SeedNext(c, s, act.choice);
      OperandPlain(c, s, act.choice);
      hide Family, History, PlainInv, OperandStep, SeedNext;
      PlainKept(c, s, s');
    }
  }

  lemma OperandPlain(c: Config, s: State, choice: Choice)
    requires Family(c, s) && History(c, s) && PlainInv(c, s) && !c.recursive && s.seed < |c.operands|
    ensures OperandStep(c, s, SeedNext(c, s, choice), [c.operands[s.seed]])
  {
    assert s.seedAt.SeedStat? || s.seedAt.SeedUnlink? || s.seedAt.SeedRmdir?;
    assert Untouched(c, s);
    hide Family, Noticed, Record, PlainInv, OperandStep, SeedNext;
    match s.seedAt
    case SeedStat => StatPlain(c, s, choice);
    case SeedUnlink => UnlinkPlain(c, s, choice);
    case SeedRmdir => RmdirPlain(c, s, choice);
  }

  lemma {:induction false} RunPlain(c: Config, run: seq<State>)
    requires ValidConfig(c) && IsRun(c, run) && !c.recursive
    ensures run != [] && PlainInv(c, Final(run))
  {
    hide Family, PoolOk, Coverage, History, Step, PlainInv;
    if |run| == 1 {
      InitialPlain(c);
      assert Final(run) == Initial(c);
    } else {
      var act := RunBefore(c, run);
      RunPlain(c, run[..|run| - 1]);
      RunInvariant(c, run[..|run| - 1]);
      StepPlain(c, Final(run[..|run| - 1]), act);
    }
  }

  lemma InitialPlain(c: Config)
    ensures PlainInv(c, Initial(c))
  {
  }

  /**
   * Without -r only operands go, and of directories only those that had nothing in them,
   * and only under -d. One that stays for want of -r is reported so: without -d, or because
   * something is in it.
   */
  lemma NothingBeneathGoes(c: Config, run: seq<State>)
    requires ValidConfig(c) && IsRun(c, run) && !c.recursive
    ensures forall p | p in Final(run).removed :: IsOperand(c, p) && Goes(c, p)
    ensures forall r | r in Final(run).reports && r.cause.NotRecursive? :: r.path in c.kinds && c.kinds[r.path].Dir? && (c.dir ==> Full(c, r.path))
  {
    RunPlain(c, run);
    RunInvariant(c, run);
    hide IsRun, Family, PoolOk, Coverage, Noticed, Untouched, Lines, Goes, Full;
    forall r | r in Final(run).reports && r.cause.NotRecursive?
      ensures r.path in c.kinds && c.kinds[r.path].Dir? && (c.dir ==> Full(c, r.path))
    {
      assert Honest(c, Final(run), r);
    }
  }

  /** With no call refused, a finished run without -r removes exactly these, and exits 0 if and only if nothing else was named. */
  lemma PlainRun(c: Config, run: seq<State>)
    requires ValidConfig(c) && IsRun(c, run) && Done(c, Final(run)) && !c.recursive && Final(run).faults == {}
    ensures forall p :: p in Final(run).removed <==> IsOperand(c, p) && Goes(c, p)
    ensures ExitStatus(Final(run)) == 0 <==> forall p | IsOperand(c, p) :: Goes(c, p) || (p !in c.kinds && c.force)
  {
    var s := Final(run);
    RunPlain(c, run);
    RunInvariant(c, run);
    NothingBeneathGoes(c, run);
    hide IsRun, Family, PoolOk, Coverage, Noticed, Untouched, Lines, Goes;
    forall p | IsOperand(c, p) ensures Goes(c, p) ==> p in s.removed {
      OperandHandled(c, s, p);
      if r :| r in s.reports && r.path == p { ReportedStays(c, s, r); }
    }
    forall p | IsOperand(c, p) && s.reports == [] ensures Goes(c, p) || (p !in c.kinds && c.force) {
      OperandHandled(c, s, p);
    }
    if s.reports != [] {
      assert s.reports[0] in s.reports;
      ReportedStays(c, s, s.reports[0]);
    }
  }

  lemma OperandHandled(c: Config, s: State, p: Path)
    requires PlainInv(c, s) && s.seed == |c.operands| && IsOperand(c, p)
    ensures Handled(c, s, p)
  {
    var i :| 0 <= i < |c.operands| && c.operands[i] == p[0];
    assert p == [c.operands[i]];
  }

  /** Without refusals what is reported is not one of those that go, nor excused by -f. */
  lemma ReportedStays(c: Config, s: State, r: Report)
    requires Record(c, s) && PlainInv(c, s) && s.faults == {} && r in s.reports
    ensures !Goes(c, r.path) && IsOperand(c, r.path) && (r.path in c.kinds || !c.force)
  {
    assert Honest(c, s, r);
    hide Lines, Accounted;
  }

  // ---- Without -f ----

  /** The last directory the step removed, if it removed one, was at the end of its life. */
  ghost predicate RemovesScanned(c: Config, s: State, s': State) {
    forall p | p in s'.removed && p !in s.removed && p in c.kinds && c.kinds[p].Dir? :: p in s.nodes && s.nodes[p].at.Removing?
  }

  lemma EntryRemoves(c: Config, s: State, p: Path, choice: Choice)
    requires Family(c, s) && p in s.nodes && s.nodes[p].at.Handling? && !c.force
    ensures RemovesScanned(c, s, HandleEntry(c, s, p, choice))
  {
    hide Family, Render, Retryable, HasChild;
    EntryThere(c, s, p);
  }

  lemma DirRemoves(c: Config, s: State, p: Path, choice: Choice)
    requires p in s.nodes && !s.nodes[p].at.Handling? && !c.force
    ensures RemovesScanned(c, s, AdvanceDir(c, s, p, choice))
  {
    hide Render, Retryable, HasChild, HandleEntry, Children;
  }

  lemma SeedRemoves(c: Config, s: State, choice: Choice)
    requires Family(c, s) && Noticed(c, s) && s.seed < |c.operands| && !c.force && c.recursive
    ensures RemovesScanned(c, s, SeedNext(c, s, choice))
  {
    SeedInHand(c, s);
    hide Family, FsOk, Render, HasChild;
  }

  lemma StepRemoves(c: Config, s: State, act: Action)
    requires Family(c, s) && Noticed(c, s) && !c.force && c.recursive
    ensures RemovesScanned(c, s, Step(c, s, act))
  {
    hide Family, Noticed, AdvanceDir, SeedNext, Children, RemovesScanned;
    match act
    case Seed(choice) =>
      if s.seed < |c.operands| { SeedRemoves(c, s, choice); } else { NothingRemoved(c, s, s); }
    case Advance(p, choice) =>
      if p !in s.nodes { NothingRemoved(c, s, s); }
      else if s.nodes[p].at.Handling? { EntryRemoves(c, s, p, choice); IsEntryStep(c, s, p, choice); }
      else { DirRemoves(c, s, p, choice); }
    case _ => NothingRemoved(c, s, Step(c, s, act));
  }

  lemma IsEntryStep(c: Config, s: State, p: Path, choice: Choice)
    requires p in s.nodes && s.nodes[p].at.Handling?
    ensures AdvanceDir(c, s, p, choice) == HandleEntry(c, s, p, choice)
  {
    hide HandleEntry;
  }

  lemma NothingRemoved(c: Config, s: State, s': State)
    requires s'.removed == s.removed
    ensures RemovesScanned(c, s, s')
  {
  }

  ghost predicate AtEnd(at: At) {
    at.Removing? || at.Removed?
  }

  /** To the end of its life a directory comes from having been scanned. */
  lemma EndsScanned(c: Config, s: State, act: Action, p: Path)
    requires Family(c, s) && p in Step(c, s, act).nodes && AtEnd(Step(c, s, act).nodes[p].at)
    ensures p in s.nodes && (Scanned(s.nodes[p].at) || AtEnd(s.nodes[p].at))
  {
    hide Family, AdvanceDir, SeedNext, ClimbFrom, Children;
    match act
    case Seed(choice) => if s.seed < |c.operands| { SeedEnds(c, s, choice, p); }
    case Acquire(_) =>
    case Advance(q, choice) => if q in s.nodes { AdvanceEnds(c, s, q, choice, p); }
    case Climb(q) => if q in s.climbing && q != [] { ClimbEnds(c, s, q, p); }
  }

  lemma SeedEnds(c: Config, s: State, choice: Choice, p: Path)
    requires s.seed < |c.operands| && p in SeedNext(c, s, choice).nodes && AtEnd(SeedNext(c, s, choice).nodes[p].at)
    ensures p in s.nodes && s.nodes[p] == SeedNext(c, s, choice).nodes[p]
  {
    hide Possible, Render;
  }

  lemma ClimbEnds(c: Config, s: State, q: Path, p: Path)
    requires Family(c, s) && q in s.climbing && q != [] && p in ClimbFrom(s, q).nodes && AtEnd(ClimbFrom(s, q).nodes[p].at)
    ensures p in s.nodes && (Scanned(s.nodes[p].at) || AtEnd(s.nodes[p].at))
  {
    hide FsOk, NodeOk, RefsOk, LivesOk, SeedOk;
    assert ClimbOk(s, q);
  }

  /** Nodes at their end are as they were. */
  ghost predicate SameEnds(s: State, s': State) {
    forall p | p in s'.nodes && AtEnd(s'.nodes[p].at) :: p in s.nodes && AtEnd(s.nodes[p].at)
  }

  lemma RefusedEnds(c: Config, s: State, q: Path, choice: Choice)
    requires q in s.nodes && s.nodes[q].at.Handling? && s.nodes[q].at.entry.ChildRefused?
    ensures SameEnds(s, HandleEntry(c, s, q, choice))
  {
    hide Possible, Render, Retryable, GiveUp;
    var child, line := q + [s.nodes[q].at.name], Render(q) + "/" + s.nodes[q].at.name;
    var err := if choice.Answer? then choice.err else Some(OtherError(0));
    if GiveUp(c, s, child, line, err).Some? { GiveUpKeeps(c, s, child, line, err); }
  }

  lemma CallEnds(c: Config, s: State, q: Path, choice: Choice)
    requires q in s.nodes && s.nodes[q].at.Handling? && (s.nodes[q].at.entry.Stat? || s.nodes[q].at.entry.Unlink?)
    ensures SameEnds(s, HandleEntry(c, s, q, choice))
  {
    hide Possible, Render, Retryable, GiveUp;
  }

  lemma EndsMoved(s: State, s': State, q: Path)
    requires q in s.nodes && q in s'.nodes && s'.nodes == s.nodes[q := s'.nodes[q]] && !AtEnd(s'.nodes[q].at)
    ensures SameEnds(s, s')
  {
    hide AtEnd;
  }

  lemma EndsBeside(s: State, s': State, q: Path, child: Path)
    requires q in s.nodes && s'.nodes.Keys == s.nodes.Keys + {child} && q in s'.nodes
    requires !AtEnd(s'.nodes[q].at) && !AtEnd(s'.nodes[child].at)
    requires forall p | p in s.nodes && p != q && p != child :: s'.nodes[p] == s.nodes[p]
    ensures SameEnds(s, s')
  {
    hide AtEnd;
  }

  lemma BesideEnds(c: Config, s: State, q: Path, choice: Choice)
    requires q in s.nodes && s.nodes[q].at.Handling? && (s.nodes[q].at.entry.ChildNew? || s.nodes[q].at.entry.ChildSubmit?)
    ensures SameEnds(s, HandleEntry(c, s, q, choice))
  {
    hide Possible, Render, Retryable, GiveUp, SameEnds;
    var child := q + [s.nodes[q].at.name];
    assert child != q by { assert |child| != |q|; }
    if s.nodes[q].at.entry.ChildSubmit? && child !in s.nodes { SameIsSame(s); }
    else { EndsBeside(s, HandleEntry(c, s, q, choice), q, child); }
  }

  lemma SameIsSame(s: State)
    ensures SameEnds(s, s)
  {
  }

  lemma OpenEnds(c: Config, s: State, q: Path, choice: Choice)
    requires q in s.nodes && s.nodes[q].at.Handling?
    requires var entry := s.nodes[q].at.entry; entry.CheckLimit? || entry.ChildReserved? || entry.ChildRefusing?
    ensures SameEnds(s, HandleEntry(c, s, q, choice))
  {
    hide Possible, Render, Retryable, GiveUp, SameEnds;
    if HandleEntry(c, s, q, choice) == s { SameIsSame(s); } else { EndsMoved(s, HandleEntry(c, s, q, choice), q); }
  }

  lemma EntryEnds(c: Config, s: State, q: Path, choice: Choice)
    requires q in s.nodes && s.nodes[q].at.Handling?
    ensures SameEnds(s, HandleEntry(c, s, q, choice))
  {
    hide HandleEntry, SameEnds;
    if s.nodes[q].at.entry.ChildRefused? { RefusedEnds(c, s, q, choice); }
    else if s.nodes[q].at.entry.Stat? || s.nodes[q].at.entry.Unlink? { CallEnds(c, s, q, choice); }
    else if s.nodes[q].at.entry.ChildNew? || s.nodes[q].at.entry.ChildSubmit? { BesideEnds(c, s, q, choice); }
    else { OpenEnds(c, s, q, choice); }
  }

  lemma FailedEnds(c: Config, s: State, q: Path, choice: Choice)
    requires q in s.nodes && s.nodes[q].at.OpenFailed?
    ensures SameEnds(s, AdvanceDir(c, s, q, choice))
  {
    hide Possible, Render, GiveUp, HandleEntry;
    var err := if choice.Answer? then choice.err else Some(OtherError(0));
    if GiveUp(c, s, q, Render(q), err).Some? { GiveUpKeeps(c, s, q, Render(q), err); }
  }

  lemma DirStays(c: Config, s: State, q: Path, choice: Choice)
    requires q in s.nodes
    requires var at := s.nodes[q].at;
      at.Opening? || at.Reserved? || at.Refusing? || at.Scanning? || at.Closing? || Idle(at)
    ensures SameEnds(s, AdvanceDir(c, s, q, choice))
  {
    hide Possible, Render, Retryable, HandleEntry, Children, GiveUp, SameEnds;
    var s' := AdvanceDir(c, s, q, choice);
    if s' == s { SameIsSame(s); } else { EndsMoved(s, s', q); }
  }

  predicate Idle(at: At) {
    at.Unsubmitted? || at.Queued? || at.Parked? || at.Waiting?
  }

  lemma DirEnds(c: Config, s: State, q: Path, choice: Choice, p: Path)
    requires q in s.nodes
    requires var at := s.nodes[q].at; at.ScanDone? || at.Removing? || at.Removed? || at.Dropping?
    requires p in AdvanceDir(c, s, q, choice).nodes && AtEnd(AdvanceDir(c, s, q, choice).nodes[p].at)
    ensures p in s.nodes && (Scanned(s.nodes[p].at) || AtEnd(s.nodes[p].at))
  {
    hide Possible, Render, Retryable, HandleEntry, Children, GiveUp;
    var s' := AdvanceDir(c, s, q, choice);
    assert p != q ==> p in s.nodes && s'.nodes[p] == s.nodes[p];
  }

  lemma AdvanceEnds(c: Config, s: State, q: Path, choice: Choice, p: Path)
    requires q in s.nodes && p in AdvanceDir(c, s, q, choice).nodes && AtEnd(AdvanceDir(c, s, q, choice).nodes[p].at)
    ensures p in s.nodes && (Scanned(s.nodes[p].at) || AtEnd(s.nodes[p].at))
  {
    hide AdvanceDir, HandleEntry, AtEnd, Scanned;
    if s.nodes[q].at.Handling? {
      IsEntryStep(c, s, q, choice);
      EntryEnds(c, s, q, choice);
    } else if s.nodes[q].at.OpenFailed? {
      FailedEnds(c, s, q, choice);
    } else if s.nodes[q].at.ScanDone? || s.nodes[q].at.Removing? || s.nodes[q].at.Removed? || s.nodes[q].at.Dropping? {
      DirEnds(c, s, q, choice, p);
    } else {
      DirStays(c, s, q, choice);
    }
  }

  /** Some state of the run was scanning `p`. */
  ghost predicate WasScanned(run: seq<State>, p: Path) {
    exists i | 0 <= i < |run| :: p in run[i].nodes && Scanned(run[i].nodes[p].at)
  }

  lemma ScannedLater(run: seq<State>, p: Path)
    requires |run| > 1 && WasScanned(run[..|run| - 1], p)
    ensures WasScanned(run, p)
  {
    var before := run[..|run| - 1];
    var i :| 0 <= i < |before| && p in before[i].nodes && Scanned(before[i].nodes[p].at);
    assert run[i] == before[i];
  }

  lemma {:induction false} EndMeansScanned(c: Config, run: seq<State>, p: Path)
    requires ValidConfig(c) && IsRun(c, run) && p in Final(run).nodes && AtEnd(Final(run).nodes[p].at)
    ensures WasScanned(run, p)
  {
    hide Family, PoolOk, Coverage, History, Step, Scanned, WasScanned;
    if |run| > 1 {
      var before := run[..|run| - 1];
      var act := RunBefore(c, run);
      RunInvariant(c, before);
      EndsScanned(c, Final(before), act, p);
      if AtEnd(Final(before).nodes[p].at) { EndMeansScanned(c, before, p); } else { ScannedNow(before, p); }
      ScannedLater(run, p);
    }
  }

  lemma ScannedNow(run: seq<State>, p: Path)
    requires run != [] && p in Final(run).nodes && Scanned(Final(run).nodes[p].at)
    ensures WasScanned(run, p)
  {
    assert run[|run| - 1] == Final(run);
  }

  /**
   * Without -f a directory goes only after it was opened and scanned: one whose open is
   * given up is not even tried.
   */
  lemma {:induction false} OnlyScannedGo(c: Config, run: seq<State>, p: Path)
    requires ValidConfig(c) && IsRun(c, run) && !c.force && c.recursive
    requires p in Final(run).removed && p in c.kinds && c.kinds[p].Dir?
    ensures WasScanned(run, p)
  {
    hide Family, PoolOk, Coverage, Untouched, Record, Noticed, Step, Scanned, WasScanned;
    if |run| > 1 {
      var before := run[..|run| - 1];
      var act := RunBefore(c, run);
      RunInvariant(c, before);
      if p in Final(before).removed {
        OnlyScannedGo(c, before, p);
      } else {
        StepRemoves(c, Final(before), act);
        EndMeansScanned(c, before, p);
      }
      ScannedLater(run, p);
    }
  }

  // ---- Nothing goes unsaid ----

  /** The refusal was reported, or skipped in silence, or is that of an open, which may be retried. */
  ghost predicate Told(c: Config, s: State, f: Refused) {
    || f.call.DoOpen?
    || (exists r | r in s.reports :: r.path == f.path && r.cause.Fault? && (f.call.DoRead? ==> r.scope.Beneath?))
    || (f.call.DoStat? && f.path in s.silent && MaySkip(c))
  }

  /** An operand that is not there was reported, unless under -f. */
  ghost predicate MissingTold(c: Config, s: State, p: Path) {
    p in c.kinds || c.force || exists r | r in s.reports :: r.path == p
  }

  ghost predicate AllTold(c: Config, s: State) {
    && (forall f | f in s.faults :: Told(c, s, f))
    && forall i | 0 <= i < s.seed && i < |c.operands| :: MissingTold(c, s, [c.operands[i]])
  }

  /** What the step adds to the record is told in the same step. */
  ghost predicate TellsAll(c: Config, s: State, s': State) {
    && s.reports <= s'.reports && s.silent <= s'.silent
    && (forall f | f in s'.faults && f !in s.faults :: Told(c, s', f))
    && (s'.seed == s.seed || (s'.seed == s.seed + 1 && s.seed < |c.operands| && MissingTold(c, s', [c.operands[s.seed]])))
  }

  lemma ToldLater(c: Config, s: State, s': State)
    requires AllTold(c, s) && TellsAll(c, s, s')
    ensures AllTold(c, s')
  {
    forall f | f in s'.faults ensures Told(c, s', f) {
      if f in s.faults && !f.call.DoOpen? {
        if r :| r in s.reports && r.path == f.path && r.cause.Fault? && (f.call.DoRead? ==> r.scope.Beneath?) { assert r in s'.reports; }
      }
    }
    forall i | 0 <= i < s'.seed && i < |c.operands| ensures MissingTold(c, s', [c.operands[i]]) {
      if i < s.seed {
        assert MissingTold(c, s, [c.operands[i]]);
        if r :| r in s.reports && r.path == [c.operands[i]] { assert r in s'.reports; }
      }
    }
  }

  lemma NothingNew(c: Config, s: State, s': State)
    requires s'.reports == s.reports && s'.silent == s.silent && s'.seed == s.seed
    requires forall f | f in s'.faults && f !in s.faults :: f.call.DoOpen?
    ensures TellsAll(c, s, s')
  {
  }

  /** One refusal, told by one report. */
  lemma OneTold(c: Config, s: State, s': State, r: Report)
    requires s'.reports == s.reports + [r] && s'.silent == s.silent && s'.seed == s.seed
    requires forall f | f in s'.faults && f !in s.faults ::
      f.call.DoOpen? || (f.path == r.path && r.cause.Fault? && (f.call.DoRead? ==> r.scope.Beneath?))
    ensures TellsAll(c, s, s')
  {
    assert r in s'.reports;
  }

  lemma GiveUpTells(c: Config, s: State, p: Path, line: string, err: Option<Errno>)
    requires GiveUp(c, s, p, line, err).Some?
    ensures var s' := GiveUp(c, s, p, line, err).value;
      && s'.silent == s.silent && s'.seed == s.seed
      && ((s'.reports == s.reports && s'.faults == s.faults)
        || (s'.reports == s.reports + [Report(p, Subtree, Fault)] && s'.faults <= s.faults + {Refused(DoRmdir, p)}))
  {
    hide Possible;
  }

  lemma CallTells(c: Config, s: State, p: Path, choice: Choice)
    requires p in s.nodes && s.nodes[p].at.Handling? && (s.nodes[p].at.entry.Stat? || s.nodes[p].at.entry.Unlink?)
    ensures TellsAll(c, s, HandleEntry(c, s, p, choice))
  {
    hide Possible, Render, GiveUp, Retryable, TellsAll;
    var s', child := HandleEntry(c, s, p, choice), p + [s.nodes[p].at.name];
    if s'.reports == s.reports { NothingNew(c, s, s'); }
    else { OneTold(c, s, s', Report(child, if s.nodes[p].at.entry.Stat? then Subtree else Itself, Fault)); }
  }

  lemma RefusedTells(c: Config, s: State, p: Path, choice: Choice)
    requires p in s.nodes && s.nodes[p].at.Handling? && s.nodes[p].at.entry.ChildRefused?
    ensures TellsAll(c, s, HandleEntry(c, s, p, choice))
  {
    hide Possible, Render, GiveUp, Retryable, TellsAll;
    var s', child, line := HandleEntry(c, s, p, choice), p + [s.nodes[p].at.name], Render(p) + "/" + s.nodes[p].at.name;
    var err := if choice.Answer? then choice.err else Some(OtherError(0));
    if GiveUp(c, s, child, line, err).Some? { GiveUpTells(c, s, child, line, err); }
    if s'.reports == s.reports { NothingNew(c, s, s'); } else { OneTold(c, s, s', Report(child, Subtree, Fault)); }
  }

  lemma OtherTells(c: Config, s: State, p: Path, choice: Choice)
    requires p in s.nodes && s.nodes[p].at.Handling?
    requires var entry := s.nodes[p].at.entry; !entry.Stat? && !entry.Unlink? && !entry.ChildRefused?
    ensures TellsAll(c, s, HandleEntry(c, s, p, choice))
  {
    hide Possible, Render, GiveUp, Retryable, TellsAll;
    NothingNew(c, s, HandleEntry(c, s, p, choice));
  }

  lemma EntryTells(c: Config, s: State, p: Path, choice: Choice)
    requires p in s.nodes && s.nodes[p].at.Handling?
    ensures TellsAll(c, s, HandleEntry(c, s, p, choice))
  {
    hide HandleEntry, TellsAll;
    if s.nodes[p].at.entry.Stat? || s.nodes[p].at.entry.Unlink? { CallTells(c, s, p, choice); }
    else if s.nodes[p].at.entry.ChildRefused? { RefusedTells(c, s, p, choice); }
    else { OtherTells(c, s, p, choice); }
  }

  lemma FailedTells(c: Config, s: State, p: Path, choice: Choice)
    requires p in s.nodes && s.nodes[p].at.OpenFailed?
    ensures TellsAll(c, s, AdvanceDir(c, s, p, choice))
  {
    hide Possible, Render, GiveUp, HandleEntry, TellsAll;
    var s', err := AdvanceDir(c, s, p, choice), if choice.Answer? then choice.err else Some(OtherError(0));
    if GiveUp(c, s, p, Render(p), err).Some? { GiveUpTells(c, s, p, Render(p), err); }
    if s'.reports == s.reports { NothingNew(c, s, s'); } else { OneTold(c, s, s', Report(p, Subtree, Fault)); }
  }

  lemma ReadTells(c: Config, s: State, p: Path, choice: Choice)
    requires p in s.nodes && (s.nodes[p].at.Scanning? || s.nodes[p].at.Removing?)
    ensures TellsAll(c, s, AdvanceDir(c, s, p, choice))
  {
    hide Possible, Render, GiveUp, HandleEntry, TellsAll;
    var s' := AdvanceDir(c, s, p, choice);
    if s'.reports == s.reports { NothingNew(c, s, s'); } else { OneTold(c, s, s', s'.reports[|s.reports|]); }
  }

  lemma RestTells(c: Config, s: State, p: Path, choice: Choice)
    requires p in s.nodes
    requires var at := s.nodes[p].at; !at.Handling? && !at.OpenFailed? && !at.Scanning? && !at.Removing?
    ensures TellsAll(c, s, AdvanceDir(c, s, p, choice))
  {
    hide Possible, Render, GiveUp, HandleEntry, TellsAll, Retryable, Children;
    NothingNew(c, s, AdvanceDir(c, s, p, choice));
  }

  lemma DirTells(c: Config, s: State, p: Path, choice: Choice)
    requires p in s.nodes && !s.nodes[p].at.Handling?
    ensures TellsAll(c, s, AdvanceDir(c, s, p, choice))
  {
    hide AdvanceDir, TellsAll;
    var at := s.nodes[p].at;
    if at.OpenFailed? { FailedTells(c, s, p, choice); }
    else if at.Scanning? || at.Removing? { ReadTells(c, s, p, choice); }
    else { RestTells(c, s, p, choice); }
  }

  /** The main thread reports on the operand at hand, or passes over one that need not be told. */
  lemma OperandTold(c: Config, s: State, s': State, p: Path)
    requires s.seed < |c.operands| && p == [c.operands[s.seed]] && s.silent <= s'.silent
    requires s'.reports == s.reports || (s'.reports != [] && s'.reports == s.reports + [s'.reports[|s'.reports| - 1]])
    requires forall f | f in s'.faults && f !in s.faults ::
      f.call.DoOpen? || (f.path == p && !f.call.DoRead? && (
        || (s'.reports != s.reports && Final(s'.reports).path == p && Final(s'.reports).cause.Fault?)
        || (f.call.DoStat? && p in s'.silent && MaySkip(c))))
    requires s'.seed == s.seed || (s'.seed == s.seed + 1 && (
      p in c.kinds || c.force || (s'.reports != s.reports && Final(s'.reports).path == p)))
    ensures TellsAll(c, s, s')
  {
    if s'.reports != s.reports { assert Final(s'.reports) in s'.reports; }
  }

  lemma SeedStatTells(c: Config, s: State, choice: Choice)
    requires s.seed < |c.operands| && s.seedAt.SeedStat?
    ensures TellsAll(c, s, SeedNext(c, s, choice))
  {
    hide Render, HasChild, GiveUp, TellsAll;
    OperandTold(c, s, SeedNext(c, s, choice), [c.operands[s.seed]]);
  }

  lemma SeedCallTells(c: Config, s: State, choice: Choice)
    requires s.seed < |c.operands| && (s.seedAt.SeedUnlink? || s.seedAt.SeedRmdir?) && [c.operands[s.seed]] in c.kinds
    ensures TellsAll(c, s, SeedNext(c, s, choice))
  {
    hide Render, HasChild, GiveUp, TellsAll;
    OperandTold(c, s, SeedNext(c, s, choice), [c.operands[s.seed]]);
  }

  lemma SeedRefusedTells(c: Config, s: State, choice: Choice)
    requires s.seed < |c.operands| && s.seedAt.SeedRefused? && [c.operands[s.seed]] in c.kinds
    ensures TellsAll(c, s, SeedNext(c, s, choice))
  {
    hide Possible, Render, GiveUp, TellsAll;
    var p, line := [c.operands[s.seed]], c.operands[s.seed];
    var err := if choice.Answer? then choice.err else Some(OtherError(0));
    if GiveUp(c, s, p, line, err).Some? { GiveUpTells(c, s, p, line, err); }
    OperandTold(c, s, SeedNext(c, s, choice), p);
  }

  lemma SeedOpenTells(c: Config, s: State, choice: Choice)
    requires s.seed < |c.operands| && (s.seedAt.SeedReserve? || s.seedAt.SeedOpen? || s.seedAt.SeedSubmit?) && [c.operands[s.seed]] in c.kinds
    ensures TellsAll(c, s, SeedNext(c, s, choice))
  {
    hide Possible, Render, GiveUp, TellsAll;
    OperandTold(c, s, SeedNext(c, s, choice), [c.operands[s.seed]]);
  }

  lemma SeedTells(c: Config, s: State, choice: Choice)
    requires Family(c, s) && s.seed < |c.operands|
    ensures TellsAll(c, s, SeedNext(c, s, choice))
  {
    hide Family, FsOk, SeedNext, TellsAll;
    SeedInHand(c, s);
    match s.seedAt
    case SeedStat => SeedStatTells(c, s, choice);
    case SeedUnlink => SeedCallTells(c, s, choice);
    case SeedRmdir => SeedCallTells(c, s, choice);
    case SeedRefused(_) => SeedRefusedTells(c, s, choice);
    case _ => SeedOpenTells(c, s, choice);
  }

  lemma StepTells(c: Config, s: State, act: Action)
    requires Family(c, s) && AllTold(c, s)
    ensures AllTold(c, Step(c, s, act))
  {
    hide Family, AllTold, TellsAll, HandleEntry, AdvanceDir, SeedNext, Children;
    match act
    case Seed(choice) => if s.seed < |c.operands| { SeedTells(c, s, choice); ToldLater(c, s, Step(c, s, act)); }
    case Advance(p, choice) =>
      if p in s.nodes {
        if s.nodes[p].at.Handling? { EntryTells(c, s, p, choice); IsEntryStep(c, s, p, choice); } else { DirTells(c, s, p, choice); }
        ToldLater(c, s, Step(c, s, act));
      }
    case _ => SilentStep(c, s, act); ToldLater(c, s, Step(c, s, act));
  }

  lemma SilentStep(c: Config, s: State, act: Action)
    requires act.Acquire? || act.Climb?
    ensures TellsAll(c, s, Step(c, s, act))
  {
    hide Children;
  }

  lemma {:induction false} RunTells(c: Config, run: seq<State>)
    requires ValidConfig(c) && IsRun(c, run)
    ensures run != [] && AllTold(c, Final(run))
  {
    hide Family, PoolOk, Coverage, History, Step, AllTold;
    if |run| == 1 {
      InitialTells(c);
      assert Final(run) == Initial(c);
    } else {
      var act := RunBefore(c, run);
      RunTells(c, run[..|run| - 1]);
      RunInvariant(c, run[..|run| - 1]);
      StepTells(c, Final(run[..|run| - 1]), act);
    }
  }

  lemma InitialTells(c: Config)
    ensures AllTold(c, Initial(c))
  {
  }

  /**
   * Exit status 1 is given where it is due: a refused call other than an open, an operand
   * that is not there without -f, or anything left of an operand, unless an operand was
   * skipped in silence.
   */
  lemma TroubleIsReported(c: Config, run: seq<State>)
    requires ValidConfig(c) && IsRun(c, run) && Done(c, Final(run)) && Final(run).silent == {}
    requires
      || (exists f | f in Final(run).faults :: !f.call.DoOpen?)
      || (!c.force && exists o | o in c.operands :: [o] !in c.kinds)
      || !NothingLeft(c, Final(run))
    ensures ExitStatus(Final(run)) == 1
  {
    var s := Final(run);
    RunTells(c, run);
    if f :| f in s.faults && !f.call.DoOpen? {
      assert Told(c, s, f);
    } else if !c.force && exists o | o in c.operands :: [o] !in c.kinds {
      var o :| o in c.operands && [o] !in c.kinds;
      var i :| 0 <= i < |c.operands| && c.operands[i] == o;
      assert MissingTold(c, s, [c.operands[i]]);
    } else {
      var p :| p in s.fs && UnderOperand(c, p);
      WhatIsLeft(c, run, p);
    }
  }

  // ---- Away from the ceiling ----

  /** A step that is not the pool's answer that it is exhausted. */
  ghost predicate FollowsBelow(c: Config, s: State, s': State) {
    exists act :: s' == Step(c, s, act) && !(act.Advance? && act.choice == Limit(true))
  }

  /** A directory without a descriptor that a worker has still to take, or is about to make. */
  ghost predicate ParkedAt(s: State, p: Path)
    requires p in s.nodes
  {
    var n := s.nodes[p];
    && ((n.at.Unsubmitted? || n.at.Parked?) && !n.open ==> Refused(DoOpen, p) in s.faults)
    && (n.at.Handling? && n.at.entry == ChildNew(false) ==> Refused(DoOpen, p + [n.at.name]) in s.faults)
  }

  ghost predicate ParkedRefused(s: State) {
    forall p | p in s.nodes :: ParkedAt(s, p)
  }

  lemma ParkedSame(s: State, s': State, p: Path)
    requires ParkedRefused(s) && s.faults <= s'.faults
    requires p in s'.nodes ==> ParkedAt(s', p)
    requires forall q | q in s'.nodes && q != p :: q in s.nodes && s'.nodes[q] == s.nodes[q]
    ensures ParkedRefused(s')
  {
    forall q | q in s'.nodes ensures ParkedAt(s', q) { if q != p { assert ParkedAt(s, q); } }
  }

  /** A move to where nothing is parked. */
  lemma ParkedMoved(s: State, s': State, p: Path)
    requires ParkedRefused(s) && s.faults <= s'.faults && p in s.nodes && p in s'.nodes && s'.nodes == s.nodes[p := s'.nodes[p]]
    requires var at := s'.nodes[p].at; !at.Unsubmitted? && !at.Parked? && (at.Handling? ==> at.entry != ChildNew(false))
    ensures ParkedRefused(s')
  {
    hide ParkedRefused;
    ParkedSame(s, s', p);
  }

  lemma CallParked(c: Config, s: State, p: Path, choice: Choice)
    requires ParkedRefused(s) && p in s.nodes && s.nodes[p].at.Handling?
    requires s.nodes[p].at.entry.Stat? || s.nodes[p].at.entry.Unlink?
    ensures ParkedRefused(HandleEntry(c, s, p, choice))
  {
    hide ParkedRefused, ParkedAt, Possible, Render, GiveUp, Retryable;
    var s' := HandleEntry(c, s, p, choice);
    if s' != s { ParkedMoved(s, s', p); }
  }

  lemma EntryParked(c: Config, s: State, p: Path, choice: Choice)
    requires ParkedRefused(s) && Noticed(c, s) && p in s.nodes && s.nodes[p].at.Handling? && choice != Limit(true)
    requires var entry := s.nodes[p].at.entry; entry.CheckLimit? || entry.ChildReserved? || entry.ChildRefusing?
    ensures ParkedRefused(HandleEntry(c, s, p, choice))
  {
    assert NoticedAt(s, p);
    hide Noticed, NoticedAt, ParkedRefused, Possible, Render, GiveUp, Retryable;
    ParkedNow(s, p);
    RefusingRefused(s, p);
    ParkedSame(s, HandleEntry(c, s, p, choice), p);
  }

  lemma RefusingRefused(s: State, p: Path)
    requires p in s.nodes && NoticedAt(s, p) && s.nodes[p].at.Handling?
    ensures s.nodes[p].at.entry.ChildRefusing? ==> Refused(DoOpen, p + [s.nodes[p].at.name]) in s.faults
  {
  }

  lemma RefusedParked(c: Config, s: State, p: Path, choice: Choice)
    requires ParkedRefused(s) && p in s.nodes && s.nodes[p].at.Handling? && s.nodes[p].at.entry.ChildRefused?
    ensures ParkedRefused(HandleEntry(c, s, p, choice))
  {
    hide ParkedRefused, Possible, Render, GiveUp, Retryable;
    var child, line := p + [s.nodes[p].at.name], Render(p) + "/" + s.nodes[p].at.name;
    var err := if choice.Answer? then choice.err else Some(OtherError(0));
    if GiveUp(c, s, child, line, err).Some? {
      GiveUpKeeps(c, s, child, line, err);
      GiveUpFaults(c, s, child, line, err);
      ParkedSame(s, HandleEntry(c, s, p, choice), p);
    }
  }

  lemma GiveUpFaults(c: Config, s: State, p: Path, line: string, err: Option<Errno>)
    requires GiveUp(c, s, p, line, err).Some?
    ensures s.faults <= GiveUp(c, s, p, line, err).value.faults
  {
    hide Possible;
  }

  /** Two directories at once. */
  lemma PairParked(s: State, s': State, p: Path, child: Path)
    requires ParkedRefused(s) && s.faults <= s'.faults
    requires p in s'.nodes && child in s'.nodes && ParkedAt(s', p) && ParkedAt(s', child)
    requires forall q | q in s'.nodes && q != p && q != child :: q in s.nodes && s'.nodes[q] == s.nodes[q]
    ensures ParkedRefused(s')
  {
    forall q | q in s'.nodes ensures ParkedAt(s', q) { if q != p && q != child { assert ParkedAt(s, q); } }
  }

  lemma BirthParked(c: Config, s: State, p: Path, choice: Choice)
    requires ParkedRefused(s) && p in s.nodes && s.nodes[p].at.Handling? && s.nodes[p].at.entry.ChildNew?
    ensures ParkedRefused(HandleEntry(c, s, p, choice))
  {
    assert ParkedAt(s, p);
    hide Possible, Render, GiveUp, Retryable, ParkedRefused;
    var child := p + [s.nodes[p].at.name];
    assert child != p by { assert |child| != |p|; }
    PairParked(s, HandleEntry(c, s, p, choice), p, child);
  }

  lemma SubmitParked(c: Config, s: State, p: Path, choice: Choice)
    requires Family(c, s) && ParkedRefused(s) && p in s.nodes && s.nodes[p].at.Handling? && s.nodes[p].at.entry.ChildSubmit?
    ensures ParkedRefused(HandleEntry(c, s, p, choice))
  {
    hide Family, Possible, Render, GiveUp, Retryable, ParkedRefused;
    Unborn(c, s, p);
    var child := p + [s.nodes[p].at.name];
    assert child != p by { assert |child| != |p|; }
    ParkedNow(s, child);
    PairParked(s, HandleEntry(c, s, p, choice), p, child);
  }

  lemma ParkedNow(s: State, p: Path)
    requires ParkedRefused(s) && p in s.nodes
    ensures ParkedAt(s, p)
  {
  }

  lemma RefusingParked(c: Config, s: State, p: Path, choice: Choice)
    requires Noticed(c, s) && ParkedRefused(s) && p in s.nodes && s.nodes[p].at.Refusing?
    ensures ParkedRefused(AdvanceDir(c, s, p, choice))
  {
    assert NoticedAt(s, p);
    hide Noticed, ParkedRefused, GiveUp, Retryable, HandleEntry, Children;
    ParkedSame(s, AdvanceDir(c, s, p, choice), p);
  }

  lemma DirParked(c: Config, s: State, p: Path, choice: Choice)
    requires ParkedRefused(s) && p in s.nodes
    requires var at := s.nodes[p].at; !at.Handling? && !at.OpenFailed? && !at.Refusing? && !at.Dropping? && !at.Removed?
    ensures ParkedRefused(AdvanceDir(c, s, p, choice))
  {
    hide ParkedRefused, ParkedAt, Possible, Render, GiveUp, Retryable, HandleEntry, Children;
    var s' := AdvanceDir(c, s, p, choice);
    if s' != s { ParkedMoved(s, s', p); }
  }

  lemma FailedParked(c: Config, s: State, p: Path, choice: Choice)
    requires ParkedRefused(s) && p in s.nodes && s.nodes[p].at.OpenFailed?
    ensures ParkedRefused(AdvanceDir(c, s, p, choice))
  {
    hide ParkedRefused, Possible, Render, GiveUp, HandleEntry;
    var err := if choice.Answer? then choice.err else Some(OtherError(0));
    if GiveUp(c, s, p, Render(p), err).Some? {
      GiveUpKeeps(c, s, p, Render(p), err);
      GiveUpFaults(c, s, p, Render(p), err);
      ParkedSame(s, AdvanceDir(c, s, p, choice), p);
    }
  }

  lemma DeleteParked(s: State, p: Path)
    requires ParkedRefused(s)
    ensures ParkedRefused(Delete(s, p))
  {
    hide ParkedRefused, ParkedAt;
    ParkedSame(s, Delete(s, p), p);
  }

  lemma AdvanceParked(c: Config, s: State, p: Path, choice: Choice)
    requires Family(c, s) && Noticed(c, s) && ParkedRefused(s) && p in s.nodes && choice != Limit(true)
    ensures ParkedRefused(AdvanceDir(c, s, p, choice))
  {
    hide Family, Noticed, ParkedRefused, HandleEntry, Delete, Children, Possible, GiveUp, Render, DropReference;
    var at := s.nodes[p].at;
    if at.Handling? {
      if at.entry.ChildNew? { BirthParked(c, s, p, choice); }
      else if at.entry.ChildSubmit? { SubmitParked(c, s, p, choice); }
      else if at.entry.ChildRefused? { RefusedParked(c, s, p, choice); }
      else if at.entry.Stat? || at.entry.Unlink? { CallParked(c, s, p, choice); }
      else { EntryParked(c, s, p, choice); }
    }
    else if at.Dropping? || at.Removed? { DeleteParked(s, p); }
    else if at.OpenFailed? { FailedParked(c, s, p, choice); }
    else if at.Refusing? { RefusingParked(c, s, p, choice); }
    else { DirParked(c, s, p, choice); }
  }

  lemma SeedCallKeeps(c: Config, s: State, choice: Choice)
    requires s.seed < |c.operands| && !s.seedAt.SeedRefused? && !s.seedAt.SeedSubmit?
    ensures SeedNext(c, s, choice).nodes == s.nodes && s.faults <= SeedNext(c, s, choice).faults
  {
    hide Possible, Render, GiveUp;
  }

  lemma NodesSame(s: State, s': State)
    requires ParkedRefused(s) && s'.nodes == s.nodes && s.faults <= s'.faults
    ensures ParkedRefused(s')
  {
    forall p | p in s'.nodes ensures ParkedAt(s', p) { assert ParkedAt(s, p); }
  }

  lemma SeedParked(c: Config, s: State, choice: Choice)
    requires ParkedRefused(s) && s.seed < |c.operands| && !s.seedAt.SeedRefused?
    ensures ParkedRefused(SeedNext(c, s, choice))
  {
    if s.seedAt.SeedSubmit? {
      hide Possible, Render, GiveUp, ParkedRefused;
      ParkedSame(s, SeedNext(c, s, choice), [c.operands[s.seed]]);
    } else {
      hide SeedNext, ParkedRefused;
      SeedCallKeeps(c, s, choice);
      NodesSame(s, SeedNext(c, s, choice));
    }
  }

  lemma SeedRefusedParked(c: Config, s: State, choice: Choice)
    requires ParkedRefused(s) && s.seed < |c.operands| && s.seedAt.SeedRefused?
    ensures ParkedRefused(SeedNext(c, s, choice))
  {
    hide Possible, Render, GiveUp, ParkedRefused;
    var p, line := [c.operands[s.seed]], c.operands[s.seed];
    var err := if choice.Answer? then choice.err else Some(OtherError(0));
    if GiveUp(c, s, p, line, err).Some? {
      GiveUpKeeps(c, s, p, line, err);
      GiveUpFaults(c, s, p, line, err);
      if p in s.nodes { ParkedNow(s, p); }
      ParkedSame(s, SeedNext(c, s, choice), p);
    }
  }

  lemma AcquireParked(s: State, p: Path)
    requires ParkedRefused(s) && p in s.nodes
    ensures ParkedRefused(AcquireDir(s, p))
  {
    hide ParkedRefused, Children;
    ParkedNow(s, p);
    ParkedSame(s, AcquireDir(s, p), p);
  }

  lemma ClimbParked(s: State, p: Path)
    requires ParkedRefused(s) && p != []
    ensures ParkedRefused(ClimbFrom(s, p))
  {
    hide ParkedRefused;
    if Parent(p) in s.nodes { ParkedNow(s, Parent(p)); }
    ParkedSame(s, ClimbFrom(s, p), Parent(p));
  }

  lemma StepParked(c: Config, s: State, act: Action)
    requires Family(c, s) && Noticed(c, s) && ParkedRefused(s) && !(act.Advance? && act.choice == Limit(true))
    ensures ParkedRefused(Step(c, s, act))
  {
    hide Family, Noticed, ParkedRefused, AdvanceDir, AcquireDir, ClimbFrom, SeedNext;
    match act
    case Seed(choice) =>
      if s.seed < |c.operands| {
        if s.seedAt.SeedRefused? { SeedRefusedParked(c, s, choice); } else { SeedParked(c, s, choice); }
      }
    case Acquire(p) => if p in s.nodes { AcquireParked(s, p); }
    case Advance(p, choice) => if p in s.nodes { AdvanceParked(c, s, p, choice); }
    case Climb(p) => if p in s.climbing && p != [] { ClimbParked(s, p); }
  }

  /**
   * As long as the pool is never found exhausted, a directory is left to be opened later
   * only because its open was refused: every other child is opened from its parent.
   */
  lemma ParkedForCause(c: Config, run: seq<State>)
    requires ValidConfig(c) && IsRun(c, run)
    requires forall i | 0 <= i < |run| - 1 :: FollowsBelow(c, run[i], run[i + 1])
    ensures run != [] && ParkedRefused(Final(run))
    ensures forall p | p in Final(run).nodes && Final(run).nodes[p].at.Parked? :: Refused(DoOpen, p) in Final(run).faults
  {
    RunParked(c, run);
    RunInvariant(c, run);
    var s := Final(run);
    hide IsRun, PoolOk, Coverage, History;
    forall p | p in s.nodes && s.nodes[p].at.Parked? ensures Refused(DoOpen, p) in s.faults {
      assert NodeOk(c, s, p) && ParkedAt(s, p);
    }
  }

  lemma {:induction false} RunParked(c: Config, run: seq<State>)
    requires ValidConfig(c) && IsRun(c, run)
    requires forall i | 0 <= i < |run| - 1 :: FollowsBelow(c, run[i], run[i + 1])
    ensures run != [] && ParkedRefused(Final(run))
  {
    hide Family, PoolOk, Coverage, Untouched, Record, Noticed, Step, ParkedRefused;
    if |run| == 1 {
      InitialParked(c);
      assert Final(run) == Initial(c);
    } else {
      var before := run[..|run| - 1];
      var first := RunBefore(c, run);
      forall i | 0 <= i < |before| - 1 ensures FollowsBelow(c, before[i], before[i + 1]) { assert FollowsBelow(c, run[i], run[i + 1]); }
      RunParked(c, before);
      RunInvariant(c, before);
      assert FollowsBelow(c, run[|run| - 2], run[|run| - 1]);
      var act :| Final(run) == Step(c, Final(before), act) && !(act.Advance? && act.choice == Limit(true));
      StepParked(c, Final(before), act);
    }
  }

  lemma InitialParked(c: Config)
    ensures ParkedRefused(Initial(c))
  {
  }
}
