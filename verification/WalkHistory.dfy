/**
 * What a step of the walk leaves on record, and that the record is honest: each report
 * has its refused call or its surviving entry, each removal its printed line.
 */
module WalkHistory {
  import opened Common
  import opened Walk
  import opened WalkFamily

  /** What one step removed, which node it made, what it reported, which operand it skipped. */
  datatype Effect = Effect(gone: Option<Path>, made: Option<Path>, reported: Option<Report>, skipped: Option<Path>)

  /** The worker or the main thread has this path in hand. */
  ghost predicate InHands(c: Config, s: State, p: Path) {
    || (p in s.nodes && !s.nodes[p].at.Removed? && !s.nodes[p].at.Dropping?)
    || ByParent(s, p)
    || (s.seed < |c.operands| && p == [c.operands[s.seed]])
  }

  ghost predicate ByParent(s: State, p: Path) {
    |p| > 1 && Parent(p) in s.nodes && s.nodes[Parent(p)].at.Handling? && s.nodes[Parent(p)].at.name == Last(p)
  }

  ghost predicate Made(c: Config, s: State, p: Path) {
    ByParent(s, p) || (s.seed < |c.operands| && p == [c.operands[s.seed]])
  }

  /** A directory that is finished with although an entry of it survives. */
  ghost predicate LeftFull(s: State, p: Path) {
    && p in s.born && (p !in s.nodes || s.nodes[p].at.Removed?)
    && exists name :: p + [name] in s.fs && p + [name] !in s.nodes
  }

  /** The cause a report names is real. */
  ghost predicate Honest(c: Config, s: State, r: Report) {
    r.path != [] && match r.cause
    case Fault => FaultBehind(c, s, r)
    case StillFull => r.scope.Itself? && LeftFull(s, r.path)
    case NotRecursive => r.scope.Subtree? && PlainDirectory(c, r.path) && (c.dir ==> Full(c, r.path))
    case Missing => !c.force && |r.path| == 1 && r.path[0] in c.operands && r.path !in c.kinds
  }

  /** A directory operand without -r. */
  ghost predicate PlainDirectory(c: Config, p: Path) {
    !c.recursive && |p| == 1 && p in c.kinds && c.kinds[p].Dir?
  }

  /** The tree had something in it. */
  ghost predicate Full(c: Config, p: Path) {
    exists name :: p + [name] in c.kinds
  }

  /** The refused call a report of a fault is about; under -f a directory that would not open was not removable either. */
  ghost predicate FaultBehind(c: Config, s: State, r: Report) {
    match r.scope
    case Itself => Refused(DoUnlink, r.path) in s.faults || Refused(DoRmdir, r.path) in s.faults
    case Beneath(_) => Refused(DoRead, r.path) in s.faults
    case Subtree =>
      || Refused(DoStat, r.path) in s.faults
      || (Refused(DoOpen, r.path) in s.faults && (c.force ==> Refused(DoRmdir, r.path) in s.faults || Full(c, r.path)))
      || (PlainDirectory(c, r.path) && c.dir && Refused(DoRmdir, r.path) in s.faults)
  }

  ghost predicate MaySkip(c: Config) {
    c.force && c.recursive && !c.superuser
  }

  ghost predicate NoticedAt(s: State, p: Path)
    requires p in s.nodes
  {
    var at := s.nodes[p].at;
    && (at.OpenFailed? || at.Refusing? ==> Refused(DoOpen, p) in s.faults)
    && (at.Handling? && (at.entry.ChildRefused? || at.entry.ChildRefusing?) ==> Refused(DoOpen, p + [at.name]) in s.faults)
  }

  /** What a refused open is remembered by until it is reported. */
  ghost predicate Noticed(c: Config, s: State) {
    && (forall p | p in s.nodes :: NoticedAt(s, p))
    && (s.seed < |c.operands| && s.seedAt.SeedRefused? ==> Refused(DoOpen, [c.operands[s.seed]]) in s.faults)
    && (s.seed < |c.operands| && s.seedAt.SeedRmdir? ==> !c.recursive && c.dir)
    && (s.seed >= |c.operands| ==> s.seedAt.SeedStat?)
  }

  /** Operands the main thread has not come to are untouched. */
  ghost predicate Untouched(c: Config, s: State) {
    forall i | s.seed <= i < |c.operands| :: [c.operands[i]] in c.kinds ==> [c.operands[i]] in s.fs
  }

  /** What is over for a directory stays over: removed, given up, scanned, an entry handled. */
  ghost predicate NoReturn(at: At, at': At) {
    && (at.Removed? ==> at'.Removed?)
    && (at.Dropping? ==> at'.Dropping?)
    && (!Unscanned(at) ==> !Unscanned(at') && Names(at') <= Names(at))
  }

  ghost predicate Summary(c: Config, s: State, s': State, e: Effect) {
    && s'.fs == s.fs - AsSet(e.gone)
    && (e.gone.Some? ==> e.gone.value in s.fs && InHands(c, s, e.gone.value))
    && s'.removed == (if e.gone.Some? then s.removed + [e.gone.value] else s.removed)
    && s'.printed == (if e.gone.Some? && c.verbose then s.printed + [Render(e.gone.value)] else s.printed)
    && s'.born == s.born + AsSet(e.made)
    && (e.made.Some? ==> Made(c, s, e.made.value) && e.made.value !in s.born)
    && (forall q | q in s'.nodes :: q in s.nodes || e.made == Some(q))
    && (forall q | q in s'.nodes && q in s.nodes :: NoReturn(s.nodes[q].at, s'.nodes[q].at))
    && s'.reports == (if e.reported.Some? then s.reports + [e.reported.value] else s.reports)
    && (e.reported.Some? ==> Honest(c, s', e.reported.value))
    && s.faults <= s'.faults
    && s'.silent == s.silent + AsSet(e.skipped)
    && (e.skipped.Some? ==> Refused(DoStat, e.skipped.value) in s'.faults && |e.skipped.value| == 1 && MaySkip(c))
    && s.seed <= s'.seed
    && (e.gone.Some? && |e.gone.value| == 1 && e.gone.value !in s.nodes ==> s'.seed == s.seed + 1)
  }

  /** What is gone was removed, once, and lay under an operand. */
  ghost predicate Accounted(c: Config, s: State) {
    && (forall p | p in c.kinds :: p in s.fs || p in s.removed)
    && (forall p | p in s.removed :: p !in s.fs && p in c.kinds && p != [] && p[0] in c.operands)
    && (forall i, j | 0 <= i < j < |s.removed| :: s.removed[i] != s.removed[j])
  }

  /** Everything the run has recorded so far. */
  ghost predicate Record(c: Config, s: State) {
    && (forall r | r in s.reports :: Honest(c, s, r))
    && (forall o | o in s.silent :: Refused(DoStat, o) in s.faults && |o| == 1 && MaySkip(c))
    && (forall p | p in s.born :: p != [] && p[0] in c.operands)
    && Accounted(c, s)
    && s.printed == (if c.verbose then Lines(s.removed) else [])
  }

  ghost function Lines(paths: seq<Path>): (lines: seq<string>)
    ensures |lines| == |paths|
  {
    if paths == [] then [] else Lines(paths[..|paths| - 1]) + [Render(paths[|paths| - 1])]
  }

  lemma LinesAppend(paths: seq<Path>, p: Path)
    ensures Lines(paths + [p]) == Lines(paths) + [Render(p)]
  {
    assert (paths + [p])[..|paths|] == paths;
  }

  /** A report stays honest: what it says survives can no longer be reached. */
  lemma HonestKept(c: Config, s: State, s': State, e: Effect, r: Report)
    requires Family(c, s) && Summary(c, s, s', e) && Honest(c, s, r)
    requires forall p | p in s.born :: p != []
    ensures Honest(c, s', r)
  {
    if r.cause.StillFull? {
      var d := r.path;
      var name :| d + [name] in s.fs && d + [name] !in s.nodes;
      var child := d + [name];
      assert Parent(child) == d && Last(child) == name && |child| > 1;
      assert !ByParent(s, child);
      assert child in s'.fs && child !in s'.nodes;
    }
  }

  lemma HandsUnderOperand(c: Config, s: State, p: Path)
    requires Family(c, s) && Record(c, s) && (InHands(c, s, p) || Made(c, s, p))
    ensures p != [] && p[0] in c.operands
  {
    if ByParent(s, p) {
      assert Parent(p) in s.born && Parent(p)[0] == p[0];
    }
  }

  lemma ReportsKept(c: Config, s: State, s': State, e: Effect)
    requires Family(c, s) && Record(c, s) && Summary(c, s, s', e)
    ensures forall r | r in s'.reports :: Honest(c, s', r)
  {
    hide Family, Lines;
    forall r | r in s'.reports ensures Honest(c, s', r) {
      if r in s.reports { HonestKept(c, s, s', e, r); }
    }
  }

  lemma AccountedKept(c: Config, s: State, s': State, gone: Option<Path>)
    requires FsOk(c, s) && Accounted(c, s) && s'.fs == s.fs - AsSet(gone)
    requires gone.Some? ==> gone.value in s.fs && gone.value != [] && gone.value[0] in c.operands
    requires s'.removed == if gone.Some? then s.removed + [gone.value] else s.removed
    ensures Accounted(c, s')
  {
  }

  lemma RemovalsKept(c: Config, s: State, s': State, e: Effect)
    requires Family(c, s) && Record(c, s) && Summary(c, s, s', e)
    ensures Accounted(c, s') && s'.printed == (if c.verbose then Lines(s'.removed) else [])
  {
    if e.gone.Some? {
      HandsUnderOperand(c, s, e.gone.value);
      LinesAppend(s.removed, e.gone.value);
    }
    assert FsOk(c, s);
    hide Honest, Family, Made, InHands, Lines, Render, Accounted, FsOk;
    AccountedKept(c, s, s', e.gone);
  }

  lemma BirthsKept(c: Config, s: State, s': State, e: Effect)
    requires Family(c, s) && Record(c, s) && Summary(c, s, s', e)
    ensures forall o | o in s'.silent :: Refused(DoStat, o) in s'.faults && |o| == 1 && MaySkip(c)
    ensures forall p | p in s'.born :: p != [] && p[0] in c.operands
  {
    if e.made.Some? { HandsUnderOperand(c, s, e.made.value); }
    hide Honest, Family, Made, InHands, Lines, Render, Accounted;
  }

  lemma RecordKept(c: Config, s: State, s': State, e: Effect)
    requires Family(c, s) && Record(c, s) && Summary(c, s, s', e)
    ensures Record(c, s')
  {
    ReportsKept(c, s, s', e);
    RemovalsKept(c, s, s', e);
    BirthsKept(c, s, s', e);
    hide Family, Summary, Honest, Accounted, Lines;
  }

  lemma UntouchedKept(c: Config, s: State, s': State, e: Effect)
    requires Family(c, s) && Distinct(c) && Untouched(c, s) && Summary(c, s, s', e)
    ensures Untouched(c, s')
  {
    hide NodeOk, RefsOk, ClimbOk, Honest;
    forall i | s'.seed <= i < |c.operands| && [c.operands[i]] in c.kinds ensures [c.operands[i]] in s'.fs {
      var p := [c.operands[i]];
      assert p !in s.nodes && |p| == 1;
      assert InHands(c, s, p) ==> p[0] == c.operands[s.seed];
    }
  }

  // ---- Each kind of step ----

  const NOTHING := Effect(None, None, None, None)

  /** Nothing the record depends on went back: no node came, no removed directory moved. */
  ghost predicate Forward(s: State, s': State) {
    && (forall q | q in s'.nodes :: q in s.nodes)
    && (forall q | q in s'.nodes :: NoReturn(s.nodes[q].at, s'.nodes[q].at))
    && s.faults <= s'.faults && s.seed <= s'.seed && s'.born == s.born && s'.silent == s.silent
  }

  lemma NothingHappens(c: Config, s: State, s': State)
    requires Forward(s, s') && s'.fs == s.fs && s'.removed == s.removed && s'.printed == s.printed && s'.reports == s.reports
    ensures Summary(c, s, s', NOTHING)
  {
    hide InHands, Made, Honest, Render;
  }

  lemma RemovalHappens(c: Config, s: State, s': State, p: Path)
    requires Forward(s, s') && s'.reports == s.reports
    requires p in s.fs && InHands(c, s, p) && s'.fs == s.fs - {p} && s'.removed == s.removed + [p]
    requires s'.printed == if c.verbose then s.printed + [Render(p)] else s.printed
    requires |p| == 1 && p !in s.nodes ==> s'.seed == s.seed + 1
    ensures Summary(c, s, s', NOTHING.(gone := Some(p)))
  {
    hide InHands, Made, Honest, Render;
  }

  lemma ReportHappens(c: Config, s: State, s': State, r: Report)
    requires Forward(s, s') && s'.fs == s.fs && s'.removed == s.removed && s'.printed == s.printed
    requires s'.reports == s.reports + [r] && Honest(c, s', r)
    ensures Summary(c, s, s', NOTHING.(reported := Some(r)))
  {
    hide InHands, Made, Honest, Render;
  }

  lemma BirthHappens(c: Config, s: State, s': State, p: Path)
    requires forall q | q in s'.nodes :: q in s.nodes || q == p
    requires forall q | q in s'.nodes && q in s.nodes :: NoReturn(s.nodes[q].at, s'.nodes[q].at)
    requires s'.faults == s.faults && s.seed <= s'.seed && s'.silent == s.silent
    requires s'.fs == s.fs && s'.removed == s.removed && s'.printed == s.printed && s'.reports == s.reports
    requires s'.born == s.born + {p} && Made(c, s, p) && p !in s.born
    ensures Summary(c, s, s', NOTHING.(made := Some(p)))
  {
    hide InHands, Honest, Render;
  }

  /** A call refused and reported, whereupon the worker at `p` goes on to `at`. */
  lemma RefusalMoves(c: Config, s: State, p: Path, at: At, call: Call, err: Option<Errno>, r: Report)
    requires p in s.nodes && r.path != [] && Refusal(err) && r.cause.Fault? && NoReturn(s.nodes[p].at, at)
    requires (call.DoStat? && r.scope.Subtree?) || ((call.DoUnlink? || call.DoRmdir?) && r.scope.Itself?)
    ensures var s' := Moved(Reported(Noted(s, call, r.path, err), r.path, r.scope, r.cause), p, at);
      Summary(c, s, s', NOTHING.(reported := Some(r)))
  {
    hide Summary;
    ReportHappens(c, s, Moved(Reported(Noted(s, call, r.path, err), r.path, r.scope, r.cause), p, at), r);
  }

  lemma RemovalMoves(c: Config, s: State, p: Path, at: At, gone: Path, line: string)
    requires p in s.nodes && gone in s.fs && InHands(c, s, gone) && line == Render(gone)
    requires NoReturn(s.nodes[p].at, at) && (|gone| == 1 ==> gone in s.nodes)
    ensures Summary(c, s, Moved(Gone(c, s, gone, line), p, at), NOTHING.(gone := Some(gone)))
  {
    hide Summary, InHands, Render;
    RemovalHappens(c, s, Moved(Gone(c, s, gone, line), p, at), gone);
  }

  lemma FullBefore(c: Config, s: State, p: Path)
    requires FsOk(c, s) && HasChild(s.fs, p)
    ensures Full(c, p)
  {
  }

  /** Giving up on `q`, whose open was refused. */
  lemma GiveUpMoves(c: Config, s: State, p: Path, at: At, q: Path, line: string, err: Option<Errno>) returns (e: Effect)
    requires FsOk(c, s) && p in s.nodes && NoReturn(s.nodes[p].at, at)
    requires q != [] && Refused(DoOpen, q) in s.faults && InHands(c, s, q) && line == Render(q) && (|q| == 1 ==> q in s.nodes)
    requires GiveUp(c, s, q, line, err).Some?
    ensures Summary(c, s, Moved(GiveUp(c, s, q, line, err).value, p, at), e)
  {
    hide Summary, InHands, HasChild, Render;
    var s' := Moved(GiveUp(c, s, q, line, err).value, p, at);
    if c.force && err == None {
      e := NOTHING.(gone := Some(q));
      RemovalMoves(c, s, p, at, q, line);
    } else if c.force && err == Some(NoEntry) {
      e := NOTHING;
      NothingHappens(c, s, s');
    } else {
      e := NOTHING.(reported := Some(Report(q, Subtree, Fault)));
      GiveUpBlamed(c, s, p, at, q, line, err);
    }
  }

  lemma GiveUpBlamed(c: Config, s: State, p: Path, at: At, q: Path, line: string, err: Option<Errno>)
    requires FsOk(c, s) && p in s.nodes && NoReturn(s.nodes[p].at, at) && q != [] && Refused(DoOpen, q) in s.faults
    requires GiveUp(c, s, q, line, err).Some? && !(c.force && (err == None || err == Some(NoEntry)))
    ensures Summary(c, s, Moved(GiveUp(c, s, q, line, err).value, p, at), NOTHING.(reported := Some(Report(q, Subtree, Fault))))
  {
    hide Summary, HasChild, Full, Render;
    if HasChild(s.fs, q) { FullBefore(c, s, q); }
    ReportHappens(c, s, Moved(GiveUp(c, s, q, line, err).value, p, at), Report(q, Subtree, Fault));
  }

  lemma EntryLine(p: Path, name: Name)
    requires p != []
    ensures Render(p + [name]) == Render(p) + "/" + name
    ensures Parent(p + [name]) == p && Last(p + [name]) == name && |p + [name]| > 1
  {
    assert Parent(p + [name]) == p && Last(p + [name]) == name;
  }

  /** An entry in hand. */
  lemma EntryInHand(c: Config, s: State, p: Path)
    requires Family(c, s) && p in s.nodes && s.nodes[p].at.Handling? && !s.nodes[p].at.entry.ChildSubmit?
    ensures var child := p + [s.nodes[p].at.name];
      && Render(child) == Render(p) + "/" + s.nodes[p].at.name
      && ByParent(s, child) && child in s.fs && child !in s.born && |child| > 1
  {
    InHand(c, s, p);
    EntryLine(p, s.nodes[p].at.name);
    assert s.nodes[p].at.name in Names(s.nodes[p].at);
  }

  /** What a call on the entry may be put down to. */
  lemma EntryFacts(c: Config, s: State, p: Path)
    requires Family(c, s) && p in s.nodes && s.nodes[p].at.Handling? && !s.nodes[p].at.entry.ChildSubmit?
    ensures var child := p + [s.nodes[p].at.name];
      && Render(child) == Render(p) + "/" + s.nodes[p].at.name
      && InHands(c, s, child) && child in s.fs && |child| > 1
      && NoReturn(s.nodes[p].at, Scanning(s.nodes[p].at.unread))
  {
    EntryInHand(c, s, p);
    hide Family, Render, ByParent;
  }

  lemma EntryStatSummary(c: Config, s: State, p: Path, choice: Choice) returns (e: Effect)
    requires Family(c, s) && p in s.nodes && s.nodes[p].at.Handling? && s.nodes[p].at.entry.Stat?
    ensures Summary(c, s, HandleEntry(c, s, p, choice), e)
  {
    hide Family, Render, HasChild, InHands, Summary, GiveUp;
    EntryFacts(c, s, p);
    var s', child, at := HandleEntry(c, s, p, choice), p + [s.nodes[p].at.name], Scanning(s.nodes[p].at.unread);
    e := NOTHING;
    if s' != s && Refusal(choice.err) {
      var r := Report(child, Subtree, Fault);
      e := NOTHING.(reported := Some(r));
      hide Possible;
      RefusalMoves(c, s, p, at, DoStat, choice.err, r);
    } else {
      NothingHappens(c, s, s');
    }
  }

  lemma EntryUnlinkSummary(c: Config, s: State, p: Path, choice: Choice) returns (e: Effect)
    requires Family(c, s) && p in s.nodes && s.nodes[p].at.Handling? && s.nodes[p].at.entry.Unlink?
    ensures Summary(c, s, HandleEntry(c, s, p, choice), e)
  {
    hide Family, Render, HasChild, InHands, Summary, GiveUp;
    EntryFacts(c, s, p);
    var s', child, at := HandleEntry(c, s, p, choice), p + [s.nodes[p].at.name], Scanning(s.nodes[p].at.unread);
    e := NOTHING;
    if s' != s && Refusal(choice.err) {
      var r := Report(child, Itself, Fault);
      e := NOTHING.(reported := Some(r));
      RefusalMoves(c, s, p, at, DoUnlink, choice.err, r);
    } else if s' != s && choice.err == None {
      e := NOTHING.(gone := Some(child));
      RemovalMoves(c, s, p, at, child, Render(child));
    } else {
      NothingHappens(c, s, s');
    }
  }

  /** One directory moves on and the record stays. */
  lemma OneForward(s: State, s': State, p: Path)
    requires p in s.nodes && p in s'.nodes && s'.nodes == s.nodes[p := s'.nodes[p]] && NoReturn(s.nodes[p].at, s'.nodes[p].at)
    requires s.faults <= s'.faults && s'.seed == s.seed && s'.born == s.born && s'.silent == s.silent
    ensures Forward(s, s')
  {
  }

  lemma EntryOpenForward(c: Config, s: State, p: Path, choice: Choice)
    requires p in s.nodes && s.nodes[p].at.Handling?
    requires var entry := s.nodes[p].at.entry; entry.CheckLimit? || entry.ChildReserved? || entry.ChildRefusing?
    ensures var s' := HandleEntry(c, s, p, choice);
      Forward(s, s') && s'.fs == s.fs && s'.removed == s.removed && s'.printed == s.printed && s'.reports == s.reports
  {
    hide Render, Possible, GiveUp, Retryable, Forward;
    OneForward(s, HandleEntry(c, s, p, choice), p);
  }

  lemma EntryOpenSummary(c: Config, s: State, p: Path, choice: Choice) returns (e: Effect)
    requires p in s.nodes && s.nodes[p].at.Handling?
    requires var entry := s.nodes[p].at.entry; entry.CheckLimit? || entry.ChildReserved? || entry.ChildRefusing?
    ensures Summary(c, s, HandleEntry(c, s, p, choice), e)
  {
    hide HandleEntry, Summary, Forward;
    e := NOTHING;
    EntryOpenForward(c, s, p, choice);
    NothingHappens(c, s, HandleEntry(c, s, p, choice));
  }

  lemma EntrySubmitSummary(c: Config, s: State, p: Path, choice: Choice) returns (e: Effect)
    requires Family(c, s) && p in s.nodes && s.nodes[p].at.Handling? && s.nodes[p].at.entry.ChildSubmit?
    ensures Summary(c, s, HandleEntry(c, s, p, choice), e)
  {
    hide Family, Render, Summary, GiveUp, Possible, Forward;
    Unborn(c, s, p);
    SubmitForward(s, p, p + [s.nodes[p].at.name]);
    e := NOTHING;
    NothingHappens(c, s, HandleEntry(c, s, p, choice));
  }

  lemma SubmitForward(s: State, p: Path, child: Path)
    requires p in s.nodes && s.nodes[p].at.Handling? && child in s.nodes && s.nodes[child].at.Unsubmitted?
    ensures var s' := Moved(Moved(s, p, Scanning(s.nodes[p].at.unread)), child, if s.nodes[child].open then Queued else Parked);
      Forward(s, s')
  {
  }

  lemma TreeShrinks(c: Config, s: State)
    requires Family(c, s)
    ensures FsOk(c, s)
  {
  }

  lemma RefusedInHand(c: Config, s: State, p: Path)
    requires Family(c, s) && Noticed(c, s) && p in s.nodes && s.nodes[p].at.Handling? && s.nodes[p].at.entry.ChildRefused?
    ensures var child := p + [s.nodes[p].at.name];
      && Render(child) == Render(p) + "/" + s.nodes[p].at.name && |child| > 1
      && Refused(DoOpen, child) in s.faults && InHands(c, s, child)
  {
    EntryInHand(c, s, p);
    hide Family, Render;
  }

  lemma EntryRefusedSummary(c: Config, s: State, p: Path, choice: Choice) returns (e: Effect)
    requires Family(c, s) && Noticed(c, s) && p in s.nodes && s.nodes[p].at.Handling? && s.nodes[p].at.entry.ChildRefused?
    ensures Summary(c, s, HandleEntry(c, s, p, choice), e)
  {
    hide Family, FsOk, Render, InHands, Noticed, Summary, GiveUp;
    RefusedInHand(c, s, p);
    TreeShrinks(c, s);
    var child, err := p + [s.nodes[p].at.name], if choice.Answer? then choice.err else Some(OtherError(0));
    var after := GiveUp(c, s, child, Render(child), err);
    if after.Some? { GiveUpKeeps(c, s, child, Render(child), err); }
    assert HandleEntry(c, s, p, choice) == if after.None? then s else Moved(after.value, p, Scanning(s.nodes[p].at.unread));
    hide HandleEntry;
    if after.Some? {
      e := GiveUpMoves(c, s, p, Scanning(s.nodes[p].at.unread), child, Render(child), err);
    } else {
      e := NOTHING;
      NothingHappens(c, s, s);
    }
  }

  lemma MadeInHand(c: Config, s: State, p: Path)
    requires Family(c, s) && p in s.nodes && s.nodes[p].at.Handling? && !s.nodes[p].at.entry.ChildSubmit?
    ensures var child := p + [s.nodes[p].at.name]; Made(c, s, child) && child !in s.born && child !in s.nodes
  {
    hide FsOk, NodeOk, RefsOk, ClimbOk, SeedOk, Render, ByParent;
    EntryInHand(c, s, p);
  }

  lemma EntryNewSummary(c: Config, s: State, p: Path, choice: Choice) returns (e: Effect)
    requires Family(c, s) && p in s.nodes && s.nodes[p].at.Handling? && s.nodes[p].at.entry.ChildNew?
    ensures Summary(c, s, HandleEntry(c, s, p, choice), e)
  {
    hide Family, Render, ByParent, Made, Summary, GiveUp, Possible, Retryable;
    MadeInHand(c, s, p);
    e := NOTHING.(made := Some(p + [s.nodes[p].at.name]));
    BirthHappens(c, s, HandleEntry(c, s, p, choice), p + [s.nodes[p].at.name]);
  }

  lemma OpenFailedSummary(c: Config, s: State, p: Path, choice: Choice) returns (e: Effect)
    requires FsOk(c, s) && p != [] && Noticed(c, s) && p in s.nodes && s.nodes[p].at.OpenFailed?
    ensures Summary(c, s, AdvanceDir(c, s, p, choice), e)
  {
    hide Render, ByParent, Summary, GiveUp, HandleEntry;
    var err := if choice.Answer? then choice.err else Some(OtherError(0));
    if GiveUp(c, s, p, Render(p), err).Some? {
      e := GiveUpMoves(c, s, p, Dropping, p, Render(p), err);
    } else {
      e := NOTHING;
      NothingHappens(c, s, s);
    }
  }

  lemma OpeningSummary(c: Config, s: State, p: Path, choice: Choice)
    requires p in s.nodes
    requires var at := s.nodes[p].at; at.Opening? || at.Reserved? || at.Refusing?
    ensures Summary(c, s, AdvanceDir(c, s, p, choice), NOTHING)
  {
    hide Render, Possible, Children, GiveUp, HandleEntry, Retryable, Summary;
    NothingHappens(c, s, AdvanceDir(c, s, p, choice));
  }

  lemma ClosingSummary(c: Config, s: State, p: Path, choice: Choice)
    requires p in s.nodes && (s.nodes[p].at.Closing? || s.nodes[p].at.ScanDone?)
    ensures Summary(c, s, AdvanceDir(c, s, p, choice), NOTHING)
  {
    hide Render, Possible, Children, GiveUp, HandleEntry, Retryable, Summary;
    NothingHappens(c, s, AdvanceDir(c, s, p, choice));
  }

  lemma ScanSummary(c: Config, s: State, p: Path, choice: Choice) returns (e: Effect)
    requires p != [] && p in s.nodes
    requires s.nodes[p].at.Scanning?
    ensures Summary(c, s, AdvanceDir(c, s, p, choice), e)
  {
    hide Render, Possible, Children, GiveUp, HandleEntry, Retryable, Summary;
    var s' := AdvanceDir(c, s, p, choice);
    if s'.reports != s.reports {
      e := NOTHING.(reported := Some(s'.reports[|s.reports|]));
      ReportHappens(c, s, s', s'.reports[|s.reports|]);
    } else {
      e := NOTHING;
      NothingHappens(c, s, s');
    }
  }

  lemma RemovingSummary(c: Config, s: State, p: Path, choice: Choice) returns (e: Effect)
    requires Family(c, s) && p in s.nodes && s.nodes[p].at.Removing?
    ensures Summary(c, s, AdvanceDir(c, s, p, choice), e)
  {
    hide Family, Render, Summary, HasChild;
    InHand(c, s, p);
    var s' := AdvanceDir(c, s, p, choice);
    e := NOTHING;
    if s' == s { NothingHappens(c, s, s'); }
    else if choice.err == Some(NotEmpty) { e := FullSummary(c, s, p); }
    else if choice.err == Some(NoEntry) {
      NothingHappens(c, s, s');
    } else if choice.err == None {
      e := NOTHING.(gone := Some(p));
      RemovalMoves(c, s, p, Removed, p, Render(p));
    } else {
      var r := Report(p, Itself, Fault);
      e := NOTHING.(reported := Some(r));
      RefusalMoves(c, s, p, Removed, DoRmdir, choice.err, r);
    }
  }

  lemma FullSummary(c: Config, s: State, p: Path) returns (e: Effect)
    requires Family(c, s) && p in s.nodes && s.nodes[p].at.Removing? && HasChild(s.fs, p)
    ensures Summary(c, s, Moved(Reported(s, p, Itself, StillFull), p, Removed), e)
  {
    hide Family, Summary, HasChild, Render;
    FullDirectory(c, s, p);
    InHand(c, s, p);
    var r, s' := Report(p, Itself, StillFull), Moved(Reported(s, p, Itself, StillFull), p, Removed);
    e := NOTHING.(reported := Some(r));
    var name :| p + [name] in s.fs && p + [name] !in s.nodes;
    assert p + [name] in s'.fs && p + [name] !in s'.nodes by { assert |p + [name]| != |p|; }
    ReportHappens(c, s, s', r);
  }

  /** No entry of a directory whose count has come to zero has a node. */
  lemma FullDirectory(c: Config, s: State, p: Path)
    requires Family(c, s) && p in s.nodes && s.nodes[p].at.Removing? && HasChild(s.fs, p)
    ensures exists name :: p + [name] in s.fs && p + [name] !in s.nodes
  {
    assert RefsOk(s, p) && NodeOk(c, s, p);
    var name :| p + [name] in s.fs;
    assert Parent(p + [name]) == p;
    assert p + [name] in s.nodes ==> p + [name] in Claims(s, p);
  }

  lemma AdvanceSummary(c: Config, s: State, p: Path, choice: Choice) returns (e: Effect)
    requires Family(c, s) && Noticed(c, s) && p in s.nodes
    ensures Summary(c, s, AdvanceDir(c, s, p, choice), e)
  {
    hide Family, FsOk, Noticed, Summary, HandleEntry, DropReference, GiveUp, Children, Possible, Render;
    NonEmpty(c, s, p);
    var at := s.nodes[p].at;
    if at.Handling? {
      if at.entry.Stat? { e := EntryStatSummary(c, s, p, choice); }
      else if at.entry.Unlink? { e := EntryUnlinkSummary(c, s, p, choice); }
      else if at.entry.ChildRefused? { e := EntryRefusedSummary(c, s, p, choice); }
      else if at.entry.ChildNew? { e := EntryNewSummary(c, s, p, choice); }
      else if at.entry.ChildSubmit? { e := EntrySubmitSummary(c, s, p, choice); }
      else { e := EntryOpenSummary(c, s, p, choice); }
    }
    else if at.OpenFailed? { TreeShrinks(c, s); e := OpenFailedSummary(c, s, p, choice); }
    else if at.Removing? { e := RemovingSummary(c, s, p, choice); }
    else if at.Opening? || at.Reserved? || at.Refusing? { e := NOTHING; OpeningSummary(c, s, p, choice); }
    else if at.Scanning? { e := ScanSummary(c, s, p, choice); }
    else if at.Closing? || at.ScanDone? { e := NOTHING; ClosingSummary(c, s, p, choice); }
    else { e := NOTHING; NothingHappens(c, s, AdvanceDir(c, s, p, choice)); }
  }

  lemma RenderOperand(name: Name)
    ensures Render([name]) == name
  {
  }

  lemma SeedCallSummary(c: Config, s: State, choice: Choice) returns (e: Effect)
    requires Family(c, s) && Noticed(c, s) && s.seed < |c.operands|
    requires s.seedAt.SeedUnlink? || s.seedAt.SeedRmdir?
    ensures Summary(c, s, SeedNext(c, s, choice), e)
  {
    hide Family, Noticed, FsOk, HasChild, Render, Summary, GiveUp;
    SeedInHand(c, s);
    var s', p := SeedNext(c, s, choice), [c.operands[s.seed]];
    RenderOperand(c.operands[s.seed]);
    if s'.reports != s.reports {
      e := NOTHING.(reported := Some(s'.reports[|s.reports|]));
      SeedReport(c, s, choice);
    } else if s'.fs != s.fs {
      e := NOTHING.(gone := Some(p));
      RemovalHappens(c, s, s', p);
    } else {
      e := NOTHING;
      NothingHappens(c, s, s');
    }
  }

  lemma SeedRefusedSummary(c: Config, s: State, choice: Choice) returns (e: Effect)
    requires Family(c, s) && Noticed(c, s) && s.seed < |c.operands| && s.seedAt.SeedRefused?
    ensures Summary(c, s, SeedNext(c, s, choice), e)
  {
    hide Family, Noticed, FsOk, HasChild, Render, Summary;
    SeedInHand(c, s);
    var s', p := SeedNext(c, s, choice), [c.operands[s.seed]];
    RenderOperand(c.operands[s.seed]);
    if s'.reports != s.reports {
      e := NOTHING.(reported := Some(s'.reports[|s.reports|]));
      SeedRefusedReport(c, s, choice);
    } else if s'.fs != s.fs {
      e := NOTHING.(gone := Some(p));
      RemovalHappens(c, s, s', p);
    } else {
      e := NOTHING;
      NothingHappens(c, s, s');
    }
  }

  lemma SeedRefusedReport(c: Config, s: State, choice: Choice)
    requires FsOk(c, s) && Noticed(c, s) && s.seed < |c.operands| && s.seedAt.SeedRefused?
    requires SeedNext(c, s, choice).reports != s.reports
    ensures Summary(c, s, SeedNext(c, s, choice), NOTHING.(reported := Some(SeedNext(c, s, choice).reports[|s.reports|])))
  {
    hide HasChild, Full, Render, Summary;
    var s', p := SeedNext(c, s, choice), [c.operands[s.seed]];
    if HasChild(s.fs, p) { FullBefore(c, s, p); }
    ReportHappens(c, s, s', s'.reports[|s.reports|]);
  }

  lemma SeedReport(c: Config, s: State, choice: Choice)
    requires FsOk(c, s) && Noticed(c, s) && s.seed < |c.operands| && SeedAtOk(c, s, [c.operands[s.seed]])
    requires s.seedAt.SeedUnlink? || s.seedAt.SeedRmdir?
    requires SeedNext(c, s, choice).reports != s.reports
    ensures Summary(c, s, SeedNext(c, s, choice), NOTHING.(reported := Some(SeedNext(c, s, choice).reports[|s.reports|])))
  {
    hide HasChild, Full, Render, Summary;
    var s', p := SeedNext(c, s, choice), [c.operands[s.seed]];
    if HasChild(s.fs, p) { FullBefore(c, s, p); }
    ReportHappens(c, s, s', s'.reports[|s.reports|]);
  }

  lemma SeedStatSummary(c: Config, s: State, choice: Choice) returns (e: Effect)
    requires Untouched(c, s) && s.seed < |c.operands| && s.seedAt.SeedStat?
    ensures Summary(c, s, SeedNext(c, s, choice), e)
  {
    var s', p := SeedNext(c, s, choice), [c.operands[s.seed]];
    var err := if choice.Answer? then choice.err else Some(OtherError(0));
    assert p in c.kinds ==> p in s.fs;
    hide Untouched, HasChild, Render, GiveUp;
    if s'.reports != s.reports { e := NOTHING.(reported := Some(s'.reports[|s.reports|])); }
    else if s'.seed != s.seed && Refusal(err) { e := NOTHING.(skipped := Some(p)); }
    else { e := NOTHING; }
  }

  lemma SeedOpenSummary(c: Config, s: State, choice: Choice) returns (e: Effect)
    requires s.seed < |c.operands| && (s.seedAt.SeedReserve? || s.seedAt.SeedOpen?)
    ensures Summary(c, s, SeedNext(c, s, choice), e)
  {
    hide Summary, Possible, GiveUp;
    e := NOTHING;
    NothingHappens(c, s, SeedNext(c, s, choice));
  }

  lemma SeedSubmitSummary(c: Config, s: State, choice: Choice) returns (e: Effect)
    requires Family(c, s) && s.seed < |c.operands| && s.seedAt.SeedSubmit?
    ensures Summary(c, s, SeedNext(c, s, choice), e)
  {
    var p := [c.operands[s.seed]];
    assert p !in s.born && p !in s.nodes;
    assert Made(c, s, p);
    hide Family, Summary, Possible, Made, GiveUp;
    e := NOTHING.(made := Some(p));
    BirthHappens(c, s, SeedNext(c, s, choice), p);
  }

  lemma SeedSummary(c: Config, s: State, choice: Choice) returns (e: Effect)
    requires Family(c, s) && Noticed(c, s) && Untouched(c, s) && s.seed < |c.operands|
    ensures Summary(c, s, SeedNext(c, s, choice), e)
  {
    hide Family, Noticed, Untouched, Summary, SeedNext;
    if s.seedAt.SeedStat? { e := SeedStatSummary(c, s, choice); }
    else if s.seedAt.SeedUnlink? || s.seedAt.SeedRmdir? { e := SeedCallSummary(c, s, choice); }
    else if s.seedAt.SeedRefused? { e := SeedRefusedSummary(c, s, choice); }
    else if s.seedAt.SeedSubmit? { e := SeedSubmitSummary(c, s, choice); }
    else { e := SeedOpenSummary(c, s, choice); }
  }

  lemma StepSummary(c: Config, s: State, act: Action) returns (e: Effect)
    requires Family(c, s) && Noticed(c, s) && Untouched(c, s)
    ensures Summary(c, s, Step(c, s, act), e)
  {
    hide Family, Noticed, Untouched, AdvanceDir, SeedNext, Children, Render, Summary;
    match act
    case Seed(choice) =>
      if s.seed < |c.operands| { e := SeedSummary(c, s, choice); }
      else { e := NOTHING; NothingHappens(c, s, s); }
    case Acquire(p) => e := NOTHING; NothingHappens(c, s, Step(c, s, act));
    case Advance(p, choice) =>
      if p in s.nodes { e := AdvanceSummary(c, s, p, choice); }
      else { e := NOTHING; NothingHappens(c, s, s); }
    case Climb(p) =>
      e := NOTHING;
      if p in s.climbing && p != [] { ClimbSummary(c, s, p); } else { NothingHappens(c, s, s); }
  }

  lemma ClimbSummary(c: Config, s: State, p: Path)
    requires Family(c, s) && p in s.climbing && p != []
    ensures Summary(c, s, ClimbFrom(s, p), NOTHING)
  {
    hide Family, Claims, Summary;
    ClimbCount(c, s, p);
    ClimbForward(s, p);
    hide Forward;
    NothingHappens(c, s, ClimbFrom(s, p));
  }

  lemma ClimbForward(s: State, p: Path)
    requires p != [] && Parent(p) in s.nodes && Scanned(s.nodes[Parent(p)].at)
    requires s.nodes[Parent(p)].refs == 1 ==> s.nodes[Parent(p)].at.Waiting?
    ensures Forward(s, ClimbFrom(s, p))
  {
  }

  // ---- Refusals are noticed ----

  lemma NoticedMoved(c: Config, s: State, s': State, p: Path)
    requires Noticed(c, s) && p in s'.nodes && s'.nodes == s.nodes[p := s'.nodes[p]] && NoticedAt(s', p)
    requires s.faults <= s'.faults && s'.seed == s.seed && s'.seedAt == s.seedAt
    ensures Noticed(c, s')
  {
    forall q | q in s'.nodes ensures NoticedAt(s', q) { assert q in s.nodes ==> NoticedAt(s, q); }
  }

  lemma GiveUpNotes(c: Config, s: State, p: Path, line: string, err: Option<Errno>)
    requires GiveUp(c, s, p, line, err).Some?
    ensures s.faults <= GiveUp(c, s, p, line, err).value.faults
  {
    hide Possible;
  }

  lemma EntryNoticed(c: Config, s: State, p: Path, choice: Choice)
    requires Noticed(c, s) && p in s.nodes && s.nodes[p].at.Handling?
    requires var entry := s.nodes[p].at.entry; entry.Stat? || entry.Unlink? || entry.CheckLimit?
    ensures Noticed(c, HandleEntry(c, s, p, choice))
  {
    hide Noticed, Possible, Render, GiveUp;
    var s' := HandleEntry(c, s, p, choice);
    if s' != s { NoticedMoved(c, s, s', p); }
  }

  /** An open of what is there fails only by being refused. */
  lemma RefusedOpen(c: Config, fs: set<Path>, p: Path, err: Option<Errno>)
    requires Possible(c, fs, DoOpen, p, err) && err.Some? && p in fs
    ensures Refusal(err)
  {
  }

  lemma EntryReservedNoticed(c: Config, s: State, p: Path, choice: Choice)
    requires Family(c, s) && Noticed(c, s) && p in s.nodes && s.nodes[p].at.Handling? && s.nodes[p].at.entry.ChildReserved?
    ensures Noticed(c, HandleEntry(c, s, p, choice))
  {
    EntryInHand(c, s, p);
    hide Family, Noticed, Possible, Render, ByParent, GiveUp;
    var s', child := HandleEntry(c, s, p, choice), p + [s.nodes[p].at.name];
    if s' != s {
      if choice.err.Some? { RefusedOpen(c, s.fs, child, choice.err); }
      NoticedMoved(c, s, s', p);
    }
  }

  lemma NoticedThere(c: Config, s: State, p: Path)
    requires Noticed(c, s) && p in s.nodes
    ensures NoticedAt(s, p)
  {
  }

  lemma EntryRefusedNoticed(c: Config, s: State, p: Path, choice: Choice)
    requires Noticed(c, s) && p in s.nodes && s.nodes[p].at.Handling?
    requires var entry := s.nodes[p].at.entry; entry.ChildRefusing? || entry.ChildRefused?
    ensures Noticed(c, HandleEntry(c, s, p, choice))
  {
    NoticedThere(c, s, p);
    hide Noticed, GiveUp, Render, Retryable;
    var s', name := HandleEntry(c, s, p, choice), s.nodes[p].at.name;
    var err, line := if choice.Answer? then choice.err else Some(OtherError(0)), Render(p) + "/" + name;
    if GiveUp(c, s, p + [name], line, err).Some? {
      GiveUpNotes(c, s, p + [name], line, err);
      GiveUpKeeps(c, s, p + [name], line, err);
    }
    if s' != s { NoticedMoved(c, s, s', p); }
  }

  lemma EntryNodeNoticed(c: Config, s: State, p: Path, choice: Choice)
    requires Family(c, s) && Noticed(c, s) && p in s.nodes && s.nodes[p].at.Handling?
    requires s.nodes[p].at.entry.ChildNew? || s.nodes[p].at.entry.ChildSubmit?
    ensures Noticed(c, HandleEntry(c, s, p, choice))
  {
    hide Family, Noticed, Render;
    var n, child := s.nodes[p], p + [s.nodes[p].at.name];
    assert child != p by { assert |child| != |p|; }
    if n.at.entry.ChildNew? {
      var s1 := Put(s, p, n.(refs := n.refs + 1, at := Handling(n.at.unread, n.at.name, ChildSubmit)));
      NoticedMoved(c, s, s1, p);
      NoticedMoved(c, s1, HandleEntry(c, s, p, choice), child);
    } else {
      Unborn(c, s, p);
      var s1 := Moved(s, p, Scanning(n.at.unread));
      NoticedMoved(c, s, s1, p);
      NoticedMoved(c, s1, HandleEntry(c, s, p, choice), child);
    }
  }

  lemma OpenFailedNoticed(c: Config, s: State, p: Path, choice: Choice)
    requires Noticed(c, s) && p in s.nodes && s.nodes[p].at.OpenFailed?
    ensures Noticed(c, AdvanceDir(c, s, p, choice))
  {
    hide Noticed, GiveUp, Render, HandleEntry;
    var s' := AdvanceDir(c, s, p, choice);
    var err := if choice.Answer? then choice.err else Some(OtherError(0));
    if GiveUp(c, s, p, Render(p), err).Some? {
      GiveUpNotes(c, s, p, Render(p), err);
      GiveUpKeeps(c, s, p, Render(p), err);
    }
    if s' != s { NoticedMoved(c, s, s', p); }
  }

  lemma ReservedNoticed(c: Config, s: State, p: Path, choice: Choice)
    requires Family(c, s) && Noticed(c, s) && p in s.nodes && s.nodes[p].at.Reserved?
    ensures Noticed(c, AdvanceDir(c, s, p, choice))
  {
    assert p in s.fs by { InHand(c, s, p); }
    hide Family, Noticed, HandleEntry, GiveUp, Possible, Children, Retryable, Render;
    var s' := AdvanceDir(c, s, p, choice);
    if s' != s {
      if choice.err.Some? { RefusedOpen(c, s.fs, p, choice.err); }
      NoticedMoved(c, s, s', p);
    }
  }

  lemma DirNoticed(c: Config, s: State, p: Path, choice: Choice)
    requires Noticed(c, s) && p in s.nodes
    requires var at := s.nodes[p].at; !at.Handling? && !at.OpenFailed? && !at.Dropping? && !at.Removed? && !at.Reserved?
    ensures Noticed(c, AdvanceDir(c, s, p, choice))
  {
    NoticedThere(c, s, p);
    hide Noticed, GiveUp, Render, HandleEntry, Possible, Children, Retryable;
    var s' := AdvanceDir(c, s, p, choice);
    if s' != s { NoticedMoved(c, s, s', p); }
  }

  lemma AdvanceNoticed(c: Config, s: State, p: Path, choice: Choice)
    requires Family(c, s) && Noticed(c, s) && p in s.nodes
    ensures Noticed(c, AdvanceDir(c, s, p, choice))
  {
    hide Family, HandleEntry, GiveUp, Children, Possible, Render, DropReference, Retryable;
    var at := s.nodes[p].at;
    if at.Dropping? || at.Removed? {
      DeleteNoticed(c, s, p);
    } else {
      hide Noticed;
      if at.Handling? {
        if at.entry.ChildNew? || at.entry.ChildSubmit? { EntryNodeNoticed(c, s, p, choice); }
        else if at.entry.ChildRefusing? || at.entry.ChildRefused? { EntryRefusedNoticed(c, s, p, choice); }
        else if at.entry.ChildReserved? { EntryReservedNoticed(c, s, p, choice); }
        else { EntryNoticed(c, s, p, choice); }
      } else if at.OpenFailed? { OpenFailedNoticed(c, s, p, choice); }
      else if at.Reserved? { ReservedNoticed(c, s, p, choice); }
      else { DirNoticed(c, s, p, choice); }
    }
  }

  lemma DeleteNoticed(c: Config, s: State, p: Path)
    requires Noticed(c, s)
    ensures Noticed(c, Delete(s, p))
  {
    forall q | q in Delete(s, p).nodes ensures NoticedAt(Delete(s, p), q) { assert NoticedAt(s, q); }
  }

  lemma SeedNoticed(c: Config, s: State, choice: Choice)
    requires Family(c, s) && Noticed(c, s) && s.seed < |c.operands|
    ensures Noticed(c, SeedNext(c, s, choice))
  {
    SeedInHand(c, s);
    hide Family, Noticed, SeedNext, FsOk;
    if s.seedAt.SeedRefused? { SeedRefusedNoticed(c, s, choice); }
    else if s.seedAt.SeedSubmit? { SeedSubmitNoticed(c, s, choice); }
    else { SeedCallNoticed(c, s, choice); }
  }

  lemma NoticedSeed(c: Config, s: State, s': State)
    requires Noticed(c, s) && s'.nodes == s.nodes && s.faults <= s'.faults
    requires s'.seed < |c.operands| ==>
      (s'.seedAt.SeedRefused? ==> Refused(DoOpen, [c.operands[s'.seed]]) in s'.faults)
      && (s'.seedAt.SeedRmdir? ==> !c.recursive && c.dir)
    requires s'.seed >= |c.operands| ==> s'.seedAt.SeedStat?
    ensures Noticed(c, s')
  {
    forall q | q in s'.nodes ensures NoticedAt(s', q) { assert NoticedAt(s, q); }
  }

  lemma SeedCallNoticed(c: Config, s: State, choice: Choice)
    requires Noticed(c, s) && s.seed < |c.operands| && SeedAtOk(c, s, [c.operands[s.seed]])
    requires !s.seedAt.SeedSubmit? && !s.seedAt.SeedRefused?
    ensures Noticed(c, SeedNext(c, s, choice))
  {
    if s.seedAt.SeedRmdir? { assert !c.recursive && c.dir; }
    hide Noticed, Render, HasChild, GiveUp;
    NoticedSeed(c, s, SeedNext(c, s, choice));
  }

  lemma SeedRefusedNoticed(c: Config, s: State, choice: Choice)
    requires Noticed(c, s) && s.seed < |c.operands| && s.seedAt.SeedRefused?
    ensures Noticed(c, SeedNext(c, s, choice))
  {
    var p, line := [c.operands[s.seed]], c.operands[s.seed];
    var err := if choice.Answer? then choice.err else Some(OtherError(0));
    assert Refused(DoOpen, p) in s.faults;
    hide Noticed, GiveUp;
    if GiveUp(c, s, p, line, err).Some? {
      GiveUpNotes(c, s, p, line, err);
      GiveUpKeeps(c, s, p, line, err);
    }
    NoticedSeed(c, s, SeedNext(c, s, choice));
  }

  lemma SeedSubmitNoticed(c: Config, s: State, choice: Choice)
    requires Noticed(c, s) && s.seed < |c.operands| && s.seedAt.SeedSubmit?
    ensures Noticed(c, SeedNext(c, s, choice))
  {
    var s' := SeedNext(c, s, choice);
    forall q | q in s'.nodes ensures NoticedAt(s', q) { assert q in s.nodes ==> NoticedAt(s, q); }
  }

  lemma StepNoticed(c: Config, s: State, act: Action)
    requires Family(c, s) && Noticed(c, s)
    ensures Noticed(c, Step(c, s, act))
  {
    hide Family, Noticed, AdvanceDir, SeedNext, Children;
    match act
    case Seed(choice) => if s.seed < |c.operands| { SeedNoticed(c, s, choice); }
    case Acquire(p) => if p in s.nodes && AcquireDir(s, p) != s { NoticedMoved(c, s, AcquireDir(s, p), p); }
    case Advance(p, choice) => if p in s.nodes { AdvanceNoticed(c, s, p, choice); }
    case Climb(p) => if p in s.climbing && p != [] { ClimbNoticed(c, s, p); }
  }

  lemma ClimbNoticed(c: Config, s: State, p: Path)
    requires Family(c, s) && Noticed(c, s) && p in s.climbing && p != []
    ensures Noticed(c, ClimbFrom(s, p))
  {
    ClimbCount(c, s, p);
    NoticedThere(c, s, Parent(p));
    assert Noticed(c, s.(climbing := s.climbing - {p})) by {
      forall q | q in s.nodes ensures NoticedAt(s.(climbing := s.climbing - {p}), q) { assert NoticedAt(s, q); }
    }
    hide Family, Noticed, Claims;
    NoticedMoved(c, s.(climbing := s.climbing - {p}), ClimbFrom(s, p), Parent(p));
  }

  // ---- All of it, step by step ----

  ghost predicate History(c: Config, s: State) {
    Noticed(c, s) && Untouched(c, s) && Record(c, s)
  }

  lemma StepHistory(c: Config, s: State, act: Action)
    requires Family(c, s) && Distinct(c) && History(c, s)
    ensures History(c, Step(c, s, act))
  {
    hide Family, Noticed, Untouched, Record, Summary, Step, Distinct;
    var e := StepSummary(c, s, act);
    StepNoticed(c, s, act);
    UntouchedKept(c, s, Step(c, s, act), e);
    RecordKept(c, s, Step(c, s, act), e);
  }

  lemma InitialHistory(c: Config)
    ensures History(c, Initial(c))
  {
    assert Lines([]) == [];
  }
}
