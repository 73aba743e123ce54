/**
 * What becomes of a directory that has to be opened, for every answer of the system: read,
 * left to be opened later, or given up. From any state of any run, whoever has it in hand
 * goes on alone until that is settled.
 */
module WalkOutcomes {
  import opened Common
  import opened Walk
  import opened WalkFamily
  import opened WalkPool
  import opened WalkCover
  import opened WalkHistory
  import opened WalkRun

  /**
   * `p` was given up: it went if its rmdir was tried and succeeded, and is reported as
   * left with everything in it otherwise.
   */
  ghost predicate GivenUp(c: Config, s: State, s': State, p: Path, last: Option<Errno>) {
    if c.force && last == None
    then s'.fs == s.fs - {p} && s'.removed == s.removed + [p] && s'.reports == s.reports
    else s'.fs == s.fs && s'.removed == s.removed && s'.reports == s.reports + [Report(p, Subtree, Fault)]
  }

  ghost predicate Untouched(s: State, s': State) {
    s'.fs == s.fs && s'.removed == s.removed && s'.reports == s.reports
  }

  /** A lease is out while anybody holds one. */
  lemma LeaseMeansLive(c: Config, run: seq<State>, p: Path)
    requires ValidConfig(c) && IsRun(c, run) && p in Final(run).nodes
    ensures run != [] && var s := Final(run); Family(c, s) && (s.nodes[p].open || HoldsLease(s.nodes[p].at) ==> s.pool.live >= 1)
  {
    RunInvariant(c, run);
    hide IsRun, Coverage, History, FsOk, NodeOk, RefsOk, ClimbOk, LivesOk, SeedOk;
    assert p in Opens(Final(run)) || p in Leasers(Final(run)) || !(Final(run).nodes[p].open || HoldsLease(Final(run).nodes[p].at));
  }

  // ---- A directory taken from a queue ----

  ghost predicate OpenUnsettled(at: At) {
    at.Refusing? || at.OpenFailed?
  }

  /** Its worker goes on alone until the open is settled. */
  ghost function OpenGoesOn(c: Config, s: State, p: Path, answer: Choice, n: nat): State
    decreases n
  {
    if n == 0 || p !in s.nodes || !OpenUnsettled(s.nodes[p].at) then s
    else OpenGoesOn(c, Step(c, s, Advance(p, answer)), p, answer, n - 1)
  }

  /**
   * It is read if it opens; it is left for later exactly if descriptors ran out and
   * somebody else holds one or gave one back since; else it is given up.
   */
  ghost predicate OpenSettled(c: Config, s: State, s': State, p: Path, err: Option<Errno>, last: Option<Errno>)
    requires p in s.nodes && s.nodes[p].at.Reserved?
  {
    var later := s.pool.live > 1 || s.pool.epoch != s.nodes[p].at.before.epoch;
    && s'.nodes.Keys == s.nodes.Keys
    && var DirNode(_, open, at) := s'.nodes[p];
       if err == None then at == Scanning(Children(s.fs, p)) && open && Untouched(s, s')
       else if err == Some(OutOfDescriptors) && later then at.Parked? && !open && Untouched(s, s')
       else at.Dropping? && !open && GivenUp(c, s, s', p, last)
  }

  lemma OpenOutcome(c: Config, run: seq<State>, p: Path, err: Option<Errno>, last: Option<Errno>)
    requires ValidConfig(c) && IsRun(c, run) && p in Final(run).nodes && Final(run).nodes[p].at.Reserved?
    requires Possible(c, Final(run).fs, DoOpen, p, err) && Possible(c, Final(run).fs, DoRmdir, p, last)
    ensures var s := Final(run);
      OpenSettled(c, s, OpenGoesOn(c, Step(c, s, Advance(p, Answer(err))), p, Answer(last), 2), p, err, last)
  {
    hide IsRun, OpenSettled, OpenGoesOn, Step, Possible;
    LeaseMeansLive(c, run, p);
    var s := Final(run);
    InHand(c, s, p);
    OpenSettles(c, s, p, err, last);
  }

  /** A failed open is given up in one step. */
  lemma GiveUpSettles(c: Config, s: State, s1: State, p: Path, last: Option<Errno>, n: nat)
    requires p in s1.nodes && s1.nodes[p].at.OpenFailed? && Untouched(s, s1) && n >= 1
    requires p in s.fs && Possible(c, s.fs, DoRmdir, p, last)
    ensures var s' := OpenGoesOn(c, s1, p, Answer(last), n);
      s'.nodes == s1.nodes[p := s1.nodes[p].(at := Dropping)] && GivenUp(c, s, s', p, last)
  {
    hide HandleEntry, Render, Children, HasChild, Retryable;
    var s2 := Step(c, s1, Advance(p, Answer(last)));
    assert OpenGoesOn(c, s1, p, Answer(last), n) == OpenGoesOn(c, s2, p, Answer(last), n - 1) == s2;
  }

  lemma ShortOpenSettles(c: Config, s: State, s1: State, p: Path, last: Option<Errno>)
    requires p in s.nodes && s.nodes[p].at.Reserved? && !s.nodes[p].open && p in s.fs && s.pool.live >= 1
    requires Possible(c, s.fs, DoRmdir, p, last) && Untouched(s, s1) && s1.pool == s.pool.(live := s.pool.live - 1)
    requires s1.nodes == s.nodes[p := s.nodes[p].(at := Refusing(s.nodes[p].at.before))]
    ensures OpenSettled(c, s, OpenGoesOn(c, s1, p, Answer(last), 2), p, Some(OutOfDescriptors), last)
  {
    hide HandleEntry, Render, Children, HasChild, Possible, GiveUp;
    var s2 := Step(c, s1, Advance(p, Answer(last)));
    assert OpenGoesOn(c, s1, p, Answer(last), 2) == OpenGoesOn(c, s2, p, Answer(last), 1);
    if Retryable(s1, s.nodes[p].at.before) {
      assert s2.nodes[p].at.Parked?;
    } else {
      assert s2.nodes == s1.nodes[p := s1.nodes[p].(at := OpenFailed(OutOfDescriptors))];
      hide Step, AdvanceDir;
      GiveUpSettles(c, s, s2, p, last, 1);
    }
  }

  lemma OpenSettles(c: Config, s: State, p: Path, err: Option<Errno>, last: Option<Errno>)
    requires p in s.nodes && s.nodes[p].at.Reserved? && !s.nodes[p].open && p in s.fs && s.pool.live >= 1
    requires Possible(c, s.fs, DoOpen, p, err) && Possible(c, s.fs, DoRmdir, p, last)
    ensures OpenSettled(c, s, OpenGoesOn(c, Step(c, s, Advance(p, Answer(err))), p, Answer(last), 2), p, err, last)
  {
    hide HandleEntry, Render, Children, HasChild, Retryable;
    var before := s.nodes[p].at.before;
    var s1 := Step(c, s, Advance(p, Answer(err)));
    if err == None {
      hide Step, AdvanceDir, GiveUp;
    } else if err == Some(OutOfDescriptors) {
      assert s1.pool.live == s.pool.live - 1 && Untouched(s, s1);
      assert s1.nodes == s.nodes[p := s.nodes[p].(at := Refusing(before))];
      hide Possible;
      ShortOpenSettles(c, s, s1, p, last);
    } else {
      assert s1.nodes == s.nodes[p := s.nodes[p].(at := OpenFailed(err.value))];
      GiveUpSettles(c, s, s1, p, last, 2);
    }
  }

  // ---- A child directory met in a scan ----

  /** The scanning worker goes on alone until it is done with the entry. */
  ghost function EntryGoesOn(c: Config, s: State, p: Path, answer: Choice, n: nat): State
    decreases n
  {
    if n == 0 || p !in s.nodes || !s.nodes[p].at.Handling? then s
    else EntryGoesOn(c, Step(c, s, Advance(p, answer)), p, answer, n - 1)
  }

  /**
   * Near the ceiling it is left for later without a call, and nothing is held for it; else
   * it is queued open if it opens, left for later if descriptors ran out, and given up
   * without becoming a node if it cannot be opened.
   */
  ghost predicate ChildSettled(c: Config, s: State, s': State, p: Path, exhausted: bool, err: Option<Errno>, last: Option<Errno>)
    requires p in s.nodes && s.nodes[p].at.Handling?
  {
    var Handling(unread, name, _) := s.nodes[p].at;
    var child := p + [name];
    var kept := exhausted || err == None || err == Some(OutOfDescriptors);
    && p in s'.nodes && s'.nodes[p] == DirNode(s.nodes[p].refs + if kept then 1 else 0, s.nodes[p].open, Scanning(unread))
    && (if kept
        then
          var open := !exhausted && err == None;
          && s'.nodes.Keys == s.nodes.Keys + {child}
          && s'.nodes[child] == DirNode(1, open, if open then Queued else Parked)
          && s'.pool == s.pool.(live := s.pool.live + if open then 1 else 0)
          && Untouched(s, s')
        else s'.nodes.Keys == s.nodes.Keys && s'.pool == s.pool && GivenUp(c, s, s', child, last))
    && (exhausted || err == None ==> s'.faults == s.faults)
  }

  /** About to ask for the ceiling, with the child there and without a node. */
  ghost predicate AtLimit(s: State, p: Path) {
    p in s.nodes && s.nodes[p].at.Handling? && s.nodes[p].at.entry.CheckLimit? && s.pool.live >= 1
      && var child := p + [s.nodes[p].at.name]; child in s.fs && child !in s.nodes && child != p
  }

  ghost function AskedChild(c: Config, s: State, p: Path, exhausted: bool, err: Option<Errno>): State {
    Step(c, Step(c, s, Advance(p, Limit(exhausted))), Advance(p, Answer(err)))
  }

  lemma EntryStep(c: Config, s: State, p: Path, choice: Choice)
    requires p in s.nodes && s.nodes[p].at.Handling?
    ensures Step(c, s, Advance(p, choice)) == HandleEntry(c, s, p, choice)
  {
    hide HandleEntry;
  }

  /** The scan's next place with the same entry. */
  ghost function With(s: State, p: Path, entry: EntryAt): map<Path, DirNode>
    requires p in s.nodes && s.nodes[p].at.Handling?
  {
    s.nodes[p := s.nodes[p].(at := Handling(s.nodes[p].at.unread, s.nodes[p].at.name, entry))]
  }

  /** A node is made and submitted in two steps, and the scan goes on. */
  lemma ChildMade(c: Config, s: State, p: Path, open: bool, answer: Choice, n: nat)
    requires p in s.nodes && s.nodes[p].at.Handling? && s.nodes[p].at.entry == ChildNew(open) && n >= 2
    requires var child := p + [s.nodes[p].at.name]; child !in s.nodes && child != p
    ensures var at := s.nodes[p].at; var s' := EntryGoesOn(c, s, p, answer, n);
      && s'.nodes == s.nodes[p := DirNode(s.nodes[p].refs + 1, s.nodes[p].open, Scanning(at.unread))]
                            [p + [at.name] := DirNode(1, open, if open then Queued else Parked)]
      && s'.pool == s.pool && s'.faults == s.faults && Untouched(s, s')
  {
    hide Render, Children, HasChild, GiveUp, Possible, Retryable, Step, AdvanceDir;
    EntryStep(c, s, p, answer);
    var s1 := Step(c, s, Advance(p, answer));
    EntryStep(c, s1, p, answer);
    var s2 := Step(c, s1, Advance(p, answer));
    assert EntryGoesOn(c, s1, p, answer, n - 1) == EntryGoesOn(c, s2, p, answer, n - 2);
    assert EntryGoesOn(c, s2, p, answer, n - 2) == s2;
  }

  /** What ChildMade leaves is what is asked of a child that is kept. */
  lemma KeptIs(c: Config, s: State, s': State, p: Path, exhausted: bool, err: Option<Errno>, last: Option<Errno>)
    requires AtLimit(s, p) && (exhausted || err == None || err == Some(OutOfDescriptors))
    requires var Handling(unread, name, _) := s.nodes[p].at; var open := !exhausted && err == None;
      && s'.nodes == s.nodes[p := DirNode(s.nodes[p].refs + 1, s.nodes[p].open, Scanning(unread))]
                            [p + [name] := DirNode(1, open, if open then Queued else Parked)]
      && s'.pool == s.pool.(live := s.pool.live + if open then 1 else 0) && Untouched(s, s')
      && (exhausted || err == None ==> s'.faults == s.faults)
    ensures ChildSettled(c, s, s', p, exhausted, err, last)
  {
  }

  lemma ExhaustedSettles(c: Config, s: State, p: Path, err: Option<Errno>, last: Option<Errno>)
    requires AtLimit(s, p)
    ensures ChildSettled(c, s, EntryGoesOn(c, AskedChild(c, s, p, true, err), p, Answer(last), 3), p, true, err, last)
  {
    hide Render, Children, HasChild, GiveUp, Possible, Retryable, Step, AdvanceDir, ChildSettled;
    EntryStep(c, s, p, Limit(true));
    var s1 := Step(c, s, Advance(p, Limit(true)));
    assert s1 == s.(nodes := With(s, p, ChildNew(false)));
    EntryStep(c, s1, p, Answer(err));
    EntryStep(c, s1, p, Answer(last));
    hide HandleEntry;
    ChildMade(c, s1, p, false, Answer(last), 4);
    KeptIs(c, s, EntryGoesOn(c, s1, p, Answer(last), 4), p, true, err, last);
  }

  /** The child is asked for and answered: two steps, of which the lease shows in between. */
  lemma AnsweredChild(c: Config, s: State, p: Path, err: Option<Errno>)
    requires AtLimit(s, p) && Possible(c, s.fs, DoOpen, p + [s.nodes[p].at.name], err)
    ensures var s2 := AskedChild(c, s, p, false, err);
      && Untouched(s, s2)
      && (if err == None then s2.nodes == With(s, p, ChildNew(true)) && s2.pool == s.pool.(live := s.pool.live + 1) && s2.faults == s.faults
          else
            && s2.nodes == With(s, p, if err == Some(OutOfDescriptors) then ChildRefusing(s.pool) else ChildRefused(err.value))
            && s2.pool == s.pool)
  {
    hide Render, Children, HasChild, GiveUp, Possible, Retryable, Step, AdvanceDir;
    EntryStep(c, s, p, Limit(false));
    var s1 := Step(c, s, Advance(p, Limit(false)));
    assert s1 == Leased(s).(nodes := With(s, p, ChildReserved(s.pool)));
    EntryStep(c, s1, p, Answer(err));
  }

  lemma OpenedSettles(c: Config, s: State, p: Path, last: Option<Errno>)
    requires AtLimit(s, p) && Possible(c, s.fs, DoOpen, p + [s.nodes[p].at.name], None)
    ensures ChildSettled(c, s, EntryGoesOn(c, AskedChild(c, s, p, false, None), p, Answer(last), 3), p, false, None, last)
  {
    hide ChildSettled, AskedChild, EntryGoesOn, Possible;
    AnsweredChild(c, s, p, None);
    var s2 := AskedChild(c, s, p, false, None);
    ChildMade(c, s2, p, true, Answer(last), 3);
    KeptIs(c, s, EntryGoesOn(c, s2, p, Answer(last), 3), p, false, None, last);
  }

  /** The scan itself holds a descriptor, so one may be had later. */
  lemma ShortSettles(c: Config, s: State, p: Path, last: Option<Errno>)
    requires AtLimit(s, p)
    ensures var err := Some(OutOfDescriptors);
      ChildSettled(c, s, EntryGoesOn(c, AskedChild(c, s, p, false, err), p, Answer(last), 3), p, false, err, last)
  {
    hide ChildSettled, AskedChild, Step, AdvanceDir, Render, GiveUp;
    var err: Option<Errno> := Some(OutOfDescriptors);
    AnsweredChild(c, s, p, err);
    var s2 := AskedChild(c, s, p, false, err);
    EntryStep(c, s2, p, Answer(last));
    var s3 := Step(c, s2, Advance(p, Answer(last)));
    assert s3 == s2.(nodes := With(s, p, ChildNew(false)));
    assert EntryGoesOn(c, s2, p, Answer(last), 3) == EntryGoesOn(c, s3, p, Answer(last), 2);
    hide EntryGoesOn, HandleEntry;
    ChildMade(c, s3, p, false, Answer(last), 2);
    KeptIs(c, s, EntryGoesOn(c, s3, p, Answer(last), 2), p, false, err, last);
  }

  lemma RefusedSettles(c: Config, s: State, p: Path, err: Option<Errno>, last: Option<Errno>)
    requires AtLimit(s, p) && err.Some? && err.value != OutOfDescriptors
    requires var child := p + [s.nodes[p].at.name]; Possible(c, s.fs, DoOpen, child, err) && Possible(c, s.fs, DoRmdir, child, last)
    ensures ChildSettled(c, s, EntryGoesOn(c, AskedChild(c, s, p, false, err), p, Answer(last), 3), p, false, err, last)
  {
    hide Render, Children, HasChild, Retryable, Step, AdvanceDir, AskedChild;
    AnsweredChild(c, s, p, err);
    var s2 := AskedChild(c, s, p, false, err);
    EntryStep(c, s2, p, Answer(last));
    var s3 := Step(c, s2, Advance(p, Answer(last)));
    assert EntryGoesOn(c, s2, p, Answer(last), 3) == EntryGoesOn(c, s3, p, Answer(last), 2) == s3;
  }

  lemma ChildOutcome(c: Config, run: seq<State>, p: Path, exhausted: bool, err: Option<Errno>, last: Option<Errno>)
    requires ValidConfig(c) && IsRun(c, run)
    requires var s := Final(run); p in s.nodes && s.nodes[p].at.Handling? && s.nodes[p].at.entry.CheckLimit?
    requires var s := Final(run); var child := p + [s.nodes[p].at.name];
      Possible(c, s.fs, DoOpen, child, err) && Possible(c, s.fs, DoRmdir, child, last)
    ensures var s := Final(run);
      ChildSettled(c, s, EntryGoesOn(c, AskedChild(c, s, p, exhausted, err), p, Answer(last), 3), p, exhausted, err, last)
  {
    hide IsRun, ChildSettled, EntryGoesOn, AskedChild, Possible;
    LeaseMeansLive(c, run, p);
    var s := Final(run);
    InHand(c, s, p);
    assert s.nodes[p].at.name in Names(s.nodes[p].at);
    if exhausted { ExhaustedSettles(c, s, p, err, last); }
    else if err == None { OpenedSettles(c, s, p, last); }
    else if err == Some(OutOfDescriptors) { ShortSettles(c, s, p, last); }
    else { RefusedSettles(c, s, p, err, last); }
  }

  // ---- An operand ----

  /** It is queued open, or given up for whatever reason, and the next one is looked at. */
  ghost predicate SeedSettled(c: Config, s: State, s': State, err: Option<Errno>, last: Option<Errno>)
    requires s.seed < |c.operands|
  {
    var p := [c.operands[s.seed]];
    && s'.seed == s.seed + 1
    && if err == None
       then s'.nodes == s.nodes[p := DirNode(1, true, Queued)] && s'.pool == s.pool.(live := s.pool.live + 1) && Untouched(s, s')
       else s'.nodes == s.nodes && s'.pool == s.pool && GivenUp(c, s, s', p, last)
  }

  lemma SeedStep(c: Config, s: State, choice: Choice)
    requires s.seed < |c.operands|
    ensures Step(c, s, Seed(choice)) == SeedNext(c, s, choice)
  {
    hide SeedNext;
  }

  lemma SeedSettles(c: Config, s: State, err: Option<Errno>, last: Option<Errno>)
    requires s.seed < |c.operands| && s.seedAt.SeedReserve?
    requires var p := [c.operands[s.seed]]; p in s.fs && Possible(c, s.fs, DoOpen, p, err) && Possible(c, s.fs, DoRmdir, p, last)
    ensures SeedSettled(c, s, Step(c, Step(c, Step(c, s, Seed(Answer(None))), Seed(Answer(err))), Seed(Answer(last))), err, last)
  {
    hide Render, Children, HasChild, Step, Retryable;
    SeedStep(c, s, Answer(None));
    var s1 := Step(c, s, Seed(Answer(None)));
    assert s1 == Leased(s).(seedAt := SeedOpen(s.pool));
    SeedStep(c, s1, Answer(err));
    var s2 := Step(c, s1, Seed(Answer(err)));
    assert s2.seedAt == if err == None then SeedSubmit else SeedRefused(err.value);
    SeedStep(c, s2, Answer(last));
  }

  lemma SeedOutcome(c: Config, run: seq<State>, err: Option<Errno>, last: Option<Errno>)
    requires ValidConfig(c) && IsRun(c, run) && Final(run).seed < |c.operands| && Final(run).seedAt.SeedReserve?
    requires var s := Final(run); var p := [c.operands[s.seed]]; Possible(c, s.fs, DoOpen, p, err) && Possible(c, s.fs, DoRmdir, p, last)
    ensures var s := Final(run);
      SeedSettled(c, s, Step(c, Step(c, Step(c, s, Seed(Answer(None))), Seed(Answer(err))), Seed(Answer(last))), err, last)
  {
    hide IsRun, SeedSettled, Step, Possible;
    RunInvariant(c, run);
    var s := Final(run);
    assert SeedAtOk(c, s, [c.operands[s.seed]]);
    SeedSettles(c, s, err, last);
  }

  // ---- What "given back since" counts ----

  /** A directory that was open is so no more. */
  ghost predicate Shuts(s: State, s': State) {
    exists p | p in s.nodes && s.nodes[p].open :: !(p in s'.nodes && s'.nodes[p].open)
  }

  /** How often that happened so far. */
  ghost function Closes(run: seq<State>): nat {
    if |run| < 2 then 0
    else Closes(run[..|run| - 1]) + if Shuts(run[|run| - 2], run[|run| - 1]) then 1 else 0
  }

  ghost predicate KeepsOpen(s: State, s': State) {
    s'.pool.epoch == s.pool.epoch && forall p | p in s.nodes && s.nodes[p].open :: p in s'.nodes && s'.nodes[p].open
  }

  /** Only `p`'s node changed, if any, and not to closed. */
  ghost predicate OneKept(s: State, s': State, p: Path)
    requires p in s.nodes
  {
    && s'.pool.epoch == s.pool.epoch
    && (s'.nodes == s.nodes || (p in s'.nodes && (s.nodes[p].open ==> s'.nodes[p].open) && s'.nodes == s.nodes[p := s'.nodes[p]]))
  }

  lemma OneKeptOpen(s: State, s': State, p: Path)
    requires p in s.nodes && OneKept(s, s', p)
    ensures KeepsOpen(s, s')
  {
  }

  lemma GiveUpKeeps(c: Config, s: State, p: Path, line: string, err: Option<Errno>)
    ensures var after := GiveUp(c, s, p, line, err); after.Some? ==> after.value.nodes == s.nodes && after.value.pool == s.pool
  {
    hide Possible;
  }

  lemma ChildKeepsOpen(c: Config, s: State, p: Path, choice: Choice)
    requires p in s.nodes && s.nodes[p].at.Handling? && (s.nodes[p].at.entry.ChildNew? ==> p + [s.nodes[p].at.name] !in s.nodes)
    requires s.nodes[p].at.entry.ChildNew? || s.nodes[p].at.entry.ChildSubmit?
    ensures KeepsOpen(s, HandleEntry(c, s, p, choice))
  {
    hide GiveUp, Possible, Render, Retryable;
  }

  lemma CallKeepsOpen(c: Config, s: State, p: Path, choice: Choice)
    requires p in s.nodes && s.nodes[p].at.Handling?
    requires var entry := s.nodes[p].at.entry; entry.Stat? || entry.Unlink? || entry.CheckLimit?
    ensures OneKept(s, HandleEntry(c, s, p, choice), p)
  {
    hide GiveUp, Possible, Render, Retryable;
  }

  lemma ReservedKeepsOpen(c: Config, s: State, p: Path, choice: Choice)
    requires p in s.nodes && s.nodes[p].at.Handling?
    requires var entry := s.nodes[p].at.entry; entry.ChildReserved? || entry.ChildRefusing?
    ensures OneKept(s, HandleEntry(c, s, p, choice), p)
  {
    hide GiveUp, Possible, Render, Retryable;
  }

  lemma RefusedKeepsOpen(c: Config, s: State, p: Path, choice: Choice)
    requires p in s.nodes && s.nodes[p].at.Handling? && s.nodes[p].at.entry.ChildRefused?
    ensures OneKept(s, HandleEntry(c, s, p, choice), p)
  {
    var child, line := p + [s.nodes[p].at.name], Render(p) + "/" + s.nodes[p].at.name;
    GiveUpKeeps(c, s, child, line, if choice.Answer? then choice.err else Some(OtherError(0)));
    hide GiveUp, Possible, Render, Retryable;
  }

  lemma EntryKeepsOpen(c: Config, s: State, p: Path, choice: Choice)
    requires Family(c, s) && p in s.nodes && s.nodes[p].at.Handling?
    ensures KeepsOpen(s, HandleEntry(c, s, p, choice))
  {
    InHand(c, s, p);
    hide Family, FsOk, HandleEntry, KeepsOpen, OneKept;
    var entry := s.nodes[p].at.entry;
    if entry.ChildNew? || entry.ChildSubmit? {
      assert entry.ChildNew? ==> s.nodes[p].at.name in Names(s.nodes[p].at);
      ChildKeepsOpen(c, s, p, choice);
    } else {
      if entry.ChildRefused? { RefusedKeepsOpen(c, s, p, choice); }
      else if entry.ChildReserved? || entry.ChildRefusing? { ReservedKeepsOpen(c, s, p, choice); }
      else { CallKeepsOpen(c, s, p, choice); }
      OneKeptOpen(s, HandleEntry(c, s, p, choice), p);
    }
  }

  lemma GoneKept(s: State, p: Path)
    requires p in s.nodes && !s.nodes[p].open
    ensures KeepsOpen(s, Delete(s, p))
  {
  }

  lemma OneMore(s: State, s': State, p: Path)
    requires p !in s.nodes && s'.pool.epoch == s.pool.epoch
    requires s'.nodes == s.nodes || s'.nodes == s.nodes[p := DirNode(1, true, Queued)]
    ensures KeepsOpen(s, s')
  {
  }

  lemma OpeningKeepsOpen(c: Config, s: State, p: Path, choice: Choice)
    requires p in s.nodes
    requires var at := s.nodes[p].at; at.Opening? || at.Reserved? || at.Refusing? || at.ScanDone? || at.Unsubmitted? || at.Queued? || at.Parked? || at.Waiting?
    ensures OneKept(s, AdvanceDir(c, s, p, choice), p)
  {
    hide HandleEntry, GiveUp, Possible, Render, Retryable, Children, Matches;
  }

  lemma FailedKeepsOpen(c: Config, s: State, p: Path, choice: Choice)
    requires p in s.nodes && s.nodes[p].at.OpenFailed?
    ensures OneKept(s, AdvanceDir(c, s, p, choice), p)
  {
    GiveUpKeeps(c, s, p, Render(p), if choice.Answer? then choice.err else Some(OtherError(0)));
    hide HandleEntry, GiveUp, Possible, Render, Retryable, Children, Matches;
  }

  lemma ReadKeepsOpen(c: Config, s: State, p: Path, choice: Choice)
    requires p in s.nodes && (s.nodes[p].at.Scanning? || s.nodes[p].at.Removing?)
    ensures OneKept(s, AdvanceDir(c, s, p, choice), p)
  {
    hide HandleEntry, GiveUp, Possible, Render, Retryable, Children, Matches;
  }

  lemma DirKeepsOpen(c: Config, s: State, p: Path, choice: Choice)
    requires Family(c, s) && p in s.nodes && !s.nodes[p].at.Handling? && !s.nodes[p].at.Closing?
    ensures KeepsOpen(s, AdvanceDir(c, s, p, choice))
  {
    InHand(c, s, p);
    var at := s.nodes[p].at;
    if at.Dropping? || at.Removed? {
      hide Family, FsOk, RefsOk, HandleEntry, ParentOk, EntryOk, NamesOk;
      GoneKept(s, p);
    } else {
      hide Family, FsOk, RefsOk, NodeOk, AdvanceDir, HandleEntry, KeepsOpen, OneKept;
      if at.OpenFailed? { FailedKeepsOpen(c, s, p, choice); }
      else if at.Scanning? || at.Removing? { ReadKeepsOpen(c, s, p, choice); }
      else { OpeningKeepsOpen(c, s, p, choice); }
      OneKeptOpen(s, AdvanceDir(c, s, p, choice), p);
    }
  }

  lemma ClosingShuts(c: Config, s: State, p: Path, choice: Choice)
    requires Family(c, s) && p in s.nodes && s.nodes[p].at.Closing?
    ensures var s' := AdvanceDir(c, s, p, choice); Shuts(s, s') && s'.pool.epoch == (s.pool.epoch + 1) % EPOCHS
  {
    InHand(c, s, p);
    hide FsOk, RefsOk, ClimbOk, LivesOk, SeedOk, Family, HandleEntry;
    var s' := AdvanceDir(c, s, p, choice);
    assert s.nodes[p].open && !s'.nodes[p].open;
  }

  /** What a step of the main thread does to the nodes. */
  ghost predicate SeedKept(s: State, s': State, p: Path) {
    s'.pool.epoch == s.pool.epoch && (s'.nodes == s.nodes || s'.nodes == s.nodes[p := DirNode(1, true, Queued)])
  }

  lemma SeedCallKept(c: Config, s: State, choice: Choice)
    requires s.seed < |c.operands| && (s.seedAt.SeedStat? || s.seedAt.SeedUnlink? || s.seedAt.SeedRmdir?)
    ensures SeedKept(s, SeedNext(c, s, choice), [c.operands[s.seed]])
  {
    hide GiveUp, Possible, Render;
  }

  lemma SeedOpenKept(c: Config, s: State, choice: Choice)
    requires s.seed < |c.operands| && !s.seedAt.SeedStat? && !s.seedAt.SeedUnlink? && !s.seedAt.SeedRmdir?
    ensures SeedKept(s, SeedNext(c, s, choice), [c.operands[s.seed]])
  {
    GiveUpKeeps(c, s, [c.operands[s.seed]], c.operands[s.seed], if choice.Answer? then choice.err else Some(OtherError(0)));
    hide GiveUp, Possible, Render;
  }

  lemma SeedKeepsOpen(c: Config, s: State, choice: Choice)
    requires Family(c, s) && s.seed < |c.operands|
    ensures KeepsOpen(s, SeedNext(c, s, choice))
  {
    var p := [c.operands[s.seed]];
    assert p !in s.nodes by { assert SeedOk(c, s) && LivesOk(s); }
    hide Family, KeepsOpen, SeedNext;
    if s.seedAt.SeedStat? || s.seedAt.SeedUnlink? || s.seedAt.SeedRmdir? { SeedCallKept(c, s, choice); }
    else { SeedOpenKept(c, s, choice); }
    OneMore(s, SeedNext(c, s, choice), p);
  }

  lemma EpochStep(c: Config, s: State, act: Action)
    requires Family(c, s) && 0 <= s.pool.epoch < EPOCHS
    ensures var s' := Step(c, s, act); s'.pool.epoch == (s.pool.epoch + if Shuts(s, s') then 1 else 0) % EPOCHS
  {
    hide Family, HandleEntry, AdvanceDir, SeedNext;
    match act
    case Seed(choice) => if s.seed < |c.operands| { SeedKeepsOpen(c, s, choice); }
    case Acquire(p) =>
    case Climb(p) =>
    case Advance(p, choice) =>
      if p in s.nodes {
        if s.nodes[p].at.Closing? { ClosingShuts(c, s, p, choice); }
        else if s.nodes[p].at.Handling? { EntryKeepsOpen(c, s, p, choice); EntryStep(c, s, p, choice); }
        else { DirKeepsOpen(c, s, p, choice); }
      }
  }

  lemma InitialEpoch(c: Config)
    ensures Initial(c).pool.epoch == 0
  {
  }

  lemma RunFamily(c: Config, run: seq<State>)
    requires ValidConfig(c) && IsRun(c, run)
    ensures run != [] && Family(c, Final(run))
  {
    hide IsRun, Coverage, History, Family, PoolOk;
    RunInvariant(c, run);
  }

  /** The pool's epoch is the number of directories closed so far. */
  lemma {:induction false} EpochCountsCloses(c: Config, run: seq<State>)
    requires ValidConfig(c) && IsRun(c, run)
    ensures run != [] && Final(run).pool.epoch == Closes(run) % EPOCHS
  {
    hide Step, Initial, Shuts, Family;
    if |run| == 1 {
      InitialEpoch(c);
    } else {
      var before := run[..|run| - 1];
      var act := RunBefore(c, run);
      EpochCountsCloses(c, before);
      RunFamily(c, before);
      EpochStep(c, Final(before), act);
      assert Final(before) == run[|run| - 2];
    }
  }
}
