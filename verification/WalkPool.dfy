/**
 * The descriptor pool seen from the walk: its live count is the number of descriptors
 * the walk holds or has reserved, so a scan, which holds its own directory open, is
 * always told to retry a child it had no descriptor for.
 */
module WalkPool {
  import opened Common
  import opened Walk
  import opened WalkFamily

  /** Positions that hold a lease beside the node's own descriptor. */
  ghost predicate HoldsLease(at: At) {
    at.Reserved? || (at.Handling? && (at.entry.ChildReserved? || at.entry == ChildNew(true)))
  }

  ghost function Opens(s: State): set<Path> {
    set p | p in s.nodes && s.nodes[p].open
  }

  ghost function Leasers(s: State): set<Path> {
    set p | p in s.nodes && HoldsLease(s.nodes[p].at)
  }

  ghost function SeedLease(s: State): nat {
    if s.seedAt.SeedOpen? || s.seedAt.SeedSubmit? then 1 else 0
  }

  ghost function Held(s: State): nat {
    |Opens(s)| + |Leasers(s)| + SeedLease(s)
  }

  /** No child was given up on for want of descriptors. */
  ghost predicate NeverStarved(s: State) {
    forall p | p in s.nodes && s.nodes[p].at.Handling? && s.nodes[p].at.entry.ChildRefused? ::
      s.nodes[p].at.entry.e != OutOfDescriptors
  }

  ghost predicate PoolOk(s: State) {
    s.pool.live == Held(s) && NeverStarved(s)
  }

  ghost function One(b: bool): int {
    if b then 1 else 0
  }

  ghost function HeldBy(n: DirNode): int {
    One(n.open) + One(HoldsLease(n.at))
  }

  lemma SetToggled(x: set<Path>, x': set<Path>, p: Path)
    requires forall q | q != p :: q in x <==> q in x'
    ensures |x'| == |x| - One(p in x) + One(p in x')
  {
    var rest := x - {p};
    assert x == if p in x then rest + {p} else rest;
    assert x' == if p in x' then rest + {p} else rest;
  }

  /** Replacing or adding one node changes what is held by that node's share. */
  lemma NodePut(s: State, s': State, p: Path)
    requires p in s'.nodes && s'.nodes == s.nodes[p := s'.nodes[p]] && s'.seedAt == s.seedAt
    ensures Held(s') == Held(s) + HeldBy(s'.nodes[p]) - if p in s.nodes then HeldBy(s.nodes[p]) else 0
  {
    hide HoldsLease;
    SetToggled(Opens(s), Opens(s'), p);
    SetToggled(Leasers(s), Leasers(s'), p);
  }

  lemma NodeDeleted(s: State, s': State, p: Path)
    requires p in s.nodes && s'.nodes == s.nodes - {p} && s'.seedAt == s.seedAt
    ensures Held(s') == Held(s) - HeldBy(s.nodes[p])
  {
    hide HoldsLease;
    SetToggled(Opens(s), Opens(s'), p);
    SetToggled(Leasers(s), Leasers(s'), p);
  }

  /** Whoever holds a directory open keeps the live count above zero. */
  lemma OpenMeansLive(s: State, p: Path)
    requires PoolOk(s) && p in s.nodes && s.nodes[p].open
    ensures s.pool.live >= 1
  {
    assert p in Opens(s);
  }

  ghost predicate Starved(at: At) {
    at.Handling? && at.entry == ChildRefused(OutOfDescriptors)
  }

  /** One directory's step whose lease accounting adds up. */
  lemma PoolMoved(s: State, s': State, p: Path)
    requires PoolOk(s) && p in s'.nodes && s'.nodes == s.nodes[p := s'.nodes[p]] && s'.seedAt == s.seedAt
    requires s'.pool.live == s.pool.live + HeldBy(s'.nodes[p]) - if p in s.nodes then HeldBy(s.nodes[p]) else 0
    requires !Starved(s'.nodes[p].at)
    ensures PoolOk(s')
  {
    hide Held, HeldBy;
    NodePut(s, s', p);
  }

  lemma EntryRefusedPool(c: Config, s: State, p: Path, choice: Choice)
    requires PoolOk(s) && p in s.nodes && s.nodes[p].at.Handling? && s.nodes[p].at.entry.ChildRefused?
    ensures PoolOk(HandleEntry(c, s, p, choice))
  {
    hide PoolOk, Possible, GiveUp;
    var s', name := HandleEntry(c, s, p, choice), s.nodes[p].at.name;
    var err := if choice.Answer? then choice.err else Some(OtherError(0));
    var line := Render(p) + "/" + name;
    if GiveUp(c, s, p + [name], line, err).Some? { GiveUpKeeps(c, s, p + [name], line, err); }
    hide Render;
    if s' != s { PoolMoved(s, s', p); }
  }

  lemma EntryCallPool(c: Config, s: State, p: Path, choice: Choice)
    requires PoolOk(s) && p in s.nodes && s.nodes[p].at.Handling?
    requires var entry := s.nodes[p].at.entry; entry.Stat? || entry.Unlink?
    ensures PoolOk(HandleEntry(c, s, p, choice))
  {
    hide PoolOk, Possible, GiveUp, Render, Retryable;
    var s' := HandleEntry(c, s, p, choice);
    if s' != s { PoolMoved(s, s', p); }
  }

  lemma OpenOf(c: Config, s: State, p: Path)
    requires Family(c, s) && p in s.nodes
    ensures OpenOk(s.nodes[p])
  {
    assert NodeOk(c, s, p);
  }

  lemma EntryOpenPool(c: Config, s: State, p: Path, choice: Choice)
    requires Family(c, s) && PoolOk(s) && p in s.nodes && s.nodes[p].at.Handling?
    requires var entry := s.nodes[p].at.entry; entry.CheckLimit? || entry.ChildReserved? || entry.ChildRefusing?
    ensures PoolOk(HandleEntry(c, s, p, choice))
  {
    hide Family, PoolOk, Possible;
    OpenOf(c, s, p);
    OpenMeansLive(s, p);
    var s' := HandleEntry(c, s, p, choice);
    if s' != s { PoolMoved(s, s', p); }
  }

  lemma ChildNewPool(c: Config, s: State, p: Path, choice: Choice)
    requires Family(c, s) && PoolOk(s) && p in s.nodes && s.nodes[p].at.Handling? && s.nodes[p].at.entry.ChildNew?
    ensures PoolOk(HandleEntry(c, s, p, choice))
  {
    hide Family, PoolOk, GiveUp, Possible, Render;
    NoNodeYet(c, s, p);
    ChildNewHeld(s, HandleEntry(c, s, p, choice), p, p + [s.nodes[p].at.name]);
  }

  /** The lease of the child's open passes to the child's node. */
  lemma ChildNewHeld(s: State, s': State, p: Path, child: Path)
    requires PoolOk(s) && p in s.nodes && child !in s.nodes && s.nodes[p].at.Handling? && s.nodes[p].at.entry.ChildNew?
    requires var n := s.nodes[p];
      s'.nodes == s.nodes[p := n.(refs := n.refs + 1, at := Handling(n.at.unread, n.at.name, ChildSubmit))]
                         [child := DirNode(1, n.at.entry.open, Unsubmitted)]
    requires s'.pool == s.pool && s'.seedAt == s.seedAt
    ensures PoolOk(s')
  {
    var s1 := s.(nodes := s.nodes[p := s'.nodes[p]]);
    NodePut(s, s1, p);
    NodePut(s1, s', child);
    hide Held;
  }

  lemma ChildSubmitPool(c: Config, s: State, p: Path, choice: Choice)
    requires Family(c, s) && PoolOk(s) && p in s.nodes && s.nodes[p].at.Handling? && s.nodes[p].at.entry.ChildSubmit?
    ensures PoolOk(HandleEntry(c, s, p, choice))
  {
    hide Family, PoolOk, Held, Render;
    var name := s.nodes[p].at.name;
    var child := p + [name];
    Unborn(c, s, p);
    assert child != p by { assert |child| != |p|; }
    var s1 := Moved(s, p, Scanning(s.nodes[p].at.unread));
    PoolMoved(s, s1, p);
    var s2 := Moved(s1, child, if s.nodes[child].open then Queued else Parked);
    PoolMoved(s1, s2, child);
    assert HandleEntry(c, s, p, choice) == s2;
  }

  lemma OpenFailedPool(c: Config, s: State, p: Path, choice: Choice)
    requires Family(c, s) && PoolOk(s) && p in s.nodes && s.nodes[p].at.OpenFailed?
    ensures PoolOk(AdvanceDir(c, s, p, choice))
  {
    hide Family, PoolOk, Possible, GiveUp;
    var s' := AdvanceDir(c, s, p, choice);
    var err := if choice.Answer? then choice.err else Some(OtherError(0));
    if GiveUp(c, s, p, Render(p), err).Some? { GiveUpKeeps(c, s, p, Render(p), err); }
    if s' != s { PoolMoved(s, s', p); }
  }

  lemma DeletePool(c: Config, s: State, p: Path)
    requires Family(c, s) && PoolOk(s) && p in s.nodes && (s.nodes[p].at.Dropping? || s.nodes[p].at.Removed?)
    ensures PoolOk(Delete(s, p))
  {
    assert NodeOk(c, s, p);
    hide Family, NodeOk, Held;
    NodeDeleted(s, Delete(s, p), p);
  }

  lemma OpeningPool(c: Config, s: State, p: Path, choice: Choice)
    requires Family(c, s) && PoolOk(s) && p in s.nodes
    requires var at := s.nodes[p].at; at.Opening? || at.Reserved? || at.Refusing?
    ensures PoolOk(AdvanceDir(c, s, p, choice))
  {
    hide Family, PoolOk, Possible, Children, HandleEntry;
    OpenOf(c, s, p);
    var s' := AdvanceDir(c, s, p, choice);
    if s' != s { PoolMoved(s, s', p); }
  }

  lemma DirPool(c: Config, s: State, p: Path, choice: Choice)
    requires Family(c, s) && PoolOk(s) && p in s.nodes
    requires var at := s.nodes[p].at; at.Closing? || at.ScanDone? || at.Removing? || at.Scanning?
    ensures PoolOk(AdvanceDir(c, s, p, choice))
  {
    hide Family, PoolOk, Possible, Children, HandleEntry;
    OpenOf(c, s, p);
    var s' := AdvanceDir(c, s, p, choice);
    if s' != s { PoolMoved(s, s', p); }
  }

  lemma AdvancePool(c: Config, s: State, p: Path, choice: Choice)
    requires Family(c, s) && PoolOk(s) && p in s.nodes
    ensures PoolOk(AdvanceDir(c, s, p, choice))
  {
    hide Family, PoolOk, HandleEntry, Delete, DropReference, GiveUp, Children, Possible;
    var at := s.nodes[p].at;
    if at.Handling? {
      if at.entry.ChildNew? { ChildNewPool(c, s, p, choice); }
      else if at.entry.ChildSubmit? { ChildSubmitPool(c, s, p, choice); }
      else if at.entry.ChildRefused? { EntryRefusedPool(c, s, p, choice); }
      else if at.entry.Stat? || at.entry.Unlink? { EntryCallPool(c, s, p, choice); }
      else { EntryOpenPool(c, s, p, choice); }
    } else if at.Dropping? || at.Removed? { DeletePool(c, s, p); }
    else if at.OpenFailed? { OpenFailedPool(c, s, p, choice); }
    else if at.Opening? || at.Reserved? || at.Refusing? { OpeningPool(c, s, p, choice); }
    else if !at.Unsubmitted? && !at.Queued? && !at.Parked? && !at.Waiting? { DirPool(c, s, p, choice); }
  }

  lemma SeedShare(s: State, s': State)
    requires PoolOk(s) && s'.nodes == s.nodes
    requires s'.pool.live - s.pool.live == SeedLease(s') - SeedLease(s)
    ensures PoolOk(s')
  {
    assert Opens(s') == Opens(s) && Leasers(s') == Leasers(s);
  }

  lemma SeedSubmitPool(c: Config, s: State, choice: Choice)
    requires Family(c, s) && PoolOk(s) && s.seed < |c.operands| && s.seedAt.SeedSubmit?
    ensures PoolOk(SeedNext(c, s, choice))
  {
    hide Family, PoolOk, Possible, GiveUp, Render;
    NoRootYet(c, s);
    SeedSubmitHeld(s, SeedNext(c, s, choice), [c.operands[s.seed]]);
  }

  /** The reservation of the operand's open becomes its node's descriptor. */
  lemma SeedSubmitHeld(s: State, s': State, p: Path)
    requires PoolOk(s) && p !in s.nodes && s'.nodes == s.nodes[p := DirNode(1, true, Queued)]
    requires s'.pool == s.pool && s.seedAt.SeedSubmit? && s'.seedAt.SeedStat?
    ensures PoolOk(s')
  {
    NodePut(s, s'.(seedAt := s.seedAt), p);
    assert Opens(s'.(seedAt := s.seedAt)) == Opens(s') && Leasers(s'.(seedAt := s.seedAt)) == Leasers(s');
    hide Opens, Leasers;
  }

  lemma SeedRefusedPool(c: Config, s: State, choice: Choice)
    requires PoolOk(s) && s.seed < |c.operands| && s.seedAt.SeedRefused?
    ensures PoolOk(SeedNext(c, s, choice))
  {
    hide PoolOk, Possible, GiveUp;
    var p, line := [c.operands[s.seed]], c.operands[s.seed];
    var err := if choice.Answer? then choice.err else Some(OtherError(0));
    if GiveUp(c, s, p, line, err).Some? { GiveUpKeeps(c, s, p, line, err); }
    SeedShare(s, SeedNext(c, s, choice));
  }

  lemma SeedOtherPool(c: Config, s: State, choice: Choice)
    requires PoolOk(s) && s.seed < |c.operands| && !s.seedAt.SeedRefused? && !s.seedAt.SeedSubmit?
    ensures PoolOk(SeedNext(c, s, choice))
  {
    hide PoolOk, Possible, GiveUp, Render;
    SeedShare(s, SeedNext(c, s, choice));
  }

  lemma SeedPool(c: Config, s: State, choice: Choice)
    requires Family(c, s) && PoolOk(s) && s.seed < |c.operands|
    ensures PoolOk(SeedNext(c, s, choice))
  {
    hide Family, PoolOk, SeedNext;
    if s.seedAt.SeedSubmit? { SeedSubmitPool(c, s, choice); }
    else if s.seedAt.SeedRefused? { SeedRefusedPool(c, s, choice); }
    else { SeedOtherPool(c, s, choice); }
  }

  lemma AcquirePool(c: Config, s: State, p: Path)
    requires Family(c, s) && PoolOk(s) && p in s.nodes
    ensures PoolOk(AcquireDir(s, p))
  {
    hide Family, PoolOk, Children;
    if AcquireDir(s, p) != s { PoolMoved(s, AcquireDir(s, p), p); }
  }

  lemma ClimbPool(c: Config, s: State, p: Path)
    requires Family(c, s) && PoolOk(s) && p in s.climbing
    ensures PoolOk(ClimbFrom(s, p))
  {
    ClimbCount(c, s, p);
    hide Family, PoolOk;
    var s1 := s.(climbing := s.climbing - {p});
    assert PoolOk(s1) by { SeedShare(s, s1); }
    if s.nodes[Parent(p)].at.Handling? { assert !Starved(s.nodes[Parent(p)].at) by { StarvedNever(s, Parent(p)); } }
    PoolMoved(s1, ClimbFrom(s, p), Parent(p));
  }

  lemma StarvedNever(s: State, p: Path)
    requires PoolOk(s) && p in s.nodes
    ensures !Starved(s.nodes[p].at)
  {
  }

  lemma StepPool(c: Config, s: State, act: Action)
    requires Family(c, s) && PoolOk(s)
    ensures PoolOk(Step(c, s, act))
  {
    hide Family, PoolOk, AdvanceDir, AcquireDir, ClimbFrom, SeedNext;
    match act
    case Seed(choice) => if s.seed < |c.operands| { SeedPool(c, s, choice); }
    case Acquire(p) => if p in s.nodes { AcquirePool(c, s, p); }
    case Advance(p, choice) => if p in s.nodes { AdvancePool(c, s, p, choice); }
    case Climb(p) => if p in s.climbing && p != [] { ClimbPool(c, s, p); }
  }
}
