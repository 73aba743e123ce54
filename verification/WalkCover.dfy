/**
 * Nothing under an operand is forgotten: in every reachable state each path still there
 * is either going to be dealt with or explained by a report (or by an operand skipped in
 * silence).
 */
module WalkCover {
  import opened Common
  import opened Walk
  import opened WalkFamily

  ghost predicate Blames(r: Report, p: Path) {
    match r.scope
    case Itself => r.path == p
    case Beneath(unread) => r.path < p && p[|r.path|] in unread
    case Subtree => r.path <= p
  }

  ghost predicate Explained(s: State, p: Path) {
    || (exists r | r in s.reports :: Blames(r, p))
    || (exists o | o in s.silent :: o <= p)
  }

  ghost predicate UnderOperand(c: Config, p: Path) {
    p != [] && p[0] in c.operands
  }

  ghost predicate OperandAhead(c: Config, s: State, q: Path) {
    |q| == 1 && exists i | s.seed <= i < |c.operands| :: q[0] == c.operands[i]
  }

  /** All of `q` is still to be dealt with. */
  ghost predicate InPlay(c: Config, s: State, q: Path) {
    q != [] && (
      || (q in s.nodes && Unscanned(s.nodes[q].at))
      || (|q| > 1 && Parent(q) in s.nodes && Last(q) in Names(s.nodes[Parent(q)].at))
      || OperandAhead(c, s, q))
  }

  /** The directory itself has still to go. */
  ghost predicate SelfAhead(at: At) {
    !at.Dropping? && !at.Removed?
  }

  ghost predicate Covered(c: Config, s: State, p: Path) {
    || (p in s.nodes && SelfAhead(s.nodes[p].at))
    || (exists k | 1 <= k <= |p| :: InPlay(c, s, p[..k]))
  }

  ghost predicate Coverage(c: Config, s: State) {
    forall p | p in s.fs && UnderOperand(c, p) :: Covered(c, s, p) || Explained(s, p)
  }

  /** Whatever is left of `q` and below it is explained. */
  ghost predicate Settled(s: State, q: Path) {
    forall p | p in s.fs && q <= p :: Explained(s, p)
  }

  /** Reports and silences are never taken back, and the tree only shrinks. */
  ghost predicate Later(s: State, s': State) {
    s'.fs <= s.fs && s.reports <= s'.reports && s.silent <= s'.silent
  }

  lemma ExplainedLater(s: State, s': State, p: Path)
    requires Later(s, s') && Explained(s, p)
    ensures Explained(s', p)
  {
    if r :| r in s.reports && Blames(r, p) {
      assert r in s'.reports;
    }
  }

  lemma SettledLater(s: State, s': State, q: Path)
    requires Later(s, s') && Settled(s, q)
    ensures Settled(s', q)
  {
    forall p | p in s'.fs && q <= p ensures Explained(s', p) { ExplainedLater(s, s', p); }
  }

  /** Every prefix of a path that is there is there. */
  lemma {:induction false} PrefixThere(c: Config, s: State, p: Path, k: nat)
    requires FsOk(c, s) && p in s.fs && 1 <= k <= |p|
    ensures p[..k] in s.fs
    decreases |p|
  {
    if k < |p| {
      PrefixThere(c, s, Parent(p), k);
      assert Parent(p)[..k] == p[..k];
    } else {
      assert p[..k] == p;
    }
  }

  /** Below a path that is there lies an entry of it. */
  lemma EntryBelow(c: Config, s: State, q: Path, p: Path)
    requires FsOk(c, s) && p in s.fs && q < p && q != []
    ensures q + [p[|q|]] in s.fs && q in s.fs
  {
    PrefixThere(c, s, p, |q| + 1);
    PrefixThere(c, s, p, |q|);
    assert p[..|q| + 1] == q + [p[|q|]] && p[..|q|] == q;
  }

  lemma SettledByReport(s: State, q: Path, r: Report)
    requires r in s.reports && r == Report(q, Subtree, r.cause)
    ensures Settled(s, q)
  {
    forall p | p in s.fs && q <= p ensures Explained(s, p) { assert Blames(r, p); }
  }

  /** What is not there has nothing below it. */
  lemma SettledByAbsence(c: Config, s: State, q: Path)
    requires FsOk(c, s) && q !in s.fs && q != []
    ensures Settled(s, q)
  {
    forall p | p in s.fs ensures !(q <= p) {
      if q <= p {
        assert p[..|q|] == q;
        PrefixThere(c, s, p, |q|);
      }
    }
  }

  /** What is empty and taken away leaves nothing. */
  lemma SettledByRemoval(c: Config, s: State, s': State, q: Path)
    requires FsOk(c, s) && !HasChild(s.fs, q) && s'.fs == s.fs - {q} && q != []
    ensures Settled(s', q)
  {
    forall p | p in s'.fs ensures !(q <= p) {
      if q <= p {
        assert q != p ==> q < p;
        EntryBelow(c, s, q, p);
      }
    }
  }

  /** A lone entry: nothing lies below it. */
  lemma SettledLeaf(c: Config, s: State, s': State, q: Path)
    requires FsOk(c, s) && Later(s, s') && !HasChild(s.fs, q) && q != []
    requires Explained(s', q)
    ensures Settled(s', q)
  {
    forall p | p in s'.fs && q <= p ensures Explained(s', p) {
      if q < p { EntryBelow(c, s, q, p); }
    }
  }

  lemma GiveUpSettles(c: Config, s: State, p: Path, line: string, err: Option<Errno>)
    requires FsOk(c, s) && p != [] && GiveUp(c, s, p, line, err).Some?
    ensures var s' := GiveUp(c, s, p, line, err).value;
      && Settled(s', p) && Later(s, s')
      && s'.nodes == s.nodes && s'.seed == s.seed && (s'.fs == s.fs || s'.fs == s.fs - {p})
  {
    var s' := GiveUp(c, s, p, line, err).value;
    if !c.force || (err.Some? && err.value != NoEntry) {
      assert s'.reports[|s.reports|] == Report(p, Subtree, Fault);
      SettledByReport(s', p, Report(p, Subtree, Fault));
    } else if err == None {
      SettledByRemoval(c, s, s', p);
    } else {
      SettledByAbsence(c, s, p);
    }
  }

  /**
   * A step at directory `d` keeps every path covered, provided that what it stops
   * covering is handed on or settled.
   */
  lemma CoverMove(c: Config, s: State, s': State, d: Path)
    requires Coverage(c, s) && Later(s, s') && d in s.nodes && d in s'.nodes && d != []
    requires s'.nodes == s.nodes[d := s'.nodes[d]] && s'.seed == s.seed
    requires Unscanned(s.nodes[d].at) && !Unscanned(s'.nodes[d].at) ==>
      forall p | p in s'.fs && d < p :: p[|d|] in Names(s'.nodes[d].at) || Explained(s', p)
    requires SelfAhead(s.nodes[d].at) && !SelfAhead(s'.nodes[d].at) ==> d in s'.fs ==> Explained(s', d)
    requires forall name | name in Names(s.nodes[d].at) - Names(s'.nodes[d].at) :: Settled(s', d + [name])
    ensures Coverage(c, s')
  {
    forall p | p in s'.fs && UnderOperand(c, p) ensures Covered(c, s', p) || Explained(s', p) {
      CoverMovePath(c, s, s', d, p);
    }
  }

  lemma CoverMovePath(c: Config, s: State, s': State, d: Path, p: Path)
    requires Later(s, s') && d in s.nodes && d in s'.nodes && d != []
    requires s'.nodes == s.nodes[d := s'.nodes[d]] && s'.seed == s.seed
    requires Unscanned(s.nodes[d].at) && !Unscanned(s'.nodes[d].at) ==>
      forall p | p in s'.fs && d < p :: p[|d|] in Names(s'.nodes[d].at) || Explained(s', p)
    requires SelfAhead(s.nodes[d].at) && !SelfAhead(s'.nodes[d].at) ==> d in s'.fs ==> Explained(s', d)
    requires forall name | name in Names(s.nodes[d].at) - Names(s'.nodes[d].at) :: Settled(s', d + [name])
    requires p in s'.fs && (Covered(c, s, p) || Explained(s, p))
    ensures Covered(c, s', p) || Explained(s', p)
  {
    if Explained(s, p) {
      ExplainedLater(s, s', p);
    } else if p in s.nodes && SelfAhead(s.nodes[p].at) {
    } else {
      var k :| 1 <= k <= |p| && InPlay(c, s, p[..k]);
      var q := p[..k];
      assert k == |p| ==> q == p;
      if q == d && q in s.nodes && Unscanned(s.nodes[q].at) && !Unscanned(s'.nodes[q].at) {
        if k < |p| && !Explained(s', p) {
          assert Parent(p[..k + 1]) == d && Last(p[..k + 1]) == p[k];
          assert InPlay(c, s', p[..k + 1]);
        }
      } else if |q| > 1 && Parent(q) == d && Last(q) in Names(s.nodes[d].at) - Names(s'.nodes[d].at) {
        PathSplit(q);
        assert Settled(s', q);
      } else {
        assert InPlay(c, s', q);
      }
    }
  }

  /** A new child takes over from its entry. */
  lemma CoverCreate(c: Config, s: State, s': State, p: Path, name: Name, open: bool)
    requires Coverage(c, s) && Creates(c, s, s', p, name, open)
    requires s'.reports == s.reports && s'.silent == s.silent
    requires p + [name] !in s.nodes && p != p + [name]
    ensures Coverage(c, s')
  {
    var child := p + [name];
    forall q | q in s'.fs && UnderOperand(c, q) ensures Covered(c, s', q) || Explained(s', q) {
      if Explained(s, q) {
        ExplainedLater(s, s', q);
      } else if q in s.nodes && SelfAhead(s.nodes[q].at) {
        assert q in s'.nodes;
      } else {
        var k :| 1 <= k <= |q| && InPlay(c, s, q[..k]);
        var r := q[..k];
        if |r| > 1 { PathSplit(r); }
        assert InPlay(c, s', r);
      }
    }
  }

  /** Deleting a node that covers nothing any more. */
  lemma CoverDelete(c: Config, s: State, p: Path)
    requires Coverage(c, s) && p in s.nodes && (s.nodes[p].at.Dropping? || s.nodes[p].at.Removed?)
    ensures Coverage(c, Delete(s, p))
  {
    var s' := Delete(s, p);
    forall q | q in s'.fs && UnderOperand(c, q) ensures Covered(c, s', q) || Explained(s', q) {
      if Explained(s, q) {
        ExplainedLater(s, s', q);
      } else if q in s.nodes && SelfAhead(s.nodes[q].at) {
      } else {
        var k :| 1 <= k <= |q| && InPlay(c, s, q[..k]);
        assert InPlay(c, s', q[..k]);
      }
    }
  }

  /** The main thread goes on to the next operand once this one is settled or has a node. */
  lemma CoverSeed(c: Config, s: State, s': State)
    requires Coverage(c, s) && Later(s, s') && s.seed < |c.operands| && s.seed <= s'.seed <= s.seed + 1
    requires var p := [c.operands[s.seed]];
      && (s'.nodes == s.nodes || (p !in s.nodes && p in s'.nodes && Unscanned(s'.nodes[p].at) && s'.nodes == s.nodes[p := s'.nodes[p]]))
      && (s'.seed == s.seed || Settled(s', p) || (p in s'.nodes && Unscanned(s'.nodes[p].at)))
    ensures Coverage(c, s')
  {
    var p := [c.operands[s.seed]];
    forall q | q in s'.fs && UnderOperand(c, q) ensures Covered(c, s', q) || Explained(s', q) {
      if Explained(s, q) {
        ExplainedLater(s, s', q);
      } else if q in s.nodes && SelfAhead(s.nodes[q].at) {
        assert q in s'.nodes;
      } else {
        var k :| 1 <= k <= |q| && InPlay(c, s, q[..k]);
        var r := q[..k];
        if r == p && !InPlay(c, s', r) {
          assert Settled(s', p);
        } else {
          assert InPlay(c, s', r);
        }
      }
    }
  }

  // ---- Every step ----

  lemma ScanCover(c: Config, s: State, s': State, p: Path, name: Name)
    requires Coverage(c, s) && Later(s, s') && p in s.nodes && p in s'.nodes && p != []
    requires s'.nodes == s.nodes[p := s.nodes[p].(at := s'.nodes[p].at)] && s'.seed == s.seed
    requires InScan(s.nodes[p].at) && InScan(s'.nodes[p].at)
    requires Names(s.nodes[p].at) - Names(s'.nodes[p].at) <= {name}
    requires name in Names(s.nodes[p].at) - Names(s'.nodes[p].at) ==> Settled(s', p + [name])
    ensures Coverage(c, s')
  {
    hide Coverage, Names, Settled, Later;
    CoverMove(c, s, s', p);
  }

  lemma EntryStatCover(c: Config, s: State, p: Path, choice: Choice)
    requires Family(c, s) && Coverage(c, s) && p in s.nodes && s.nodes[p].at.Handling? && s.nodes[p].at.entry.Stat?
    ensures Coverage(c, HandleEntry(c, s, p, choice))
  {
    hide Family, NodeOk, RefsOk, FsOk, Coverage, HasChild, Settled, GiveUp, Render;
    InHand(c, s, p);
    NonEmpty(c, s, p);
    var s', name := HandleEntry(c, s, p, choice), s.nodes[p].at.name;
    if s' != s {
      if choice.err == Some(NoEntry) { SettledByAbsence(c, s, p + [name]); SettledLater(s, s', p + [name]); }
      else if choice.err != None {
        var r := Report(p + [name], Subtree, Fault);
        assert s'.reports[|s.reports|] == r;
        SettledByReport(s', p + [name], r);
      }
      ScanCover(c, s, s', p, name);
    }
  }

  lemma UnlinkSettles(c: Config, s: State, p: Path, choice: Choice)
    requires Family(c, s) && Tree(c) && p in s.nodes && s.nodes[p].at.Handling? && s.nodes[p].at.entry.Unlink?
    requires HandleEntry(c, s, p, choice) != s
    ensures Settled(HandleEntry(c, s, p, choice), p + [s.nodes[p].at.name])
  {
    hide Family, NodeOk, RefsOk, FsOk, HasChild, Settled, Tree, GiveUp, Render;
    InHand(c, s, p);
    EntryThere(c, s, p);
    var s', q := HandleEntry(c, s, p, choice), p + [s.nodes[p].at.name];
    FilesAreLeaves(c, s, q);
    if choice.err == None { SettledByRemoval(c, s, s', q); }
    else if choice.err == Some(NoEntry) { SettledByAbsence(c, s, q); SettledLater(s, s', q); }
    else {
      var r := Report(q, Itself, Fault);
      assert s'.reports[|s.reports|] == r && Blames(r, q);
      SettledLeaf(c, s, s', q);
    }
  }

  lemma EntryUnlinkCover(c: Config, s: State, p: Path, choice: Choice)
    requires Family(c, s) && Coverage(c, s) && Tree(c)
    requires p in s.nodes && s.nodes[p].at.Handling? && s.nodes[p].at.entry.Unlink?
    ensures Coverage(c, HandleEntry(c, s, p, choice))
  {
    hide Family, Coverage, Possible, Settled, Tree, GiveUp, Render;
    var s' := HandleEntry(c, s, p, choice);
    if s' != s {
      UnlinkSettles(c, s, p, choice);
      NonEmpty(c, s, p);
      ScanCover(c, s, s', p, s.nodes[p].at.name);
    }
  }

  /** A step that leaves the same entries to be dealt with. */
  lemma CoverStill(c: Config, s: State, s': State, p: Path)
    requires Coverage(c, s) && Later(s, s') && p in s.nodes && p in s'.nodes && p != []
    requires s'.nodes == s.nodes[p := s'.nodes[p]] && s'.seed == s.seed
    requires Names(s'.nodes[p].at) == Names(s.nodes[p].at)
    requires Unscanned(s.nodes[p].at) == Unscanned(s'.nodes[p].at) && SelfAhead(s'.nodes[p].at)
    ensures Coverage(c, s')
  {
    hide Coverage, Names, Settled, Later, Unscanned;
    CoverMove(c, s, s', p);
  }

  lemma EntryOpenCover(c: Config, s: State, p: Path, choice: Choice)
    requires Family(c, s) && Coverage(c, s) && p in s.nodes && s.nodes[p].at.Handling?
    requires var entry := s.nodes[p].at.entry; entry.CheckLimit? || entry.ChildReserved? || entry.ChildRefusing?
    ensures Coverage(c, HandleEntry(c, s, p, choice))
  {
    hide Family, Coverage, Possible, Render, Retryable, GiveUp;
    NonEmpty(c, s, p);
    var s' := HandleEntry(c, s, p, choice);
    if s' != s { CoverStill(c, s, s', p); }
  }

  lemma EntryRefusedCover(c: Config, s: State, p: Path, choice: Choice)
    requires Family(c, s) && Coverage(c, s) && p in s.nodes && s.nodes[p].at.Handling? && s.nodes[p].at.entry.ChildRefused?
    ensures Coverage(c, HandleEntry(c, s, p, choice))
  {
    hide Family, NodeOk, RefsOk, FsOk, Coverage, GiveUp, Settled;
    InHand(c, s, p);
    NonEmpty(c, s, p);
    var s', name := HandleEntry(c, s, p, choice), s.nodes[p].at.name;
    var err := if choice.Answer? then choice.err else Some(OtherError(0));
    var after := GiveUp(c, s, p + [name], Render(p) + "/" + name, err);
    if after.Some? {
      GiveUpSettles(c, s, p + [name], Render(p) + "/" + name, err);
      SettledLater(after.value, s', p + [name]);
      ScanCover(c, s, s', p, name);
    }
  }

  lemma EntryNewCover(c: Config, s: State, p: Path, choice: Choice)
    requires Family(c, s) && Coverage(c, s) && p in s.nodes && s.nodes[p].at.Handling? && s.nodes[p].at.entry.ChildNew?
    ensures Coverage(c, HandleEntry(c, s, p, choice))
  {
    hide Family, Coverage, Render, GiveUp, Possible;
    NoNodeYet(c, s, p);
    var Handling(unread, name, entry) := s.nodes[p].at;
    CoverCreate(c, s, HandleEntry(c, s, p, choice), p, name, entry.open);
  }

  lemma EntrySubmitCover(c: Config, s: State, p: Path, choice: Choice)
    requires Family(c, s) && Coverage(c, s) && p in s.nodes && s.nodes[p].at.Handling? && s.nodes[p].at.entry.ChildSubmit?
    ensures Coverage(c, HandleEntry(c, s, p, choice))
  {
    hide Family, Coverage, Render;
    var Handling(unread, name, entry) := s.nodes[p].at;
    var child := p + [name];
    NonEmpty(c, s, p);
    Unborn(c, s, p);
    assert child != p by { assert |child| != |p|; }
    var s1 := Moved(s, p, Scanning(unread));
    CoverStill(c, s, s1, p);
    CoverStill(c, s1, Moved(s1, child, if s.nodes[child].open then Queued else Parked), child);
  }

  /** Where a scan starts, every entry that is there is to be read. */
  lemma StartCovers(c: Config, s: State, p: Path)
    requires FsOk(c, s) && p != []
    ensures forall q | q in s.fs && p < q :: q[|p|] in Children(s.fs, p)
  {
    forall q | q in s.fs && p < q ensures q[|p|] in Children(s.fs, p) { EntryBelow(c, s, p, q); }
  }

  lemma OpeningCover(c: Config, s: State, p: Path, choice: Choice)
    requires Family(c, s) && Coverage(c, s) && p in s.nodes
    requires var at := s.nodes[p].at; at.Opening? || at.Reserved? || at.Refusing?
    ensures Coverage(c, AdvanceDir(c, s, p, choice))
  {
    hide Family, NodeOk, RefsOk, FsOk, Coverage, Possible, Children, HandleEntry, Covered, GiveUp, Render, Retryable;
    InHand(c, s, p);
    assert p != [] by { NonEmpty(c, s, p); }
    StartCovers(c, s, p);
    var s' := AdvanceDir(c, s, p, choice);
    if s' != s { CoverMove(c, s, s', p); }
  }

  lemma OpenFailedCover(c: Config, s: State, p: Path, choice: Choice)
    requires Family(c, s) && Coverage(c, s) && p in s.nodes && s.nodes[p].at.OpenFailed?
    ensures Coverage(c, AdvanceDir(c, s, p, choice))
  {
    hide Family, NodeOk, RefsOk, FsOk, Coverage, GiveUp, HandleEntry;
    InHand(c, s, p);
    NonEmpty(c, s, p);
    var s' := AdvanceDir(c, s, p, choice);
    var err := if choice.Answer? then choice.err else Some(OtherError(0));
    var after := GiveUp(c, s, p, Render(p), err);
    if after.Some? {
      GiveUpSettles(c, s, p, Render(p), err);
      SettledLater(after.value, s', p);
      CoverMove(c, s, s', p);
    }
  }

  lemma ScanningCover(c: Config, s: State, p: Path, choice: Choice)
    requires Family(c, s) && Coverage(c, s) && p in s.nodes && s.nodes[p].at.Scanning?
    ensures Coverage(c, AdvanceDir(c, s, p, choice))
  {
    hide Family, Coverage, HandleEntry;
    NonEmpty(c, s, p);
    var s', unread := AdvanceDir(c, s, p, choice), s.nodes[p].at.unread;
    if s'.reports != s.reports {
      ReadStopped(s, s', p, unread);
    }
    hide Settled;
    if s' != s { CoverMove(c, s, s', p); }
  }

  /** A read that failed is reported for every entry not read by then. */
  lemma ReadStopped(s: State, s': State, p: Path, unread: set<Name>)
    requires s'.reports == s.reports + [Report(p, Beneath(unread), Fault)]
    ensures forall name | name in unread :: Settled(s', p + [name])
  {
    var r := Report(p, Beneath(unread), Fault);
    assert s'.reports[|s.reports|] == r;
    forall name, q | name in unread && q in s'.fs && p + [name] <= q ensures Explained(s', q) { assert Blames(r, q); }
  }

  lemma RemovingExplains(c: Config, s: State, p: Path, choice: Choice)
    requires p in s.nodes && s.nodes[p].at.Removing? && AdvanceDir(c, s, p, choice) != s
    ensures p in AdvanceDir(c, s, p, choice).fs ==> Explained(AdvanceDir(c, s, p, choice), p)
  {
    hide HandleEntry, HasChild, Render, GiveUp;
    var s' := AdvanceDir(c, s, p, choice);
    if s'.reports != s.reports {
      var r := s'.reports[|s.reports|];
      assert r in s'.reports && Blames(r, p);
    }
  }

  lemma RemovingCover(c: Config, s: State, p: Path, choice: Choice)
    requires Family(c, s) && Coverage(c, s) && p in s.nodes && s.nodes[p].at.Removing?
    ensures Coverage(c, AdvanceDir(c, s, p, choice))
  {
    hide Family, Coverage, Possible, GiveUp, Render, HandleEntry, Explained, Settled;
    NonEmpty(c, s, p);
    var s' := AdvanceDir(c, s, p, choice);
    if s' != s {
      RemovingExplains(c, s, p, choice);
      CoverMove(c, s, s', p);
    }
  }

  /** Closing the directory, or dropping its scan's reference. */
  lemma ClosingCover(c: Config, s: State, p: Path, choice: Choice)
    requires Family(c, s) && Coverage(c, s) && p in s.nodes && (s.nodes[p].at.Closing? || s.nodes[p].at.ScanDone?)
    ensures Coverage(c, AdvanceDir(c, s, p, choice))
  {
    hide Family, NodeOk, RefsOk, FsOk, Coverage, HandleEntry;
    InHand(c, s, p);
    NonEmpty(c, s, p);
    CoverMove(c, s, AdvanceDir(c, s, p, choice), p);
  }

  lemma AdvanceCover(c: Config, s: State, p: Path, choice: Choice)
    requires Family(c, s) && Coverage(c, s) && p in s.nodes && Tree(c)
    ensures Coverage(c, AdvanceDir(c, s, p, choice))
  {
    hide Family, Coverage, Tree, HandleEntry, Delete, DropReference, GiveUp, Children, Possible;
    var at := s.nodes[p].at;
    if at.Handling? {
      if at.entry.Stat? { EntryStatCover(c, s, p, choice); }
      else if at.entry.Unlink? { EntryUnlinkCover(c, s, p, choice); }
      else if at.entry.ChildRefused? { EntryRefusedCover(c, s, p, choice); }
      else if at.entry.ChildNew? { EntryNewCover(c, s, p, choice); }
      else if at.entry.ChildSubmit? { EntrySubmitCover(c, s, p, choice); }
      else { EntryOpenCover(c, s, p, choice); }
    } else if at.Opening? || at.Reserved? || at.Refusing? { OpeningCover(c, s, p, choice); }
    else if at.OpenFailed? { OpenFailedCover(c, s, p, choice); }
    else if at.Scanning? { ScanningCover(c, s, p, choice); }
    else if at.Removing? { RemovingCover(c, s, p, choice); }
    else if at.Closing? || at.ScanDone? { ClosingCover(c, s, p, choice); }
    else if at.Dropping? || at.Removed? { CoverDelete(c, s, p); }
  }

  lemma AcquireCover(c: Config, s: State, p: Path)
    requires Family(c, s) && Coverage(c, s) && p in s.nodes
    ensures Coverage(c, AcquireDir(s, p))
  {
    InHand(c, s, p);
    StartCovers(c, s, p);
    hide Family, NodeOk, RefsOk, FsOk, Coverage, Children;
    if AcquireDir(s, p) != s { CoverMove(c, s, AcquireDir(s, p), p); }
  }

  lemma ClimbCover(c: Config, s: State, p: Path)
    requires Family(c, s) && Coverage(c, s) && p in s.climbing
    ensures Coverage(c, ClimbFrom(s, p))
  {
    ClimbCount(c, s, p);
    InHand(c, s, Parent(p));
    hide Family, NodeOk, RefsOk, FsOk, Coverage, Claims;
    var s1 := s.(climbing := s.climbing - {p});
    CoverMove(c, s, s1.(nodes := s.nodes[Parent(p) := s.nodes[Parent(p)]]), Parent(p));
    assert s.nodes[Parent(p) := s.nodes[Parent(p)]] == s.nodes;
    CoverMove(c, s1, ClimbFrom(s, p), Parent(p));
  }

  lemma SeedStatCover(c: Config, s: State, choice: Choice)
    requires Family(c, s) && Coverage(c, s) && s.seed < |c.operands| && s.seedAt.SeedStat?
    ensures Coverage(c, SeedNext(c, s, choice))
  {
    hide Family, Coverage, FsOk, HasChild, GiveUp, Render;
    SeedInHand(c, s);
    var s', p := SeedNext(c, s, choice), [c.operands[s.seed]];
    if s'.reports != s.reports {
      var r := s'.reports[|s.reports|];
      assert r in s'.reports;
      SettledByReport(s', p, r);
    } else if s'.seed != s.seed {
      if p in s.fs {
        assert p in s'.silent;
        assert Settled(s', p);
      } else {
        SettledByAbsence(c, s, p);
        SettledLater(s, s', p);
      }
    }
    hide Settled;
    CoverSeed(c, s, s');
  }

  lemma SeedUnlinkCover(c: Config, s: State, choice: Choice)
    requires Family(c, s) && Coverage(c, s) && Tree(c) && s.seed < |c.operands| && s.seedAt.SeedUnlink?
    ensures Coverage(c, SeedNext(c, s, choice))
  {
    hide Family, Coverage, FsOk, HasChild, Tree, Settled, GiveUp, Render;
    SeedInHand(c, s);
    var s', p := SeedNext(c, s, choice), [c.operands[s.seed]];
    if s'.seed != s.seed {
      FilesAreLeaves(c, s, p);
      if s'.reports != s.reports {
        var r := s'.reports[|s.reports|];
        assert r in s'.reports && Blames(r, p);
        SettledLeaf(c, s, s', p);
      } else if s'.fs != s.fs {
        SettledByRemoval(c, s, s', p);
      } else {
        SettledByAbsence(c, s, p);
        SettledLater(s, s', p);
      }
    }
    CoverSeed(c, s, s');
  }

  lemma RmdirSettles(c: Config, s: State, choice: Choice)
    requires FsOk(c, s) && s.seed < |c.operands| && s.seedAt.SeedRmdir? && SeedNext(c, s, choice).seed != s.seed
    ensures Settled(SeedNext(c, s, choice), [c.operands[s.seed]])
  {
    hide FsOk, HasChild, Settled, GiveUp, Render;
    var s', p := SeedNext(c, s, choice), [c.operands[s.seed]];
    if s'.reports != s.reports {
      var r := s'.reports[|s.reports|];
      assert r in s'.reports;
      SettledByReport(s', p, r);
    } else if s'.fs != s.fs {
      SettledByRemoval(c, s, s', p);
    } else {
      SettledByAbsence(c, s, p);
      SettledLater(s, s', p);
    }
  }

  lemma SeedRmdirCover(c: Config, s: State, choice: Choice)
    requires Family(c, s) && Coverage(c, s) && s.seed < |c.operands| && s.seedAt.SeedRmdir?
    ensures Coverage(c, SeedNext(c, s, choice))
  {
    hide Family, Coverage, FsOk, Possible, Settled, GiveUp, Render;
    SeedInHand(c, s);
    if SeedNext(c, s, choice).seed != s.seed { RmdirSettles(c, s, choice); }
    CoverSeed(c, s, SeedNext(c, s, choice));
  }

  lemma SeedRefusedCover(c: Config, s: State, choice: Choice)
    requires Family(c, s) && Coverage(c, s) && s.seed < |c.operands| && s.seedAt.SeedRefused?
    ensures Coverage(c, SeedNext(c, s, choice))
  {
    hide Family, Coverage, FsOk, HasChild, Settled, GiveUp;
    SeedInHand(c, s);
    var s', p, line := SeedNext(c, s, choice), [c.operands[s.seed]], c.operands[s.seed];
    var err := if choice.Answer? then choice.err else Some(OtherError(0));
    var after := GiveUp(c, s, p, line, err);
    if after.Some? {
      GiveUpSettles(c, s, p, line, err);
      SettledLater(after.value, s', p);
      CoverSeed(c, s, s');
    }
  }

  lemma SeedOpenCover(c: Config, s: State, choice: Choice)
    requires Coverage(c, s) && s.seed < |c.operands| && (s.seedAt.SeedReserve? || s.seedAt.SeedOpen?)
    ensures Coverage(c, SeedNext(c, s, choice))
  {
    hide Coverage, Settled, Possible, GiveUp;
    CoverSeed(c, s, SeedNext(c, s, choice));
  }

  lemma SeedSubmitCover(c: Config, s: State, choice: Choice)
    requires Family(c, s) && Coverage(c, s) && s.seed < |c.operands| && s.seedAt.SeedSubmit?
    ensures Coverage(c, SeedNext(c, s, choice))
  {
    hide Family, Coverage, Settled, Possible, GiveUp;
    NoRootYet(c, s);
    CoverSeed(c, s, SeedNext(c, s, choice));
  }

  lemma SeedCover(c: Config, s: State, choice: Choice)
    requires Family(c, s) && Coverage(c, s) && Tree(c) && s.seed < |c.operands|
    ensures Coverage(c, SeedNext(c, s, choice))
  {
    hide Family, Coverage, Tree, SeedNext;
    if s.seedAt.SeedStat? { SeedStatCover(c, s, choice); }
    else if s.seedAt.SeedUnlink? { SeedUnlinkCover(c, s, choice); }
    else if s.seedAt.SeedRmdir? { SeedRmdirCover(c, s, choice); }
    else if s.seedAt.SeedRefused? { SeedRefusedCover(c, s, choice); }
    else if s.seedAt.SeedSubmit? { SeedSubmitCover(c, s, choice); }
    else { SeedOpenCover(c, s, choice); }
  }

  lemma StepCover(c: Config, s: State, act: Action)
    requires Family(c, s) && Coverage(c, s) && ValidConfig(c)
    ensures Coverage(c, Step(c, s, act))
  {
    hide Family, Coverage, AdvanceDir, AcquireDir, ClimbFrom, SeedNext;
    match act
    case Seed(choice) => if s.seed < |c.operands| { SeedCover(c, s, choice); }
    case Acquire(p) => if p in s.nodes { AcquireCover(c, s, p); }
    case Advance(p, choice) => if p in s.nodes { AdvanceCover(c, s, p, choice); }
    case Climb(p) => if p in s.climbing && p != [] { ClimbCover(c, s, p); }
  }

  lemma InitialCover(c: Config)
    requires ValidConfig(c)
    ensures Coverage(c, Initial(c))
  {
    var s := Initial(c);
    forall p | p in s.fs && UnderOperand(c, p) ensures Covered(c, s, p) {
      assert p[..1] == [p[0]];
      assert InPlay(c, s, p[..1]);
    }
  }
}
