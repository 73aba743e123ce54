/**
 * What holds of the directory nodes in every reachable state of the walk: reference
 * counts, who may be allocated when, and which entries are still to be handled.
 */
module WalkFamily {
  import opened Common
  import opened Walk

  /** Not scanned yet: everything below is still as it was. */
  ghost predicate Unscanned(at: At) {
    at.Unsubmitted? || at.Queued? || at.Parked? || at.Opening? || at.Reserved? || at.Refusing? || at.OpenFailed?
  }

  /** The positions in which a directory may have children in play. */
  ghost predicate Scanned(at: At) {
    at.Scanning? || at.Handling? || at.Closing? || at.ScanDone? || at.Waiting?
  }

  /** Entries whose fate the scan has still to decide. */
  ghost function Names(at: At): set<Name> {
    match at
    case Scanning(unread) => unread
    case Handling(unread, name, entry) => if entry.ChildSubmit? then unread else unread + {name}
    case _ => {}
  }

  /** The scan's own reference is still held. */
  ghost predicate OwnReference(at: At) {
    !at.Waiting? && !at.Removing? && !at.Removed?
  }

  ghost predicate Submits(at: At, name: Name) {
    at.Handling? && at.name == name && at.entry.ChildSubmit?
  }

  /** The children that hold a reference: live nodes, and deleted ones whose drop is under way. */
  ghost function Claims(s: State, p: Path): set<Path> {
    set q | q in s.nodes.Keys + s.climbing && |q| > 1 && Parent(q) == p
  }

  ghost predicate FsOk(c: Config, s: State) {
    && (forall p | p in s.fs :: p in c.kinds)
    && (forall p | p in s.fs && |p| > 1 :: Parent(p) in s.fs)
  }

  /** Whether the node holds an open descriptor follows from where it stands. */
  ghost predicate OpenOk(n: DirNode) {
    && (n.at.Queued? || n.at.Scanning? || n.at.Handling? || n.at.Closing? ==> n.open)
    && (n.open ==> n.at.Unsubmitted? || n.at.Queued? || n.at.Scanning? || n.at.Handling? || n.at.Closing?)
  }

  ghost predicate EntryOk(c: Config, s: State, p: Path, at: At) {
    at.Handling? ==>
      var child := p + [at.name];
      && at.name !in at.unread
      && child in c.kinds
      && (at.entry.Unlink? ==> c.kinds[child].File?)
      && (!at.entry.Stat? && !at.entry.Unlink? ==> c.kinds[child].Dir?)
      && (at.entry.ChildSubmit? ==> child in s.nodes)
  }

  /** A node's parent is there, scanned, and has this entry behind it. */
  ghost predicate ParentOk(s: State, p: Path)
    requires p in s.nodes
  {
    |p| > 1 ==>
      && Parent(p) in s.nodes
      && Scanned(s.nodes[Parent(p)].at)
      && Last(p) !in Names(s.nodes[Parent(p)].at)
  }

  ghost predicate NamesOk(s: State, p: Path)
    requires p in s.nodes
  {
    forall name | name in Names(s.nodes[p].at) :: p + [name] in s.fs && p + [name] !in s.born
  }

  ghost predicate RefsOk(s: State, p: Path)
    requires p in s.nodes
  {
    var n := s.nodes[p];
    && n.refs == (if OwnReference(n.at) then 1 else 0) + |Claims(s, p)|
    && (n.at.Waiting? ==> n.refs >= 1)
    && (n.at.Removing? || n.at.Removed? ==> n.refs == 0)
  }

  ghost predicate NodeOk(c: Config, s: State, p: Path)
    requires p in s.nodes
  {
    var n := s.nodes[p];
    && p != [] && p in c.kinds && c.kinds[p].Dir?
    && (p in s.fs || n.at.Dropping? || n.at.Removed?)
    && ParentOk(s, p)
    && (n.at.Unsubmitted? <==> |p| > 1 && Parent(p) in s.nodes && Submits(s.nodes[Parent(p)].at, Last(p)))
    && EntryOk(c, s, p, n.at)
    && NamesOk(s, p)
    && OpenOk(n)
    && (Unscanned(n.at) ==> forall name :: p + [name] !in s.born)
  }

  ghost predicate ClimbOk(s: State, p: Path) {
    |p| > 1 && p !in s.nodes && Parent(p) in s.nodes && Scanned(s.nodes[Parent(p)].at) && p in s.born
      && Last(p) !in Names(s.nodes[Parent(p)].at)
  }

  /** Every node is made once and deleted at most once. */
  ghost predicate LivesOk(s: State) {
    && (forall p | p in s.nodes :: p in s.born)
    && (forall p | p in s.born && |p| > 1 :: Parent(p) in s.born)
    && (forall p | p in s.deleted :: p in s.born && p !in s.nodes)
    && (forall p | p in s.born && p !in s.nodes :: p in s.deleted)
    && (forall i, j | 0 <= i < j < |s.deleted| :: s.deleted[i] != s.deleted[j])
  }

  ghost predicate SeedOk(c: Config, s: State) {
    && s.seed <= |c.operands|
    && (forall i | s.seed <= i < |c.operands| :: [c.operands[i]] !in s.born)
    && (s.seed < |c.operands| ==> SeedAtOk(c, s, [c.operands[s.seed]]))
  }

  ghost predicate SeedAtOk(c: Config, s: State, p: Path) {
    && (!s.seedAt.SeedStat? ==> p in s.fs && p in c.kinds)
    && (s.seedAt.SeedUnlink? ==> c.kinds[p].File?)
    && (!s.seedAt.SeedStat? && !s.seedAt.SeedUnlink? ==> c.kinds[p].Dir?)
  }

  ghost predicate Family(c: Config, s: State) {
    && FsOk(c, s)
    && (forall p | p in s.nodes :: NodeOk(c, s, p))
    && (forall p | p in s.nodes :: RefsOk(s, p))
    && (forall p | p in s.climbing :: ClimbOk(s, p))
    && LivesOk(s)
    && SeedOk(c, s)
  }

  lemma PathSplit(p: Path)
    requires p != []
    ensures p == Parent(p) + [Last(p)]
  {
  }

  lemma SameClaims(s: State, s': State, p: Path)
    requires s'.nodes.Keys == s.nodes.Keys && s'.climbing == s.climbing
    ensures Claims(s', p) == Claims(s, p)
  {
  }

  /** A path with nothing below it may go without orphaning anything. */
  lemma FsKept(c: Config, s: State, s': State, r: Path)
    requires FsOk(c, s) && s'.fs == s.fs - {r} && !HasChild(s.fs, r)
    ensures FsOk(c, s')
  {
    forall p | p in s'.fs && |p| > 1 ensures Parent(p) in s'.fs {
      PathSplit(p);
      assert Parent(p) == r ==> HasChild(s.fs, r);
    }
  }

  lemma FilesAreLeaves(c: Config, s: State, p: Path)
    requires Tree(c) && FsOk(c, s) && p in c.kinds && c.kinds[p].File?
    ensures !HasChild(s.fs, p)
  {
    forall name ensures p + [name] !in s.fs {
      var q := p + [name];
      assert |q| > 1 && Parent(q) == p;
    }
  }

  ghost function AsSet(p: Option<Path>): set<Path> {
    if p.Some? then {p.value} else {}
  }

  /** What a worker in directory `p` may remove: an entry that has no node, or `p` itself. */
  ghost predicate UnderHand(s: State, p: Path, r: Path) {
    r == p || (|r| > 1 && Parent(r) == p && r !in s.nodes)
  }

  /**
   * The step of one worker within its directory `p`: at most `p`'s position and flags
   * change, and at most one path `gone`, `p` or an entry of it, leaves the tree.
   */
  ghost predicate Moves(c: Config, s: State, s': State, p: Path, gone: Option<Path>) {
    && p in s.nodes && p in s'.nodes && s'.nodes == s.nodes[p := s'.nodes[p]]
    && s'.climbing == s.climbing && s'.born == s.born && s'.deleted == s.deleted
    && s'.seed == s.seed && s'.seedAt == s.seedAt
    && s'.fs == s.fs - AsSet(gone)
    && (gone.Some? ==> !HasChild(s.fs, gone.value) && UnderHand(s, p, gone.value))
    && (gone == Some(p) ==> s'.nodes[p].at.Dropping? || s'.nodes[p].at.Removed?)
    && MoveOk(c, s, s', p)
  }

  ghost predicate MoveOk(c: Config, s: State, s': State, p: Path)
    requires p in s.nodes && p in s'.nodes
  {
    var n, n' := s.nodes[p], s'.nodes[p];
    && !n.at.Unsubmitted? && !n'.at.Unsubmitted?
    && (forall name :: Submits(n'.at, name) <==> Submits(n.at, name))
    && n'.refs == n.refs && OwnReference(n'.at) == OwnReference(n.at)
    && (n'.at.Waiting? <==> n.at.Waiting?)
    && (n'.at.Removing? || n'.at.Removed? ==> n.at.Removing? || n.at.Removed?)
    && (Claims(s, p) != {} ==> Scanned(n'.at))
    && (Names(n'.at) <= Names(n.at) || Unscanned(n.at))
    && (forall name | name in Names(n'.at) :: p + [name] in s'.fs)
    && (p in s'.fs || n'.at.Dropping? || n'.at.Removed?)
    && (Unscanned(n'.at) ==> Unscanned(n.at))
    && OpenOk(n') && EntryOk(c, s', p, n'.at)
  }

  lemma MoveNodes(c: Config, s: State, s': State, p: Path, gone: Option<Path>)
    requires Family(c, s) && Moves(c, s, s', p, gone)
    ensures forall q | q in s'.nodes :: NodeOk(c, s', q)
  {
    forall q | q in s'.nodes ensures NodeOk(c, s', q) { MoveNode(c, s, s', p, gone, q); }
  }

  lemma MoveNode(c: Config, s: State, s': State, p: Path, gone: Option<Path>, q: Path)
    requires Family(c, s) && Moves(c, s, s', p, gone) && q in s.nodes
    ensures NodeOk(c, s', q)
  {
    hide RefsOk, ClimbOk, FsOk, SeedOk, LivesOk, NamesOk, ParentOk;
    assert NodeOk(c, s, q) && NodeOk(c, s, p);
    MoveNames(c, s, s', p, gone, q);
    MoveParent(c, s, s', p, gone, q);
  }

  lemma MoveParent(c: Config, s: State, s': State, p: Path, gone: Option<Path>, q: Path)
    requires Family(c, s) && Moves(c, s, s', p, gone) && q in s.nodes
    ensures ParentOk(s', q)
  {
    hide RefsOk, ClimbOk, FsOk, SeedOk, LivesOk, NamesOk, EntryOk, OpenOk;
    assert NodeOk(c, s, q);
    if |q| > 1 && Parent(q) == p { assert q in Claims(s, p); }
  }

  lemma MoveNames(c: Config, s: State, s': State, p: Path, gone: Option<Path>, q: Path)
    requires Family(c, s) && Moves(c, s, s', p, gone) && q in s.nodes
    ensures NamesOk(s', q)
  {
    hide RefsOk, ClimbOk, FsOk, SeedOk, LivesOk;
    assert NodeOk(c, s, q) && NodeOk(c, s, p);
    forall name | name in Names(s'.nodes[q].at) ensures q + [name] in s'.fs && q + [name] !in s.born {
      if q != p {
        assert q + [name] in s.fs;
        assert Parent(q + [name]) == q && Last(q + [name]) == name;
      }
    }
  }

  lemma MoveRefs(c: Config, s: State, s': State, p: Path, gone: Option<Path>)
    requires Family(c, s) && Moves(c, s, s', p, gone)
    ensures forall q | q in s'.nodes :: RefsOk(s', q)
    ensures forall q | q in s'.climbing :: ClimbOk(s', q)
  {
    forall q | q in s'.nodes ensures RefsOk(s', q) {
      assert RefsOk(s, q);
      SameClaims(s, s', q);
    }
    forall q | q in s'.climbing ensures ClimbOk(s', q) {
      assert ClimbOk(s, q);
      if Parent(q) == p {
        assert q in Claims(s, p);
        assert NodeOk(c, s, p);
      }
    }
  }

  lemma MoveTree(c: Config, s: State, s': State, p: Path, gone: Option<Path>)
    requires Family(c, s) && Moves(c, s, s', p, gone)
    ensures FsOk(c, s') && LivesOk(s') && SeedOk(c, s')
  {
    assert NodeOk(c, s, p);
    if gone.Some? { FsKept(c, s, s', gone.value); } else { assert s'.fs == s.fs; }
  }

  lemma MoveFamily(c: Config, s: State, s': State, p: Path, gone: Option<Path>)
    requires Family(c, s) && Moves(c, s, s', p, gone)
    ensures Family(c, s')
  {
    hide Moves, NodeOk, RefsOk, ClimbOk, FsOk, LivesOk, SeedOk;
    MoveNodes(c, s, s', p, gone);
    MoveRefs(c, s, s', p, gone);
    MoveTree(c, s, s', p, gone);
  }

  /** Only a scanned directory has children holding references. */
  lemma ClaimsMeanScanned(c: Config, s: State, p: Path)
    requires Family(c, s) && Claims(s, p) != {}
    ensures p in s.nodes && Scanned(s.nodes[p].at)
  {
    var q :| q in Claims(s, p);
    if q in s.nodes { assert NodeOk(c, s, q); } else { assert ClimbOk(s, q); }
  }

  // ---- A child is made ----

  ghost predicate Creates(c: Config, s: State, s': State, p: Path, name: Name, open: bool) {
    && p in s.nodes && s.nodes[p].at.Handling? && s.nodes[p].at.name == name && s.nodes[p].at.entry.ChildNew?
    && s'.nodes == s.nodes[p := s.nodes[p].(refs := s.nodes[p].refs + 1, at := Handling(s.nodes[p].at.unread, name, ChildSubmit))]
                          [p + [name] := DirNode(1, open, Unsubmitted)]
    && s'.born == s.born + {p + [name]}
    && s'.fs == s.fs && s'.climbing == s.climbing && s'.deleted == s.deleted
    && s'.seed == s.seed && s'.seedAt == s.seedAt
  }

  lemma CreateFamily(c: Config, s: State, s': State, p: Path, name: Name, open: bool)
    requires Family(c, s) && Creates(c, s, s', p, name, open)
    ensures Family(c, s')
  {
    hide RefsOk, ClimbOk, NodeOk, FsOk;
    assert FsOk(c, s') by { CreateTree(c, s, s', p, name, open); }
    CreateTree(c, s, s', p, name, open);
    CreateRefs(c, s, s', p, name, open);
    forall q | q in s'.nodes ensures NodeOk(c, s', q) { CreateNode(c, s, s', p, name, open, q); }
  }

  lemma CreateTree(c: Config, s: State, s': State, p: Path, name: Name, open: bool)
    requires Family(c, s) && Creates(c, s, s', p, name, open)
    ensures p != [] && p + [name] !in s.born && p + [name] !in s.nodes
    ensures Parent(p + [name]) == p && Last(p + [name]) == name && p != p + [name]
    ensures FsOk(c, s') && LivesOk(s') && SeedOk(c, s')
  {
    assert NodeOk(c, s, p);
    assert name in Names(s.nodes[p].at);
  }

  lemma CreateRefs(c: Config, s: State, s': State, p: Path, name: Name, open: bool)
    requires Family(c, s) && Creates(c, s, s', p, name, open)
    ensures forall q | q in s'.nodes :: RefsOk(s', q)
    ensures forall q | q in s'.climbing :: ClimbOk(s', q)
  {
    hide NodeOk, RefsOk, FsOk, SeedOk;
    CreateTree(c, s, s', p, name, open);
    forall q | q in s'.climbing ensures ClimbOk(s', q) { assert ClimbOk(s, q); }
    hide ClimbOk;
    forall q | q in s'.nodes ensures RefsOk(s', q) { CreateRef(c, s, s', p, name, open, q); }
  }

  lemma CreateRef(c: Config, s: State, s': State, p: Path, name: Name, open: bool, q: Path)
    requires Family(c, s) && Creates(c, s, s', p, name, open) && q in s'.nodes
    ensures RefsOk(s', q)
  {
    hide NodeOk, FsOk, SeedOk, ClimbOk, LivesOk;
    var child := p + [name];
    CreateClaims(c, s, s', p, name, open, q);
    if q == child {
      if Claims(s, child) != {} { ClaimsMeanScanned(c, s, child); }
      hide Claims;
    } else if q == p {
      hide Claims;
      assert RefsOk(s, p);
    } else {
      hide Claims;
      assert RefsOk(s, q);
    }
  }

  lemma CreateClaims(c: Config, s: State, s': State, p: Path, name: Name, open: bool, q: Path)
    requires Family(c, s) && Creates(c, s, s', p, name, open) && q in s'.nodes
    ensures p + [name] !in s.nodes && p + [name] != p
    ensures q != p ==> Claims(s', q) == Claims(s, q)
    ensures q == p ==> Claims(s', q) == Claims(s, q) + {p + [name]} && |Claims(s', q)| == |Claims(s, q)| + 1
  {
    hide NodeOk, FsOk, SeedOk, ClimbOk, RefsOk;
    CreateTree(c, s, s', p, name, open);
    ClimbersBorn(c, s);
    if q == p {
      assert p + [name] !in Claims(s, p);
      assert Claims(s', p) == Claims(s, p) + {p + [name]};
    } else {
      assert Claims(s', q) == Claims(s, q);
    }
  }

  lemma ClimbersBorn(c: Config, s: State)
    requires Family(c, s)
    ensures forall q | q in s.climbing :: q in s.born && q !in s.nodes
  {
    assert forall q | q in s.climbing :: ClimbOk(s, q);
  }

  lemma CreateNode(c: Config, s: State, s': State, p: Path, name: Name, open: bool, q: Path)
    requires Family(c, s) && Creates(c, s, s', p, name, open) && q in s'.nodes
    ensures NodeOk(c, s', q)
  {
    hide Family, NodeOk;
    if q == p + [name] { NewNode(c, s, s', p, name, open); } else { OldNode(c, s, s', p, name, open, q); }
  }

  lemma NewNode(c: Config, s: State, s': State, p: Path, name: Name, open: bool)
    requires Family(c, s) && Creates(c, s, s', p, name, open)
    ensures p + [name] in s'.nodes && NodeOk(c, s', p + [name])
  {
    hide RefsOk, ClimbOk, SeedOk;
    var child := p + [name];
    CreateTree(c, s, s', p, name, open);
    NewNodeUnscanned(c, s, s', p, name, open);
    assert NodeOk(c, s, p);
    hide Family;
    assert ParentOk(s', child);
  }

  lemma NewNodeUnscanned(c: Config, s: State, s': State, p: Path, name: Name, open: bool)
    requires Family(c, s) && Creates(c, s, s', p, name, open)
    ensures forall other :: p + [name] + [other] !in s'.born
  {
    hide NodeOk, RefsOk, ClimbOk, SeedOk, FsOk;
    var child := p + [name];
    CreateTree(c, s, s', p, name, open);
    forall other ensures child + [other] !in s'.born { assert Parent(child + [other]) == child; }
  }

  lemma OldNode(c: Config, s: State, s': State, p: Path, name: Name, open: bool, q: Path)
    requires Family(c, s) && Creates(c, s, s', p, name, open) && q in s.nodes && q != p + [name]
    ensures NodeOk(c, s', q)
  {
    hide FsOk, SeedOk, LivesOk, RefsOk, ClimbOk, ParentOk, NamesOk, EntryOk, OpenOk;
    CreateTree(c, s, s', p, name, open);
    assert NodeOk(c, s, p) && NodeOk(c, s, q);
    OldNodeParts(c, s, s', p, name, open, q);
    if |q| > 1 && Parent(q) == p && Last(q) == name { PathSplit(q); }
    forall other | q + [other] == p + [name] ensures q == p && other == name {
      assert Parent(q + [other]) == q && Last(q + [other]) == other;
    }
  }

  lemma OldNodeParts(c: Config, s: State, s': State, p: Path, name: Name, open: bool, q: Path)
    requires Family(c, s) && Creates(c, s, s', p, name, open) && q in s.nodes && q != p + [name]
    ensures ParentOk(s', q) && NamesOk(s', q) && EntryOk(c, s', q, s'.nodes[q].at) && OpenOk(s'.nodes[q])
  {
    hide FsOk, SeedOk, RefsOk, ClimbOk;
    CreateTree(c, s, s', p, name, open);
    assert NodeOk(c, s, p) && NodeOk(c, s, q);
    if |q| > 1 { PathSplit(q); }
    forall other | other in Names(s'.nodes[q].at) ensures q + [other] in s'.fs && q + [other] !in s'.born {
      assert Parent(q + [other]) == q && Last(q + [other]) == other;
    }
  }

  // ---- A child is handed to the scheduler ----

  ghost predicate Submitted(c: Config, s: State, s': State, p: Path, name: Name) {
    && p in s.nodes && Submits(s.nodes[p].at, name) && p + [name] in s.nodes
    && var child := p + [name];
    && s'.nodes == s.nodes[p := s.nodes[p].(at := Scanning(s.nodes[p].at.unread))]
                          [child := s.nodes[child].(at := if s.nodes[child].open then Queued else Parked)]
    && s'.born == s.born && s'.fs == s.fs && s'.climbing == s.climbing && s'.deleted == s.deleted
    && s'.seed == s.seed && s'.seedAt == s.seedAt
  }

  lemma SubmitFamily(c: Config, s: State, s': State, p: Path, name: Name)
    requires Family(c, s) && Submitted(c, s, s', p, name)
    ensures Family(c, s')
  {
    hide NodeOk, RefsOk, ClimbOk;
    var child := p + [name];
    assert Parent(child) == p && Last(child) == name && p != child;
    forall q | q in s'.nodes ensures NodeOk(c, s', q) { SubmitNode(c, s, s', p, name, q); }
    forall q | q in s'.nodes ensures RefsOk(s', q) { SubmitRef(c, s, s', p, name, q); }
    forall q | q in s'.climbing ensures ClimbOk(s', q) { SubmitClimb(c, s, s', p, name, q); }
    hide Submits;
    assert NodeOk(c, s, child);
  }

  lemma SubmitRef(c: Config, s: State, s': State, p: Path, name: Name, q: Path)
    requires Family(c, s) && Submitted(c, s, s', p, name) && q in s'.nodes
    ensures RefsOk(s', q)
  {
    hide FsOk, SeedOk, LivesOk, ClimbOk;
    var child := p + [name];
    assert Parent(child) == p && Last(child) == name && p != child;
    assert NodeOk(c, s, child) && RefsOk(s, q);
    SameClaims(s, s', q);
  }

  lemma SubmitClimb(c: Config, s: State, s': State, p: Path, name: Name, q: Path)
    requires Family(c, s) && Submitted(c, s, s', p, name) && q in s'.climbing
    ensures ClimbOk(s', q)
  {
    hide FsOk, SeedOk, LivesOk, RefsOk;
    var child := p + [name];
    assert p != child && Parent(child) == p && Last(child) == name;
    assert NodeOk(c, s, child) && ClimbOk(s, q);
  }

  lemma SubmitParts(c: Config, s: State, s': State, p: Path, name: Name, q: Path)
    requires Family(c, s) && Submitted(c, s, s', p, name) && q in s'.nodes
    ensures ParentOk(s', q) && EntryOk(c, s', q, s'.nodes[q].at) && NamesOk(s', q) && OpenOk(s'.nodes[q])
  {
    hide FsOk, RefsOk, ClimbOk, SeedOk, LivesOk;
    assert NodeOk(c, s, p + [name]) && NodeOk(c, s, p) && NodeOk(c, s, q);
  }

  lemma SubmitNode(c: Config, s: State, s': State, p: Path, name: Name, q: Path)
    requires Family(c, s) && Submitted(c, s, s', p, name) && q in s'.nodes
    ensures NodeOk(c, s', q)
  {
    hide FsOk, RefsOk, ClimbOk, SeedOk, LivesOk, ParentOk, EntryOk, NamesOk, OpenOk;
    SubmitParts(c, s, s', p, name, q);
    var child := p + [name];
    assert Parent(child) == p && Last(child) == name;
    assert NodeOk(c, s, child) && NodeOk(c, s, q);
    if |q| > 1 && Parent(q) == p && Last(q) == name { PathSplit(q); }
  }

  // ---- A node is deleted ----

  lemma DeleteFamily(c: Config, s: State, p: Path)
    requires Family(c, s) && p in s.nodes && (s.nodes[p].at.Dropping? || s.nodes[p].at.Removed?)
    ensures Family(c, Delete(s, p))
  {
    hide NodeOk, RefsOk, ClimbOk;
    var s' := Delete(s, p);
    if Claims(s, p) != {} { ClaimsMeanScanned(c, s, p); }
    forall q | q in s'.nodes ensures NodeOk(c, s', q) { DeleteNode(c, s, p, q); }
    forall q | q in s'.climbing ensures ClimbOk(s', q) { DeleteClimb(c, s, p, q); }
    forall q | q in s'.nodes ensures RefsOk(s', q) {
      DeleteRef(c, s, p, q);
    }
  }

  lemma DeleteClimb(c: Config, s: State, p: Path, q: Path)
    requires Family(c, s) && p in s.nodes && (s.nodes[p].at.Dropping? || s.nodes[p].at.Removed?)
    requires Claims(s, p) == {} && q in Delete(s, p).climbing
    ensures ClimbOk(Delete(s, p), q)
  {
    hide FsOk, SeedOk, RefsOk;
    if q == p {
      assert NodeOk(c, s, p);
    } else {
      assert ClimbOk(s, q);
      assert Parent(q) == p ==> q in Claims(s, p);
    }
  }

  lemma DeleteRef(c: Config, s: State, p: Path, q: Path)
    requires Family(c, s) && p in s.nodes && q in s.nodes && q != p
    ensures RefsOk(Delete(s, p), q)
  {
    hide FsOk, SeedOk, ClimbOk, LivesOk, NodeOk;
    assert RefsOk(s, q);
    assert Claims(Delete(s, p), q) == Claims(s, q);
  }

  lemma DeleteNode(c: Config, s: State, p: Path, q: Path)
    requires Family(c, s) && p in s.nodes && (s.nodes[p].at.Dropping? || s.nodes[p].at.Removed?)
    requires Claims(s, p) == {} && q in s.nodes && q != p
    ensures NodeOk(c, Delete(s, p), q)
  {
    assert NodeOk(c, s, p) && NodeOk(c, s, q);
    assert |q| > 1 && Parent(q) == p ==> q in Claims(s, p);
    if s.nodes[q].at.Handling? && q + [s.nodes[q].at.name] == p {
      assert Parent(p) == q && Last(p) == s.nodes[q].at.name;
    }
  }

  // ---- A reference is dropped ----

  /** A node's count goes down with its own reference or one of its children's. */
  lemma DropFamily(c: Config, s: State, p: Path)
    requires Family(c, s) && p in s.nodes && s.nodes[p].at.ScanDone?
    ensures Family(c, DropReference(s, p))
  {
    hide NodeOk, RefsOk, ClimbOk;
    var s' := DropReference(s, p);
    DropCount(c, s, p);
    forall q | q in s'.nodes ensures RefsOk(s', q) { DropRefs(c, s, p, q); }
    forall q | q in s'.nodes ensures NodeOk(c, s', q) { DropNode(c, s, p, q); }
    forall q | q in s'.climbing ensures ClimbOk(s', q) { DropClimb(c, s, p, q); }
  }

  lemma DropCount(c: Config, s: State, p: Path)
    requires Family(c, s) && p in s.nodes && s.nodes[p].at.ScanDone?
    ensures s.nodes[p].refs == 1 + |Claims(s, p)|
  {
    assert RefsOk(s, p);
  }

  lemma DropRefs(c: Config, s: State, p: Path, q: Path)
    requires Family(c, s) && p in s.nodes && s.nodes[p].at.ScanDone? && q in s.nodes
    ensures RefsOk(DropReference(s, p), q)
  {
    hide NodeOk, ClimbOk, FsOk;
    assert RefsOk(s, q);
    SameClaims(s, DropReference(s, p), q);
    hide Claims;
  }

  lemma ChildClaims(s: State, q: Path)
    requires |q| > 1 && q in s.nodes
    ensures q in Claims(s, Parent(q))
  {
  }

  lemma DropParent(c: Config, s: State, p: Path, q: Path)
    requires Family(c, s) && p in s.nodes && s.nodes[p].at.ScanDone? && q in s.nodes && ParentOk(s, q)
    ensures ParentOk(DropReference(s, p), q)
  {
    hide Family, Claims;
    DropCount(c, s, p);
    if |q| > 1 && Parent(q) == p {
      ChildClaims(s, q);
      assert |Claims(s, p)| >= 1;
    }
  }

  lemma DropNode(c: Config, s: State, p: Path, q: Path)
    requires Family(c, s) && p in s.nodes && s.nodes[p].at.ScanDone? && q in s.nodes
    ensures NodeOk(c, DropReference(s, p), q)
  {
    hide RefsOk, ClimbOk, FsOk, NamesOk, EntryOk, ParentOk, SeedOk, LivesOk;
    assert NodeOk(c, s, q);
    DropEntries(c, s, p, q);
    DropParent(c, s, p, q);
  }

  lemma DropEntries(c: Config, s: State, p: Path, q: Path)
    requires p in s.nodes && s.nodes[p].at.ScanDone? && q in s.nodes
    requires NamesOk(s, q) && EntryOk(c, s, q, s.nodes[q].at)
    ensures NamesOk(DropReference(s, p), q) && EntryOk(c, DropReference(s, p), q, DropReference(s, p).nodes[q].at)
  {
  }

  lemma DropClimb(c: Config, s: State, p: Path, q: Path)
    requires Family(c, s) && p in s.nodes && s.nodes[p].at.ScanDone? && q in s.climbing
    ensures ClimbOk(DropReference(s, p), q)
  {
    hide RefsOk, NodeOk, FsOk;
    DropCount(c, s, p);
    assert ClimbOk(s, q);
    if Parent(q) == p { assert q in Claims(s, p); }
  }

  lemma ClimbFamily(c: Config, s: State, p: Path)
    requires Family(c, s) && p in s.climbing
    ensures Family(c, ClimbFrom(s, p))
  {
    hide NodeOk, RefsOk;
    assert ClimbOk(s, p);
    var s', q := ClimbFrom(s, p), Parent(p);
    ClimbCount(c, s, p);
    forall r | r in s'.nodes ensures RefsOk(s', r) { ClimbRefs(c, s, p, r); }
    forall r | r in s'.nodes ensures NodeOk(c, s', r) { ClimbNode(c, s, p, r); }
    forall r | r in s'.climbing ensures ClimbOk(s', r) {
      assert ClimbOk(s, r);
      if Parent(r) == q { assert r in Claims(s', q); }
    }
  }

  /** The parent's count covers the reference about to be dropped, and where it stands. */
  lemma ClimbCount(c: Config, s: State, p: Path)
    requires Family(c, s) && p in s.climbing
    ensures |p| > 1 && Parent(p) in s.nodes
    ensures var n, s' := s.nodes[Parent(p)], ClimbFrom(s, p);
      && Claims(s', Parent(p)) == Claims(s, Parent(p)) - {p}
      && |Claims(s', Parent(p))| == |Claims(s, Parent(p))| - 1
      && (n.refs == 1 ==> n.at.Waiting? && Claims(s', Parent(p)) == {})
      && Scanned(n.at)
  {
    assert ClimbOk(s, p) && RefsOk(s, Parent(p));
    assert p in Claims(s, Parent(p));
    assert Claims(ClimbFrom(s, p), Parent(p)) == Claims(s, Parent(p)) - {p};
  }

  lemma ClimbRefs(c: Config, s: State, p: Path, r: Path)
    requires Family(c, s) && p in s.climbing && r in s.nodes
    ensures RefsOk(ClimbFrom(s, p), r)
  {
    hide NodeOk;
    ClimbCount(c, s, p);
    assert RefsOk(s, r);
    if r != Parent(p) { assert Claims(ClimbFrom(s, p), r) == Claims(s, r); }
  }

  lemma ClimbNode(c: Config, s: State, p: Path, r: Path)
    requires Family(c, s) && p in s.climbing && r in s.nodes
    ensures NodeOk(c, ClimbFrom(s, p), r)
  {
    hide RefsOk, FsOk, LivesOk, SeedOk, ClimbOk, ParentOk, NamesOk, EntryOk;
    ClimbCount(c, s, p);
    assert NodeOk(c, s, r) && NodeOk(c, s, Parent(p));
    ClimbNodeParts(c, s, p, r);
    hide Claims;
  }

  lemma ClimbNodeParts(c: Config, s: State, p: Path, r: Path)
    requires Family(c, s) && p in s.climbing && r in s.nodes
    ensures var s' := ClimbFrom(s, p);
      ParentOk(s', r) && NamesOk(s', r) && EntryOk(c, s', r, s'.nodes[r].at)
  {
    hide RefsOk, FsOk, LivesOk, SeedOk, ClimbOk, NamesOk, EntryOk;
    ClimbCount(c, s, p);
    var s', q := ClimbFrom(s, p), Parent(p);
    assert NodeOk(c, s, r) && NodeOk(c, s, q);
    if |r| > 1 && Parent(r) == q {
      assert r in Claims(s', q);
    }
    hide Claims;
    assert ParentOk(s', r);
    ClimbEntries(c, s, p, r);
  }

  lemma ClimbEntries(c: Config, s: State, p: Path, r: Path)
    requires Family(c, s) && p in s.climbing && r in s.nodes
    ensures var s' := ClimbFrom(s, p); NamesOk(s', r) && EntryOk(c, s', r, s'.nodes[r].at)
  {
    hide RefsOk, FsOk, LivesOk, SeedOk, ClimbOk, Claims, ParentOk;
    ClimbCount(c, s, p);
    assert NodeOk(c, s, r);
  }

  // ---- The main thread ----

  /** A step of the main thread that makes no node; `gone` is the operand if it removed it. */
  lemma SeedFamily(c: Config, s: State, s': State, gone: bool)
    requires Family(c, s) && s.seed < |c.operands| && Distinct(c)
    requires s'.nodes == s.nodes && s'.climbing == s.climbing && s'.born == s.born && s'.deleted == s.deleted
    requires var p := [c.operands[s.seed]];
      && s'.fs == (if gone then s.fs - {p} else s.fs)
      && (gone ==> !HasChild(s.fs, p))
    requires s.seed <= s'.seed <= s.seed + 1
    requires s'.seed < |c.operands| ==> SeedAtOk(c, s', [c.operands[s'.seed]])
    ensures Family(c, s')
  {
    var p := [c.operands[s.seed]];
    if gone { FsKept(c, s, s', p); }
    forall q | q in s'.nodes ensures NodeOk(c, s', q) {
      assert NodeOk(c, s, q);
    }
    forall q | q in s'.nodes ensures RefsOk(s', q) { assert RefsOk(s, q); SameClaims(s, s', q); }
    forall q | q in s'.climbing ensures ClimbOk(s', q) { assert ClimbOk(s, q); }
  }

  lemma SeedSubmitFamily(c: Config, s: State, choice: Choice)
    requires Family(c, s) && s.seed < |c.operands| && Distinct(c) && s.seedAt.SeedSubmit?
    ensures Family(c, SeedNext(c, s, choice))
  {
    hide RefsOk, NodeOk, ClimbOk, FsOk, LivesOk, SeedOk, SeedNext;
    var s' := SeedNext(c, s, choice);
    SeedTree(c, s, choice);
    forall q | q in s'.nodes ensures RefsOk(s', q) { SeedRefs(c, s, choice, q); }
    forall q | q in s'.nodes ensures NodeOk(c, s', q) { SeedNode(c, s, choice, q); }
    forall q | q in s'.climbing ensures ClimbOk(s', q) { SeedClimb(c, s, choice, q); }
  }

  lemma SeedTree(c: Config, s: State, choice: Choice)
    requires Family(c, s) && s.seed < |c.operands| && Distinct(c) && s.seedAt.SeedSubmit?
    ensures var s' := SeedNext(c, s, choice); FsOk(c, s') && LivesOk(s') && SeedOk(c, s') && s'.climbing == s.climbing
  {
    hide RefsOk, NodeOk, ClimbOk, Possible, GiveUp;
  }

  lemma SeedNode(c: Config, s: State, choice: Choice, q: Path)
    requires Family(c, s) && s.seed < |c.operands| && s.seedAt.SeedSubmit?
    requires q in SeedNext(c, s, choice).nodes
    ensures NodeOk(c, SeedNext(c, s, choice), q)
  {
    hide Family, NodeOk, Possible, GiveUp, Render;
    var p := [c.operands[s.seed]];
    if q == p { RootNode(c, s, SeedNext(c, s, choice), p); } else { BesideRoot(c, s, SeedNext(c, s, choice), p, q); }
  }

  lemma RootNode(c: Config, s: State, s': State, p: Path)
    requires Family(c, s) && s.seed < |c.operands| && s.seedAt.SeedSubmit? && p == [c.operands[s.seed]]
    requires s'.nodes == s.nodes[p := DirNode(1, true, Queued)] && s'.born == s.born + {p} && s'.fs == s.fs
    ensures NodeOk(c, s', p)
  {
    hide RefsOk, ClimbOk, NodeOk;
    forall name ensures p + [name] !in s'.born { assert Parent(p + [name]) == p; }
    hide Family, FsOk, LivesOk;
    assert NodeOk(c, s', p) by { RootFits(c, s', p); }
  }

  lemma RootFits(c: Config, s: State, p: Path)
    requires p in s.nodes && s.nodes[p] == DirNode(1, true, Queued) && |p| == 1 && p in s.fs
    requires p in c.kinds && c.kinds[p].Dir? && forall name :: p + [name] !in s.born
    ensures NodeOk(c, s, p)
  {
  }

  lemma BesideRoot(c: Config, s: State, s': State, p: Path, q: Path)
    requires Family(c, s) && s.seed < |c.operands| && p == [c.operands[s.seed]] && q in s.nodes && q != p
    requires s'.nodes == s.nodes[p := DirNode(1, true, Queued)] && s'.born == s.born + {p} && s'.fs == s.fs
    ensures NodeOk(c, s', q)
  {
    hide RefsOk, ClimbOk, FsOk, LivesOk;
    assert NodeOk(c, s, q);
    NoRootYet(c, s);
    forall name ensures q + [name] != p { assert |q + [name]| > 1 || q == []; }
  }

  lemma SeedClimb(c: Config, s: State, choice: Choice, q: Path)
    requires Family(c, s) && s.seed < |c.operands| && s.seedAt.SeedSubmit? && q in s.climbing
    ensures ClimbOk(SeedNext(c, s, choice), q)
  {
    hide RefsOk, FsOk, NodeOk;
    assert ClimbOk(s, q);
  }

  lemma SeedRefs(c: Config, s: State, choice: Choice, q: Path)
    requires Family(c, s) && s.seed < |c.operands| && s.seedAt.SeedSubmit?
    requires q in SeedNext(c, s, choice).nodes
    ensures RefsOk(SeedNext(c, s, choice), q)
  {
    var p := [c.operands[s.seed]];
    var s' := SeedNext(c, s, choice);
    assert Claims(s', q) == Claims(s, q);
    if q == p {
      if Claims(s, p) != {} { ClaimsMeanScanned(c, s, p); }
    } else {
      assert RefsOk(s, q);
    }
  }

  // ---- Every step ----

  lemma GiveUpKeeps(c: Config, s: State, p: Path, line: string, err: Option<Errno>)
    requires GiveUp(c, s, p, line, err).Some?
    ensures var s' := GiveUp(c, s, p, line, err).value;
      s'.nodes == s.nodes && s'.pool == s.pool && s'.seedAt == s.seedAt && s'.seed == s.seed && s'.climbing == s.climbing
  {
  }

  /** What a worker may rely on about the directory in its hands. */
  lemma InHand(c: Config, s: State, p: Path)
    requires Family(c, s) && p in s.nodes
    ensures FsOk(c, s) && NodeOk(c, s, p) && RefsOk(s, p) && p in s.born
    ensures Claims(s, p) != {} ==> Scanned(s.nodes[p].at)
    ensures s.nodes[p].at.Handling? ==> p + [s.nodes[p].at.name] != p
    ensures forall name | name in Names(s.nodes[p].at) ::
      && p + [name] in s.fs && p + [name] !in s.nodes && p + [name] in c.kinds
      && |p + [name]| > 1 && Parent(p + [name]) == p
  {
    if Claims(s, p) != {} { ClaimsMeanScanned(c, s, p); }
  }

  /** A step from one position of the scan to another that removes nothing. */
  lemma MovedFamily(c: Config, s: State, s': State, p: Path)
    requires Family(c, s) && p in s.nodes && p in s'.nodes && s'.nodes == s.nodes[p := s'.nodes[p]]
    requires s'.climbing == s.climbing && s'.born == s.born && s'.deleted == s.deleted && s'.fs == s.fs
    requires s'.seed == s.seed && s'.seedAt == s.seedAt
    requires MoveOk(c, s, s', p)
    ensures Family(c, s')
  {
    hide Family, MoveOk;
    MoveFamily(c, s, s', p, None);
  }

  /** A step that removes `gone`, the directory in hand or one of its entries. */
  lemma GoneFamily(c: Config, s: State, s': State, p: Path, gone: Path)
    requires Family(c, s) && p in s.nodes && p in s'.nodes && s'.nodes == s.nodes[p := s'.nodes[p]]
    requires s'.climbing == s.climbing && s'.born == s.born && s'.deleted == s.deleted && s'.fs == s.fs - {gone}
    requires s'.seed == s.seed && s'.seedAt == s.seedAt
    requires !HasChild(s.fs, gone) && UnderHand(s, p, gone)
    requires gone == p ==> s'.nodes[p].at.Dropping? || s'.nodes[p].at.Removed?
    requires MoveOk(c, s, s', p)
    ensures Family(c, s')
  {
    hide Family, MoveOk, HasChild, UnderHand;
    MoveFamily(c, s, s', p, Some(gone));
  }

  /** Between reading the first entry and closing, with no child being submitted. */
  ghost predicate InScan(at: At) {
    at.Scanning? || at.Closing? || (at.Handling? && !at.entry.ChildSubmit?)
  }

  /** A step within the scan: what is left to handle shrinks; `gone`, if any, is the entry in hand. */
  lemma ScanStep(c: Config, s: State, s': State, p: Path, gone: Option<Path>)
    requires Family(c, s) && p in s.nodes && p in s'.nodes && s'.nodes == s.nodes[p := s'.nodes[p]]
    requires s'.climbing == s.climbing && s'.born == s.born && s'.deleted == s.deleted
    requires s'.seed == s.seed && s'.seedAt == s.seedAt
    requires InScan(s.nodes[p].at) && InScan(s'.nodes[p].at)
    requires s'.nodes[p] == s.nodes[p].(at := s'.nodes[p].at)
    requires Names(s'.nodes[p].at) <= Names(s.nodes[p].at)
    requires EntryOk(c, s, p, s'.nodes[p].at)
    requires s'.fs == s.fs - AsSet(gone)
    requires gone.Some? ==> exists name | name in Names(s.nodes[p].at) - Names(s'.nodes[p].at) ::
      gone.value == p + [name] && !HasChild(s.fs, p + [name])
    ensures Family(c, s')
  {
    hide Family, FsOk, RefsOk, HasChild;
    InHand(c, s, p);
    if gone.Some? {
      forall name | p + [name] == gone.value ensures name == Last(gone.value) {}
    }
    hide NodeOk;
    assert NodeOk(c, s, p);
    ScanMoveOk(c, s, s', p, gone);
    hide MoveOk, Names, InScan, EntryOk;
    MoveFamily(c, s, s', p, gone);
  }

  lemma ScanMoveOk(c: Config, s: State, s': State, p: Path, gone: Option<Path>)
    requires p in s.nodes && p in s'.nodes && s'.nodes == s.nodes[p := s'.nodes[p]] && NodeOk(c, s, p)
    requires InScan(s.nodes[p].at) && InScan(s'.nodes[p].at)
    requires s'.nodes[p] == s.nodes[p].(at := s'.nodes[p].at)
    requires Names(s'.nodes[p].at) <= Names(s.nodes[p].at)
    requires EntryOk(c, s, p, s'.nodes[p].at)
    requires s'.fs == s.fs - AsSet(gone)
    requires gone.Some? ==> gone.value != [] && Last(gone.value) !in Names(s'.nodes[p].at) && gone.value != p
    ensures MoveOk(c, s, s', p)
  {
    hide ParentOk;
    forall name | name in Names(s'.nodes[p].at) ensures p + [name] in s'.fs {
      assert Last(p + [name]) == name;
    }
  }

  lemma ReservedFamily(c: Config, s: State, p: Path, choice: Choice)
    requires Family(c, s) && p in s.nodes && s.nodes[p].at.Reserved?
    ensures Family(c, AdvanceDir(c, s, p, choice))
  {
    hide Family, FsOk, RefsOk, HasChild, GiveUp, Retryable, HandleEntry, Render;
    InHand(c, s, p);
    var s' := AdvanceDir(c, s, p, choice);
    if s' != s { MovedFamily(c, s, s', p); }
  }

  lemma OpeningFamily(c: Config, s: State, p: Path, choice: Choice)
    requires Family(c, s) && p in s.nodes && (s.nodes[p].at.Opening? || s.nodes[p].at.Refusing?)
    ensures Family(c, AdvanceDir(c, s, p, choice))
  {
    hide Family, FsOk, RefsOk, HasChild, GiveUp, Retryable, HandleEntry, Render;
    InHand(c, s, p);
    var s' := AdvanceDir(c, s, p, choice);
    if s' != s { MovedFamily(c, s, s', p); }
  }

  lemma OpenFailedFamily(c: Config, s: State, p: Path, choice: Choice)
    requires Family(c, s) && p in s.nodes && s.nodes[p].at.OpenFailed?
    ensures Family(c, AdvanceDir(c, s, p, choice))
  {
    hide Family, FsOk, RefsOk, HasChild, Render, HandleEntry;
    InHand(c, s, p);
    var s' := AdvanceDir(c, s, p, choice);
    if s' != s {
      if s'.fs == s.fs { MovedFamily(c, s, s', p); } else { GoneFamily(c, s, s', p, p); }
    }
  }

  lemma ClosingFamily(c: Config, s: State, p: Path, choice: Choice)
    requires Family(c, s) && p in s.nodes && s.nodes[p].at.Closing?
    ensures Family(c, AdvanceDir(c, s, p, choice))
  {
    hide Family, RefsOk, HasChild, FsOk;
    InHand(c, s, p);
    MovedFamily(c, s, AdvanceDir(c, s, p, choice), p);
  }

  lemma ScanningFamily(c: Config, s: State, p: Path, choice: Choice)
    requires Family(c, s) && p in s.nodes && (s.nodes[p].at.Scanning? || s.nodes[p].at.Closing?)
    ensures Family(c, AdvanceDir(c, s, p, choice))
  {
    hide Family, RefsOk, HasChild, FsOk;
    InHand(c, s, p);
    hide NodeOk;
    var s' := AdvanceDir(c, s, p, choice);
    if s.nodes[p].at.Closing? { ClosingFamily(c, s, p, choice); }
    else if s' != s { ScanStep(c, s, s', p, None); }
  }

  lemma RemovingFamily(c: Config, s: State, p: Path, choice: Choice)
    requires Family(c, s) && p in s.nodes && s.nodes[p].at.Removing?
    ensures Family(c, AdvanceDir(c, s, p, choice))
  {
    hide Family, FsOk, HasChild, GiveUp, Render, HandleEntry;
    InHand(c, s, p);
    var s' := AdvanceDir(c, s, p, choice);
    if s' != s {
      if s'.fs == s.fs { MovedFamily(c, s, s', p); } else { GoneFamily(c, s, s', p, p); }
    }
  }

  lemma NonEmpty(c: Config, s: State, p: Path)
    requires Family(c, s) && p in s.nodes
    ensures p != []
  {
    assert NodeOk(c, s, p);
  }

  /** A child being submitted has not been anywhere yet. */
  lemma Unborn(c: Config, s: State, p: Path)
    requires Family(c, s) && p in s.nodes && s.nodes[p].at.Handling? && s.nodes[p].at.entry.ChildSubmit?
    ensures var child := p + [s.nodes[p].at.name]; child in s.nodes && s.nodes[child].at.Unsubmitted?
  {
    hide FsOk, RefsOk, ClimbOk, LivesOk, SeedOk;
    assert NodeOk(c, s, p);
    var child := p + [s.nodes[p].at.name];
    assert Parent(child) == p && Last(child) == s.nodes[p].at.name;
    assert NodeOk(c, s, child);
  }

  lemma EntryThere(c: Config, s: State, p: Path)
    requires Family(c, s) && p in s.nodes && s.nodes[p].at.Handling?
    ensures EntryOk(c, s, p, s.nodes[p].at) && OpenOk(s.nodes[p])
  {
    assert NodeOk(c, s, p);
  }

  lemma EntryStatFamily(c: Config, s: State, p: Path, choice: Choice)
    requires Family(c, s) && p in s.nodes && s.nodes[p].at.Handling? && s.nodes[p].at.entry.Stat?
    ensures Family(c, HandleEntry(c, s, p, choice))
  {
    hide Family, RefsOk, HasChild, FsOk, GiveUp, Render, Retryable;
    EntryThere(c, s, p);
    var s' := HandleEntry(c, s, p, choice);
    if s' != s { ScanStep(c, s, s', p, None); }
  }

  lemma EntryUnlinkFamily(c: Config, s: State, p: Path, choice: Choice)
    requires Family(c, s) && p in s.nodes && s.nodes[p].at.Handling? && s.nodes[p].at.entry.Unlink? && Tree(c)
    ensures Family(c, HandleEntry(c, s, p, choice))
  {
    hide Family, RefsOk, HasChild, FsOk, Tree, GiveUp, Render, Retryable;
    InHand(c, s, p);
    var s', name := HandleEntry(c, s, p, choice), s.nodes[p].at.name;
    if s' != s {
      FilesAreLeaves(c, s, p + [name]);
      assert name in Names(s.nodes[p].at) - Names(s'.nodes[p].at);
      ScanStep(c, s, s', p, if s'.fs == s.fs then None else Some(p + [name]));
    }
  }

  lemma EntryOpenFamily(c: Config, s: State, p: Path, choice: Choice)
    requires Family(c, s) && p in s.nodes && s.nodes[p].at.Handling?
    requires s.nodes[p].at.entry.CheckLimit? || s.nodes[p].at.entry.ChildReserved? || s.nodes[p].at.entry.ChildRefusing?
    ensures Family(c, HandleEntry(c, s, p, choice))
  {
    hide Family, RefsOk, HasChild, FsOk, GiveUp, Render, Retryable;
    EntryThere(c, s, p);
    var s' := HandleEntry(c, s, p, choice);
    if s' != s { ScanStep(c, s, s', p, None); }
  }

  lemma EntryRefusedFamily(c: Config, s: State, p: Path, choice: Choice)
    requires Family(c, s) && p in s.nodes && s.nodes[p].at.Handling? && s.nodes[p].at.entry.ChildRefused?
    ensures Family(c, HandleEntry(c, s, p, choice))
  {
    hide Family, RefsOk, HasChild, FsOk, Tree, Render, Retryable;
    InHand(c, s, p);
    var s', name := HandleEntry(c, s, p, choice), s.nodes[p].at.name;
    if s' != s {
      assert name in Names(s.nodes[p].at) - Names(s'.nodes[p].at);
      ScanStep(c, s, s', p, if s'.fs == s.fs then None else Some(p + [name]));
    }
  }

  lemma EntryNodeFamily(c: Config, s: State, p: Path, choice: Choice)
    requires Family(c, s) && p in s.nodes && s.nodes[p].at.Handling?
    requires s.nodes[p].at.entry.ChildNew? || s.nodes[p].at.entry.ChildSubmit?
    ensures Family(c, HandleEntry(c, s, p, choice))
  {
    hide Family, FsOk, RefsOk, HasChild, GiveUp, Possible, Render, Retryable;
    InHand(c, s, p);
    var s', name := HandleEntry(c, s, p, choice), s.nodes[p].at.name;
    if s.nodes[p].at.entry.ChildNew? {
      CreateFamily(c, s, s', p, name, s.nodes[p].at.entry.open);
    } else {
      SubmitFamily(c, s, s', p, name);
    }
  }

  lemma AdvanceFamily(c: Config, s: State, p: Path, choice: Choice)
    requires Family(c, s) && p in s.nodes && Tree(c)
    ensures Family(c, AdvanceDir(c, s, p, choice))
  {
    hide Family, Tree, HandleEntry, DropReference, Delete, Children, Possible, GiveUp;
    var at := s.nodes[p].at;
    if at.Opening? || at.Refusing? { OpeningFamily(c, s, p, choice); }
    else if at.Reserved? { ReservedFamily(c, s, p, choice); }
    else if at.OpenFailed? { OpenFailedFamily(c, s, p, choice); }
    else if at.Scanning? || at.Closing? { ScanningFamily(c, s, p, choice); }
    else if at.Removing? { RemovingFamily(c, s, p, choice); }
    else if at.ScanDone? { DropFamily(c, s, p); }
    else if at.Dropping? || at.Removed? { DeleteFamily(c, s, p); }
    else if at.Handling? {
      if at.entry.Stat? { EntryStatFamily(c, s, p, choice); }
      else if at.entry.Unlink? { EntryUnlinkFamily(c, s, p, choice); }
      else if at.entry.ChildRefused? { EntryRefusedFamily(c, s, p, choice); }
      else if at.entry.ChildNew? || at.entry.ChildSubmit? { EntryNodeFamily(c, s, p, choice); }
      else { EntryOpenFamily(c, s, p, choice); }
    }
  }

  lemma AcquireFamily(c: Config, s: State, p: Path)
    requires Family(c, s) && p in s.nodes
    ensures Family(c, AcquireDir(s, p))
  {
    hide Family, FsOk, RefsOk;
    InHand(c, s, p);
    if AcquireDir(s, p) != s { MovedFamily(c, s, AcquireDir(s, p), p); }
  }

  /** What holds for the operand in hand. */
  lemma SeedInHand(c: Config, s: State)
    requires Family(c, s) && s.seed < |c.operands|
    ensures FsOk(c, s) && SeedAtOk(c, s, [c.operands[s.seed]])
  {
  }

  lemma NoRootYet(c: Config, s: State)
    requires Family(c, s) && s.seed < |c.operands|
    ensures [c.operands[s.seed]] !in s.nodes
  {
  }

  lemma NoNodeYet(c: Config, s: State, p: Path)
    requires Family(c, s) && p in s.nodes && s.nodes[p].at.Handling? && s.nodes[p].at.entry.ChildNew?
    ensures s.nodes[p].open && p + [s.nodes[p].at.name] != p && p + [s.nodes[p].at.name] !in s.nodes
  {
    InHand(c, s, p);
    assert s.nodes[p].at.name in Names(s.nodes[p].at);
  }

  lemma SeedCallFamily(c: Config, s: State, choice: Choice)
    requires Family(c, s) && s.seed < |c.operands| && ValidConfig(c)
    requires s.seedAt.SeedUnlink? || s.seedAt.SeedRmdir?
    ensures Family(c, SeedNext(c, s, choice))
  {
    hide Family, HasChild, Tree, Distinct, GiveUp;
    SeedInHand(c, s);
    var s' := SeedNext(c, s, choice);
    if s.seedAt.SeedUnlink? { FilesAreLeaves(c, s, [c.operands[s.seed]]); }
    hide FsOk;
    SeedFamily(c, s, s', s'.fs != s.fs);
  }

  lemma SeedRefusedFamily(c: Config, s: State, choice: Choice)
    requires Family(c, s) && s.seed < |c.operands| && ValidConfig(c) && s.seedAt.SeedRefused?
    ensures Family(c, SeedNext(c, s, choice))
  {
    hide Family, HasChild, Tree, Distinct, FsOk, Render;
    SeedInHand(c, s);
    var s' := SeedNext(c, s, choice);
    SeedFamily(c, s, s', s'.fs != s.fs);
  }

  lemma SeedOtherFamily(c: Config, s: State, choice: Choice)
    requires Family(c, s) && s.seed < |c.operands| && ValidConfig(c)
    requires s.seedAt.SeedStat? || s.seedAt.SeedReserve? || s.seedAt.SeedOpen?
    ensures Family(c, SeedNext(c, s, choice))
  {
    hide Family, HasChild, Tree, Distinct, FsOk, GiveUp;
    SeedInHand(c, s);
    SeedFamily(c, s, SeedNext(c, s, choice), false);
  }

  lemma SeedNextFamily(c: Config, s: State, choice: Choice)
    requires Family(c, s) && s.seed < |c.operands| && ValidConfig(c)
    ensures Family(c, SeedNext(c, s, choice))
  {
    hide Family, SeedNext;
    if s.seedAt.SeedSubmit? { SeedSubmitFamily(c, s, choice); }
    else if s.seedAt.SeedUnlink? || s.seedAt.SeedRmdir? { SeedCallFamily(c, s, choice); }
    else if s.seedAt.SeedRefused? { SeedRefusedFamily(c, s, choice); }
    else { SeedOtherFamily(c, s, choice); }
  }

  lemma StepFamily(c: Config, s: State, act: Action)
    requires Family(c, s) && ValidConfig(c)
    ensures Family(c, Step(c, s, act))
  {
    hide Family, AdvanceDir, AcquireDir, ClimbFrom, SeedNext;
    match act
    case Seed(choice) => if s.seed < |c.operands| { SeedNextFamily(c, s, choice); }
    case Acquire(p) => if p in s.nodes { AcquireFamily(c, s, p); }
    case Advance(p, choice) => if p in s.nodes { AdvanceFamily(c, s, p, choice); }
    case Climb(p) => if p in s.climbing && p != [] { ClimbFamily(c, s, p); }
  }

  lemma InitialFamily(c: Config)
    requires ValidConfig(c)
    ensures Family(c, Initial(c))
  {
  }
}
