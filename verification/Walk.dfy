/**
 * The recursive removal as a state machine: any number of workers and the main thread,
 * each system call, counter update or hand-over to the scheduler one step. A worker is
 * represented by where it stands in the directory it holds; a directory held by nobody is
 * queued, parked or waiting for its subdirectories. System calls answer as an oracle
 * chooses, within what a file system nobody else changes can answer.
 */
module Walk {
  import opened Common

  type Name = string

  /** Names from the operand down; an operand is one name, however many slashes it has. */
  type Path = seq<Name>

  datatype Kind = File | Dir

  datatype Errno = NoEntry | OutOfDescriptors | NotEmpty | OtherError(code: int)

  /** The tree before the run, the operands and the options that matter here. */
  datatype Config = Config(
    kinds: map<Path, Kind>,
    operands: seq<Name>,
    force: bool,
    recursive: bool,
    dir: bool,
    superuser: bool,
    verbose: bool)

  /** Inside Scan's loop body, for one entry. */
  datatype EntryAt =
    | Stat
    | Unlink
    | CheckLimit
    | ChildReserved(before: Leases)
    | ChildRefusing(before: Leases)
    | ChildRefused(e: Errno)
    | ChildNew(open: bool)
    | ChildSubmit

  /** Where a directory's node is in its life; `unread` are the entries not yet read. */
  datatype At =
    | Unsubmitted
    | Queued
    | Parked
    | Opening
    | Reserved(before: Leases)
    | Refusing(before: Leases)
    | OpenFailed(e: Errno)
    | Dropping
    | Scanning(unread: set<Name>)
    | Handling(unread: set<Name>, name: Name, entry: EntryAt)
    | Closing
    | ScanDone
    | Waiting
    | Removing
    | Removed

  datatype DirNode = DirNode(refs: int, open: bool, at: At)

  /** What a report says is left behind: the path, the entries of it not yet read, or all of it. */
  datatype Scope = Itself | Beneath(unread: set<Name>) | Subtree
  datatype Cause = Fault | StillFull | NotRecursive | Missing
  datatype Report = Report(path: Path, scope: Scope, cause: Cause)

  datatype Call = DoStat | DoOpen | DoUnlink | DoRmdir | DoRead

  /** A call the system refused for a reason of its own. */
  datatype Refused = Refused(call: Call, path: Path)

  /** The main thread's place with the current operand. */
  datatype SeedAt =
    | SeedStat
    | SeedUnlink
    | SeedRmdir
    | SeedReserve
    | SeedOpen(before: Leases)
    | SeedRefused(e: Errno)
    | SeedSubmit

  /**
   * `nodes` are the allocated DirNodes; `climbing` the directories whose node is deleted
   * and whose reference on the parent is about to be dropped. The rest are histories:
   * reports counted and printed as failures, operands skipped without a word, successful
   * removals in order, lines printed under -v, nodes ever made, nodes deleted, and the
   * system calls that were refused.
   */
  datatype State = State(
    fs: set<Path>,
    nodes: map<Path, DirNode>,
    climbing: set<Path>,
    pool: Leases,
    seed: nat,
    seedAt: SeedAt,
    reports: seq<Report>,
    silent: set<Path>,
    removed: seq<Path>,
    printed: seq<string>,
    born: set<Path>,
    deleted: seq<Path>,
    faults: set<Refused>)

  /** A system call's answer, or which entry comes next, or what the pool's ceiling says. */
  datatype Choice =
    | Answer(err: Option<Errno>)
    | NextEntry(name: Name, given: Option<Kind>)
    | Limit(exhausted: bool)

  datatype Action =
    | Seed(choice: Choice)
    | Acquire(dir: Path)
    | Advance(dir: Path, choice: Choice)
    | Climb(dir: Path)

  ghost function Parent(p: Path): Path
    requires p != []
  {
    p[..|p| - 1]
  }

  ghost function Last(p: Path): Name
    requires p != []
  {
    p[|p| - 1]
  }

  /** A tree: everything but a first name lies in a directory. */
  ghost predicate Tree(c: Config) {
    && (forall p | p in c.kinds :: p != [])
    && (forall p | p in c.kinds && |p| > 1 :: Parent(p) in c.kinds && c.kinds[Parent(p)].Dir?)
  }

  /** Operands are named once each (README.md:134-140 leaves repeated operands undefined). */
  ghost predicate Distinct(c: Config) {
    forall i, j | 0 <= i < j < |c.operands| :: c.operands[i] != c.operands[j]
  }

  ghost predicate ValidConfig(c: Config) {
    Tree(c) && Distinct(c)
  }

  ghost function Initial(c: Config): State {
    State(c.kinds.Keys, map[], {}, Leases(0, 0), 0, SeedStat, [], {}, [], [], {}, [], {})
  }

  ghost predicate HasChild(fs: set<Path>, p: Path) {
    exists name :: p + [name] in fs
  }

  ghost function Children(fs: set<Path>, p: Path): (names: set<Name>)
    ensures forall name :: name in names <==> p + [name] in fs
  {
    var names := set q | q in fs && q != [] && Parent(q) == p :: Last(q);
    assert forall name :: p + [name] in fs ==> name in names by {
      forall name | p + [name] in fs ensures name in names {
        var q := p + [name];
        assert q in fs && Parent(q) == p && Last(q) == name;
      }
    }
    assert forall q | q in fs && q != [] && Parent(q) == p :: q == p + [Last(q)];
    names
  }

  /** What the call may answer: success only where it applies, "no entry" only for what is gone. */
  ghost predicate Possible(c: Config, fs: set<Path>, call: Call, p: Path, err: Option<Errno>) {
    match err
    case None =>
      && p in fs && p in c.kinds
      && (call.DoUnlink? ==> c.kinds[p].File?)
      && (call.DoOpen? || call.DoRmdir? ==> c.kinds[p].Dir?)
      && (call.DoRmdir? ==> !HasChild(fs, p))
    case Some(NoEntry) => p !in fs
    case Some(NotEmpty) => call.DoRmdir? && p in fs && HasChild(fs, p)
    case Some(OutOfDescriptors) => call.DoOpen?
    case Some(OtherError(_)) => true
  }

  /** What a directory entry may say of its file's kind: the truth, or nothing. */
  ghost predicate Matches(c: Config, p: Path, given: Option<Kind>) {
    p in c.kinds && (given.Some? ==> given.value == c.kinds[p])
  }

  /** A refusal that is the system's doing, not a consequence of what is or is not there. */
  ghost predicate Refusal(err: Option<Errno>) {
    err.Some? && (err.value.OutOfDescriptors? || err.value.OtherError?)
  }

  ghost function Noted(s: State, call: Call, p: Path, err: Option<Errno>): State {
    if Refusal(err) then s.(faults := s.faults + {Refused(call, p)}) else s
  }

  ghost function Render(p: Path): string {
    if p == [] then "" else if |p| == 1 then p[0] else Render(Parent(p)) + "/" + Last(p)
  }

  /** LogIfRemoved for a call that succeeded: `line` is what the format makes of its arguments. */
  ghost function Gone(c: Config, s: State, p: Path, line: string): State {
    s.(fs := s.fs - {p}, removed := s.removed + [p],
       printed := if c.verbose then s.printed + [line] else s.printed)
  }

  ghost function Reported(s: State, p: Path, scope: Scope, cause: Cause): State {
    s.(reports := s.reports + [Report(p, scope, cause)])
  }

  ghost function CauseOf(e: Errno): Cause {
    if e.NotEmpty? then StillFull else if e.NoEntry? then Missing else Fault
  }

  ghost function Put(s: State, p: Path, n: DirNode): State {
    s.(nodes := s.nodes[p := n])
  }

  ghost function Moved(s: State, p: Path, at: At): State
    requires p in s.nodes
  {
    Put(s, p, s.nodes[p].(at := at))
  }

  ghost function Leased(s: State): State {
    s.(pool := s.pool.(live := s.pool.live + 1))
  }

  ghost function Forgotten(s: State): State {
    s.(pool := s.pool.(live := s.pool.live - 1))
  }

  /** Refused's verdict on a reservation made when the pool stood at `before`. */
  ghost predicate Retryable(s: State, before: Leases) {
    MayFree(s.pool, before)
  }

  /**
   * The rmdir a failed open is followed by under -f, or the report that replaces it:
   * `p` goes, or it is reported with everything in it.
   */
  ghost function GiveUp(c: Config, s: State, p: Path, line: string, err: Option<Errno>): Option<State> {
    if !c.force then Some(Reported(s, p, Subtree, Fault))
    else if !Possible(c, s.fs, DoRmdir, p, err) then None
    else match err
      case None => Some(Gone(c, s, p, line))
      case Some(NoEntry) => Some(s)
      case Some(_) => Some(Reported(Noted(s, DoRmdir, p, err), p, Subtree, Fault))
  }

  ghost function Delete(s: State, p: Path): State {
    s.(nodes := s.nodes - {p}, deleted := s.deleted + [p],
       climbing := if |p| > 1 then s.climbing + {p} else s.climbing)
  }

  /** One step for the entry `name` of the directory `p`. */
  ghost function HandleEntry(c: Config, s: State, p: Path, choice: Choice): State
    requires p in s.nodes && s.nodes[p].at.Handling?
  {
    var Handling(unread, name, entry) := s.nodes[p].at;
    var child := p + [name];
    var line := Render(p) + "/" + name;
    match entry
    case Stat =>
      if !choice.Answer? || !Possible(c, s.fs, DoStat, child, choice.err) then s
      else if choice.err == None then
        Moved(s, p, Handling(unread, name, if c.kinds[child].Dir? then CheckLimit else Unlink))
      else if choice.err == Some(NoEntry) then Moved(s, p, Scanning(unread))
      else Moved(Reported(Noted(s, DoStat, child, choice.err), child, Subtree, Fault), p, Scanning(unread))
    case Unlink =>
      if !choice.Answer? || !Possible(c, s.fs, DoUnlink, child, choice.err) then s
      else if choice.err == None then Moved(Gone(c, s, child, line), p, Scanning(unread))
      else if choice.err == Some(NoEntry) then Moved(s, p, Scanning(unread))
      else Moved(Reported(Noted(s, DoUnlink, child, choice.err), child, Itself, Fault), p, Scanning(unread))
    case CheckLimit =>
      if !choice.Limit? then s
      else if choice.exhausted then Moved(s, p, Handling(unread, name, ChildNew(false)))
      else Moved(Leased(s), p, Handling(unread, name, ChildReserved(s.pool)))
    case ChildReserved(before) =>
      if !choice.Answer? || !Possible(c, s.fs, DoOpen, child, choice.err) then s
      else if choice.err == None then Moved(s, p, Handling(unread, name, ChildNew(true)))
      else
        var s1 := Forgotten(Noted(s, DoOpen, child, choice.err));
        Moved(s1, p, Handling(unread, name,
          if choice.err == Some(OutOfDescriptors) then ChildRefusing(before) else ChildRefused(choice.err.value)))
    case ChildRefusing(before) =>
      Moved(s, p, Handling(unread, name,
        if Retryable(s, before) then ChildNew(false) else ChildRefused(OutOfDescriptors)))
    case ChildRefused(e) =>
      var after := GiveUp(c, s, child, line, if choice.Answer? then choice.err else Some(OtherError(0)));
      if after.None? then s else Moved(after.value, p, Scanning(unread))
    case ChildNew(open) =>
      var n := s.nodes[p];
      Put(Put(s, p, n.(refs := n.refs + 1, at := Handling(unread, name, ChildSubmit))),
          child, DirNode(1, open, Unsubmitted)).(born := s.born + {child})
    case ChildSubmit =>
      if child !in s.nodes then s
      else Moved(Moved(s, p, Scanning(unread)), child, if s.nodes[child].open then Queued else Parked)
  }

  /** The next step of the worker that holds the directory `p`. */
  ghost function AdvanceDir(c: Config, s: State, p: Path, choice: Choice): State
    requires p in s.nodes
  {
    var n := s.nodes[p];
    match n.at
    case Opening => Moved(Leased(s), p, Reserved(s.pool))
    case Reserved(before) =>
      if !choice.Answer? || !Possible(c, s.fs, DoOpen, p, choice.err) then s
      else if choice.err == None then Put(s, p, n.(open := true, at := Scanning(Children(s.fs, p))))
      else
        Moved(Forgotten(Noted(s, DoOpen, p, choice.err)), p,
          if choice.err == Some(OutOfDescriptors) then Refusing(before) else OpenFailed(choice.err.value))
    case Refusing(before) => Moved(s, p, if Retryable(s, before) then Parked else OpenFailed(OutOfDescriptors))
    case OpenFailed(e) =>
      var after := GiveUp(c, s, p, Render(p), if choice.Answer? then choice.err else Some(OtherError(0)));
      if after.None? then s else Moved(after.value, p, Dropping)
    case Dropping => Delete(s, p)
    case Scanning(unread) =>
      if choice.NextEntry? && choice.name in unread && Matches(c, p + [choice.name], choice.given) then
        var first := match choice.given case None => Stat case Some(Dir) => CheckLimit case Some(File) => Unlink;
        Moved(s, p, Handling(unread - {choice.name}, choice.name, first))
      else if choice.Answer? && choice.err == None && unread == {} then Moved(s, p, Closing)
      else if choice.Answer? && Refusal(choice.err) then
        Moved(Reported(Noted(s, DoRead, p, choice.err), p, Beneath(unread), Fault), p, Closing)
      else s
    case Handling(_, _, _) => HandleEntry(c, s, p, choice)
    case Closing =>
      var s1 := s.(pool := Leases(s.pool.live - 1, (s.pool.epoch + 1) % EPOCHS));
      Put(s1, p, n.(open := false, at := ScanDone))
    case ScanDone => DropReference(s, p)
    case Removing =>
      if !choice.Answer? || !Possible(c, s.fs, DoRmdir, p, choice.err) then s
      else if choice.err == None then Moved(Gone(c, s, p, Render(p)), p, Removed)
      else if choice.err == Some(NoEntry) then Moved(s, p, Removed)
      else Moved(Reported(Noted(s, DoRmdir, p, choice.err), p, Itself, CauseOf(choice.err.value)), p, Removed)
    case Removed => Delete(s, p)
    case _ => s
  }

  /** The fetch_sub of MaybeCleanupDirNode: whoever brings the count to zero removes the directory. */
  ghost function DropReference(s: State, p: Path): State
    requires p in s.nodes
  {
    var n := s.nodes[p];
    Put(s, p, n.(refs := n.refs - 1, at := if n.refs == 1 then Removing else Waiting))
  }

  /** After deleting a node the worker turns to its parent; a busy parent keeps its place. */
  ghost function ClimbFrom(s: State, p: Path): State
    requires p != []
  {
    var q := Parent(p);
    var s1 := s.(climbing := s.climbing - {p});
    if q !in s.nodes then s1
    else
      var n := s.nodes[q];
      Put(s1, q, n.(refs := n.refs - 1, at := if n.refs == 1 then Removing else n.at))
  }

  ghost function AcquireDir(s: State, p: Path): State
    requires p in s.nodes
  {
    var n := s.nodes[p];
    if !n.at.Queued? && !n.at.Parked? then s
    else Moved(s, p, if n.open then Scanning(Children(s.fs, p)) else Opening)
  }

  ghost function NextOperand(s: State): State {
    s.(seed := s.seed + 1, seedAt := SeedStat)
  }

  /** RunRm's loop body, one call at a time. */
  ghost function SeedNext(c: Config, s: State, choice: Choice): State
    requires s.seed < |c.operands|
  {
    var p := [c.operands[s.seed]];
    var line := c.operands[s.seed];
    var err := if choice.Answer? then choice.err else Some(OtherError(0));
    match s.seedAt
    case SeedStat =>
      if !Possible(c, s.fs, DoStat, p, err) then s
      else if err.Some? then
        if !(c.force && c.recursive && !c.superuser) && (!c.force || err.value != NoEntry)
        then NextOperand(Reported(Noted(s, DoStat, p, err), p, Subtree, CauseOf(err.value)))
        else if err.value == NoEntry then NextOperand(s)
        else NextOperand(Noted(s, DoStat, p, err).(silent := s.silent + {p}))
      else if c.kinds[p].File? then s.(seedAt := SeedUnlink)
      else if c.recursive then s.(seedAt := SeedReserve)
      else if c.dir then s.(seedAt := SeedRmdir)
      else NextOperand(Reported(s, p, Subtree, NotRecursive))
    case SeedUnlink =>
      if !Possible(c, s.fs, DoUnlink, p, err) then s
      else if err == None then NextOperand(Gone(c, s, p, line))
      else if !c.force || err.value != NoEntry
      then NextOperand(Reported(Noted(s, DoUnlink, p, err), p, Itself, CauseOf(err.value)))
      else NextOperand(s)
    case SeedRmdir =>
      if !Possible(c, s.fs, DoRmdir, p, err) then s
      else if err == None then NextOperand(Gone(c, s, p, line))
      else if !c.force || err.value != NoEntry
      then NextOperand(Reported(Noted(s, DoRmdir, p, err), p, Subtree, if err == Some(NotEmpty) then NotRecursive else CauseOf(err.value)))
      else NextOperand(s)
    case SeedReserve => Leased(s).(seedAt := SeedOpen(s.pool))
    case SeedOpen(before) =>
      if !Possible(c, s.fs, DoOpen, p, err) then s
      else if err == None then s.(seedAt := SeedSubmit)
      else Forgotten(Noted(s, DoOpen, p, err)).(seedAt := SeedRefused(err.value))
    case SeedRefused(e) =>
      var after := GiveUp(c, s, p, line, err);
      if after.None? then s else NextOperand(after.value)
    case SeedSubmit => NextOperand(Put(s, p, DirNode(1, true, Queued)).(born := s.born + {p}))
  }

  /** A choice that does not apply changes nothing. */
  ghost function Step(c: Config, s: State, act: Action): State {
    match act
    case Seed(choice) => if s.seed < |c.operands| then SeedNext(c, s, choice) else s
    case Acquire(p) => if p in s.nodes then AcquireDir(s, p) else s
    case Advance(p, choice) => if p in s.nodes then AdvanceDir(c, s, p, choice) else s
    case Climb(p) => if p in s.climbing && p != [] then ClimbFrom(s, p) else s
  }
}
