/**
 * Opening a path of any length: OpenLong opens directories on the way, in pieces short
 * enough for the system. Its result is compared with what pathname resolution (section
 * 4.13 of POSIX.1-2017, Base Definitions) says the whole path names.
 */
module LongPath {
  import opened Common
  import opened PathText

  /** A file, however it is identified. */
  type Node = nat

  datatype Errno = NoEntry | NameTooLong | Busy | OtherError(code: int)

  type Lookup = (Node, Name) -> Result<Node, Errno>

  /**
   * What the file system answers: `walk` searches a directory for a component that must
   * be, or lead to, a directory; `openDir` opens that directory for reading as well, which
   * may be refused; `rootClosed` is why the root may not be read.
   */
  datatype World = World(root: Node, cwd: Node, rootClosed: Option<Errno>, walk: Lookup, openDir: Lookup)

  /**
   * Opening a directory finds what searching for it finds, or is refused; components too
   * long for any cut are too long for the file system. `last` opens a final component the
   * way the caller asked.
   */
  ghost predicate Sound(w: World, pathMax: nat, last: Lookup) {
    && (forall at, name :: w.openDir(at, name) == w.walk(at, name) || (w.walk(at, name).Ok? && w.openDir(at, name).Err?))
    && (forall at, name | |name| >= pathMax - 1 :: w.walk(at, name) == Err(NameTooLong) && last(at, name) == Err(NameTooLong))
  }

  // ---- Pathname resolution ----

  function WalkAll(w: World, at: Node, names: seq<Name>): Result<Node, Errno>
    decreases |names|
  {
    if names == [] then Ok(at)
    else
      var next := w.walk(at, names[0]);
      if next.Err? then next else WalkAll(w, next.value, names[1..])
  }

  /** Everything but the last component is searched. */
  function Reach(w: World, at: Node, names: seq<Name>, last: Lookup): Result<Node, Errno>
    requires names != []
    decreases |names|
  {
    if |names| == 1 then last(at, names[0])
    else
      var next := w.walk(at, names[0]);
      if next.Err? then next else Reach(w, next.value, names[1..], last)
  }

  function Start(w: World, dir: Option<Node>, s: string): Node {
    if s != "" && s[0] == '/' then w.root else if dir.Some? then dir.value else w.cwd
  }

  function OpenRoot(w: World): Result<Node, Errno> {
    if w.rootClosed.Some? then Err(w.rootClosed.value) else Ok(w.root)
  }

  /**
   * open, or openat where `dir` is open; a path may be of any length here. Behind a
   * trailing slash the last component is opened as the directory it must be.
   */
  function OpenAt(w: World, dir: Option<Node>, s: string, last: Lookup): Result<Node, Errno> {
    if s == "" then Err(NoEntry)
    else if Names(s) == [] then OpenRoot(w)
    else Reach(w, Start(w, dir, s), Names(s), if EndsInSlash(s) then w.openDir else last)
  }

  /** The directory a path's components lead to, found by searching alone. */
  function SearchAt(w: World, dir: Option<Node>, s: string): Result<Node, Errno> {
    WalkAll(w, Start(w, dir, s), Names(s))
  }

  // ---- What the program computes ----

  function OpenLongFrom(w: World, pathMax: nat, dir: Option<Node>, rest: string, last: Lookup): Result<Node, Errno>
    requires pathMax >= 2
    decreases |rest|
  {
    if |rest| < pathMax then OpenAt(w, dir, rest, last)
    else
      var cut := Cut(rest, pathMax);
      if cut.None? then Err(NameTooLong)
      else
        var next := OpenAt(w, dir, rest[..cut.value], w.openDir);
        if next.Err? then next else OpenLongFrom(w, pathMax, Some(next.value), rest[Skip(rest, cut.value)..], last)
  }

  function OpenLong(w: World, pathMax: nat, path: string, last: Lookup): Result<Node, Errno>
    requires pathMax >= 2
  {
    OpenLongFrom(w, pathMax, None, path, last)
  }

  /** The refusal of the first directory at a cut that can be searched but not be read. */
  function FirstClosed(w: World, pathMax: nat, dir: Option<Node>, rest: string): Option<Errno>
    requires pathMax >= 2
    decreases |rest|
  {
    if |rest| < pathMax || Cut(rest, pathMax).None? then None
    else
      var cut := Cut(rest, pathMax).value;
      var next := OpenAt(w, dir, rest[..cut], w.openDir);
      if next.Ok? then FirstClosed(w, pathMax, Some(next.value), rest[Skip(rest, cut)..])
      else if SearchAt(w, dir, rest[..cut]).Ok? then Some(next.error)
      else None
  }

  // ---- Facts about resolution ----

  /** Going on from where the first components lead is resolving all of them. */
  lemma {:induction false} ReachSplit(w: World, at: Node, a: seq<Name>, b: seq<Name>, last: Lookup)
    requires b != []
    ensures Reach(w, at, a + b, last) ==
      var mid := WalkAll(w, at, a);
      if mid.Err? then mid else Reach(w, mid.value, b, last)
    decreases |a|
  {
    if a == [] {
      assert a + b == b;
    } else {
      assert (a + b)[1..] == a[1..] + b && (a + b)[0] == a[0];
      if w.walk(at, a[0]).Ok? { ReachSplit(w, w.walk(at, a[0]).value, a[1..], b, last); }
    }
  }

  /** A directory opened is the one searching finds; it fails alone only by being refused. */
  lemma {:induction false} OpenedIsSearched(w: World, pathMax: nat, at: Node, names: seq<Name>, last: Lookup)
    requires Sound(w, pathMax, last) && names != []
    ensures var reached, searched := Reach(w, at, names, w.openDir), WalkAll(w, at, names);
      reached == searched || (searched.Ok? && reached.Err?)
    decreases |names|
  {
    var next := w.walk(at, names[0]);
    assert w.openDir(at, names[0]) == next || (next.Ok? && w.openDir(at, names[0]).Err?);
    if |names| == 1 {
      assert next.Ok? ==> WalkAll(w, next.value, names[1..]) == next;
    } else if next.Ok? {
      OpenedIsSearched(w, pathMax, next.value, names[1..], last);
    }
  }

  lemma PieceOpened(w: World, pathMax: nat, dir: Option<Node>, piece: string, last: Lookup)
    requires Sound(w, pathMax, last) && piece != ""
    ensures var reached, searched := OpenAt(w, dir, piece, w.openDir), SearchAt(w, dir, piece);
      reached == searched || (searched.Ok? && reached.Err?)
  {
    if Names(piece) == [] {
      OnlySlashes(piece);
    } else {
      OpenedIsSearched(w, pathMax, Start(w, dir, piece), Names(piece), last);
    }
  }

  lemma {:induction false} OnlySlashes(s: string)
    requires s != "" && Names(s) == []
    ensures s[0] == '/'
  {
  }

  /** Cutting at a slash, searching for what is before it and going on behind it. */
  lemma CutOpen(w: World, dir: Option<Node>, path: string, cut: nat, last: Lookup)
    requires 0 < cut < |path| && path[cut] == '/' && Skip(path, cut) < |path|
    ensures OpenAt(w, dir, path, last) ==
      var mid := SearchAt(w, dir, path[..cut]);
      if mid.Err? then mid else OpenAt(w, Some(mid.value), path[Skip(path, cut)..], last)
  {
    hide Names, Reach, WalkAll, Skip;
    var skip := Skip(path, cut);
    CutNames(path, cut, skip);
    ReachSplit(w, Start(w, dir, path), Names(path[..cut]), Names(path[skip..]), if EndsInSlash(path) then w.openDir else last);
  }

  /** Nothing but slashes behind the cut: the piece is all there is to open. */
  lemma CutTail(w: World, dir: Option<Node>, path: string, cut: nat, last: Lookup)
    requires 0 < cut < |path| && path[cut] == '/' && Skip(path, cut) == |path|
    ensures OpenAt(w, dir, path, last) == OpenAt(w, dir, path[..cut], w.openDir)
  {
    hide Names, Reach, Skip;
    assert path == path[..cut] + "/" + path[cut + 1..];
    NamesSplit(path[..cut], path[cut + 1..]);
    SlashesGone(path[cut + 1..], |path| - cut - 1);
    assert path[cut + 1..][|path| - cut - 1..] == "";
    NoNames();
    assert Names(path) == Names(path[..cut]);
  }

  lemma NoNames()
    ensures Names("") == []
  {
  }

  /** A first component with no slash in its first bytes is too long to open. */
  lemma NoCut(w: World, dir: Option<Node>, pathMax: nat, path: string, last: Lookup)
    requires 2 <= pathMax <= |path| && Sound(w, pathMax, last)
    requires forall i | 1 <= i < pathMax :: path[i] != '/'
    ensures OpenAt(w, dir, path, last) == Err(NameTooLong)
  {
    var s := if path[0] == '/' then path[1..] else path;
    var n, start := NameEnd(s), Start(w, dir, path);
    assert s != "" && s[0] != '/' && Names(path) == Names(s);
    assert forall i | 0 < i < pathMax - 1 :: s[i] != '/';
    var name := s[..n];
    assert |name| >= pathMax - 1 && Names(s)[0] == name;
    assert w.walk(start, name) == Err(NameTooLong) && last(start, name) == Err(NameTooLong);
    assert w.openDir(start, name) == Err(NameTooLong);
  }

  // ---- What OpenLong gives ----

  /**
   * The whole of it, for any path: the first directory at a cut that may not be read ends
   * it; else, if the last cut falls on trailing slashes, a directory that is there is not
   * found; else the result, file or error, is that of resolving the path in one go.
   */
  lemma {:induction false} OpenLongIs(w: World, pathMax: nat, dir: Option<Node>, path: string, last: Lookup)
    requires pathMax >= 2 && Sound(w, pathMax, last)
    ensures OpenLongFrom(w, pathMax, dir, path, last) ==
      var closed, whole := FirstClosed(w, pathMax, dir, path), OpenAt(w, dir, path, last);
      if closed.Some? then Err(closed.value)
      else if whole.Ok? && CutsAtTail(path, pathMax) then Err(NoEntry)
      else whole
    decreases |path|
  {
    if |path| >= pathMax {
      if Cut(path, pathMax).None? {
        NoCut(w, dir, pathMax, path, last);
      } else {
        hide Sound, Cut, Skip, OpenAt, SearchAt;
        var cut := Cut(path, pathMax).value;
        var next, skip := OpenAt(w, dir, path[..cut], w.openDir), Skip(path, cut);
        PieceOpened(w, pathMax, dir, path[..cut], last);
        if skip < |path| { CutOpen(w, dir, path, cut, last); } else { CutTail(w, dir, path, cut, last); }
        if next.Ok? {
          OpenLongIs(w, pathMax, Some(next.value), path[skip..], last);
          NothingToOpen(w, Some(next.value), last);
        }
      }
    }
  }

  lemma NothingToOpen(w: World, dir: Option<Node>, last: Lookup)
    ensures OpenAt(w, dir, "", last) == Err(NoEntry)
  {
  }

  predicate HasLongName(path: string, pathMax: nat) {
    exists i | 0 <= i < |Names(path)| :: |Names(path)[i]| >= pathMax - 1
  }

  /** Directories that can be searched can be read. */
  ghost predicate Readable(w: World) {
    w.rootClosed == None && forall at, name :: w.openDir(at, name) == w.walk(at, name)
  }

  /** On this path OpenLong and resolution agree, wherever directories can be read. */
  ghost predicate Agrees(path: string, pathMax: nat)
    requires pathMax >= 2
  {
    forall w: World, last: Lookup | Sound(w, pathMax, last) && Readable(w) ::
      OpenLong(w, pathMax, path, last) == OpenAt(w, None, path, last)
  }

  /** They agree on exactly the paths whose last cut leaves something, or that nothing can open. */
  lemma AgreesUnlessTailCut(path: string, pathMax: nat)
    requires pathMax >= 2
    ensures Agrees(path, pathMax) <==> !CutsAtTail(path, pathMax) || HasLongName(path, pathMax)
  {
    if !CutsAtTail(path, pathMax) || HasLongName(path, pathMax) {
      forall w: World, last: Lookup | Sound(w, pathMax, last) && Readable(w)
        ensures OpenLong(w, pathMax, path, last) == OpenAt(w, None, path, last)
      {
        OpenLongIs(w, pathMax, None, path, last);
        NoneClosed(w, pathMax, None, path, last);
        if HasLongName(path, pathMax) { LongNameFails(w, pathMax, path, last); }
      }
    } else {
      var w := OneDirectory(pathMax);
      OneDirectorySound(pathMax);
      OpenLongIs(w, pathMax, None, path, w.openDir);
      NoneClosed(w, pathMax, None, path, w.openDir);
      TailIsSlash(path, pathMax);
      OneDirectoryOpens(pathMax, path);
    }
  }

  lemma {:induction false} NoneClosed(w: World, pathMax: nat, dir: Option<Node>, rest: string, last: Lookup)
    requires pathMax >= 2 && Sound(w, pathMax, last) && Readable(w)
    ensures FirstClosed(w, pathMax, dir, rest) == None
    decreases |rest|
  {
    if |rest| >= pathMax && Cut(rest, pathMax).Some? {
      var cut := Cut(rest, pathMax).value;
      var next := OpenAt(w, dir, rest[..cut], w.openDir);
      ReadableOpens(w, dir, rest[..cut]);
      hide Readable, OpenAt, SearchAt;
      if next.Ok? { NoneClosed(w, pathMax, Some(next.value), rest[Skip(rest, cut)..], last); }
    }
  }

  lemma ReadableOpens(w: World, dir: Option<Node>, piece: string)
    requires Readable(w) && piece != ""
    ensures OpenAt(w, dir, piece, w.openDir) == SearchAt(w, dir, piece)
  {
    if Names(piece) == [] { OnlySlashes(piece); } else { ReadableReach(w, Start(w, dir, piece), Names(piece)); }
  }

  lemma {:induction false} ReadableReach(w: World, at: Node, names: seq<Name>)
    requires Readable(w) && names != []
    ensures Reach(w, at, names, w.openDir) == WalkAll(w, at, names)
    decreases |names|
  {
    var next := w.walk(at, names[0]);
    assert w.openDir(at, names[0]) == next;
    if |names| > 1 && next.Ok? { ReadableReach(w, next.value, names[1..]); }
    assert |names| == 1 && next.Ok? ==> WalkAll(w, next.value, names[1..]) == next;
  }

  lemma LongNameFails(w: World, pathMax: nat, path: string, last: Lookup)
    requires pathMax >= 2 && Sound(w, pathMax, last) && HasLongName(path, pathMax)
    ensures OpenAt(w, None, path, last).Err?
  {
    var i :| 0 <= i < |Names(path)| && |Names(path)[i]| >= pathMax - 1;
    LongNameStops(w, pathMax, Start(w, None, path), Names(path), i, last);
    LongNameStops(w, pathMax, Start(w, None, path), Names(path), i, w.openDir) by { LongNamesUnread(w, pathMax, last); }
  }

  lemma LongNamesUnread(w: World, pathMax: nat, last: Lookup)
    requires Sound(w, pathMax, last)
    ensures Sound(w, pathMax, w.openDir)
  {
  }

  lemma {:induction false} LongNameStops(w: World, pathMax: nat, at: Node, names: seq<Name>, i: nat, last: Lookup)
    requires Sound(w, pathMax, last) && i < |names| && |names[i]| >= pathMax - 1
    ensures Reach(w, at, names, last).Err?
    decreases i
  {
    if i == 0 {
      assert w.walk(at, names[0]) == Err(NameTooLong) && last(at, names[0]) == Err(NameTooLong);
    } else if w.walk(at, names[0]).Ok? {
      LongNameStops(w, pathMax, w.walk(at, names[0]).value, names[1..], i - 1, last);
    }
  }

  /** A directory in which every name that fits is the directory itself. */
  function OneDirectory(pathMax: nat): World {
    var self: Lookup := (at, name) => if |name| >= pathMax - 1 then Err(NameTooLong) else Ok(0);
    World(0, 0, None, self, self)
  }

  lemma OneDirectorySound(pathMax: nat)
    ensures var w := OneDirectory(pathMax); Sound(w, pathMax, w.openDir) && Readable(w)
  {
  }

  lemma OneDirectoryOpens(pathMax: nat, path: string)
    requires path != "" && !HasLongName(path, pathMax)
    ensures OpenAt(OneDirectory(pathMax), None, path, OneDirectory(pathMax).openDir) == Ok(0)
  {
    if Names(path) != [] { OneDirectoryReaches(pathMax, Names(path)); }
  }

  lemma {:induction false} OneDirectoryReaches(pathMax: nat, names: seq<Name>)
    requires names != [] && forall i | 0 <= i < |names| :: |names[i]| < pathMax - 1
    ensures Reach(OneDirectory(pathMax), 0, names, OneDirectory(pathMax).openDir) == Ok(0)
    decreases |names|
  {
    if |names| > 1 { OneDirectoryReaches(pathMax, names[1..]); }
  }

  // ---- Paths that are lost ----

  /** "a/a/.../a/" */
  function Repeated(n: nat): string {
    if n == 0 then "" else "a/" + Repeated(n - 1)
  }

  /**
   * For every even PATH_MAX from 4 on, "a/a/.../a/" of exactly that length: resolution
   * opens the directory and OpenLong does not find it.
   */
  lemma TrailingSlashLost(n: nat)
    requires n >= 2
    ensures var w := OneDirectory(2 * n);
      && Sound(w, 2 * n, w.openDir) && Readable(w)
      && |Repeated(n)| == 2 * n && OpenAt(w, None, Repeated(n), w.openDir) == Ok(0)
      && OpenLong(w, 2 * n, Repeated(n), w.openDir) == Err(NoEntry)
  {
    var w := OneDirectory(2 * n);
    OneDirectorySound(2 * n);
    RepeatedIs(n);
    NoneClosed(w, 2 * n, None, Repeated(n), w.openDir);
    OneDirectoryOpens(2 * n, Repeated(n));
    OpenLongIs(w, 2 * n, None, Repeated(n), w.openDir);
    assert Repeated(n)[2 * n..] == "";
    assert CutsAtTail(Repeated(n), 2 * n);
  }

  lemma {:induction false} RepeatedIs(n: nat)
    ensures |Repeated(n)| == 2 * n && (n > 0 ==> Repeated(n)[0] == 'a' && Repeated(n)[2 * n - 1] == '/')
    ensures forall i | 0 <= i < |Names(Repeated(n))| :: Names(Repeated(n))[i] == "a"
  {
    if n > 0 {
      RepeatedIs(n - 1);
      assert Repeated(n) == "a" + "/" + Repeated(n - 1);
      NamesSplit("a", Repeated(n - 1));
      LoneName("a");
    }
  }

  // ---- The loop ----

  method RFind(s: string, pos: nat) returns (found: Option<nat>)
    requires s != ""
    ensures found == LastSlash(s, if pos < |s| then pos else |s| - 1)
  {
    var i := if pos < |s| then pos else |s| - 1;
    while i >= 0
      invariant -1 <= i < |s|
      invariant LastSlash(s, i) == LastSlash(s, if pos < |s| then pos else |s| - 1)
    {
      if s[i] == '/' { return Some(i); }
      i := i - 1;
    }
    found := None;
  }

  /** The directory reached by opening the pieces one after another, each from the one before. */
  ghost function InTurn(w: World, pieces: seq<string>): Result<Option<Node>, Errno> {
    if pieces == [] then Ok(None)
    else
      var n := |pieces| - 1;
      match InTurn(w, pieces[..n])
      case Err(e) => Err(e)
      case Ok(dir) => match OpenAt(w, dir, pieces[n], w.openDir) case Err(e) => Err(e) case Ok(next) => Ok(Some(next))
  }

  /**
   * Every piece opened fits the system's buffer with its NUL, what is opened at the end is
   * reached through the pieces in turn, and the result is OpenLong's.
   */
  method OpenPieces(w: World, pathMax: nat, path: string, last: Lookup) returns (r: Result<Node, Errno>, ghost pieces: seq<string>)
    requires pathMax >= 2
    ensures r == OpenLong(w, pathMax, path, last)
    ensures forall piece | piece in pieces :: |piece| + 1 <= pathMax
    ensures r.Ok? ==>
      && pieces != [] && InTurn(w, pieces[..|pieces| - 1]).Ok?
      && r == OpenAt(w, InTurn(w, pieces[..|pieces| - 1]).value, pieces[|pieces| - 1], last)
  {
    var rest: string, dir: Option<Node> := path, None;
    pieces := [];
    while |rest| >= pathMax
      invariant OpenLong(w, pathMax, path, last) == OpenLongFrom(w, pathMax, dir, rest, last)
      invariant forall piece | piece in pieces :: |piece| + 1 <= pathMax
      invariant InTurn(w, pieces) == Ok(dir)
      decreases |rest|
    {
      var cut := RFind(rest, pathMax - 1);
      if cut == None || cut.value == 0 {
        return Err(NameTooLong), pieces;
      }
      var piece := rest[..cut.value];
      assert (pieces + [piece])[..|pieces|] == pieces;
      pieces := pieces + [piece];
      var next := OpenAt(w, dir, piece, w.openDir);
      if next.Err? { return next, pieces; }
      dir := Some(next.value);
      var skip := cut.value;
      while skip < |rest| && rest[skip] == '/'
        invariant cut.value <= skip <= |rest| && Skip(rest, cut.value) == Skip(rest, skip)
      {
        skip := skip + 1;
      }
      rest := rest[skip..];
    }
    assert (pieces + [rest])[..|pieces|] == pieces;
    pieces := pieces + [rest];
    r := OpenAt(w, dir, rest, last);
  }

  // ---- Removing by path ----

  /** The directory and the name in it that rmdir takes away. */
  datatype Target = Target(parent: Node, name: Name)

  /** An entry named to unlinkat. */
  function EntryOf(pathMax: nat, parent: Node, name: Name): Result<Target, Errno> {
    if name == "" then Err(NoEntry)
    else if |name| >= pathMax - 1 then Err(NameTooLong)
    else Ok(Target(parent, name))
  }

  /** What rmdir of a path of any length takes away: everything but the last component is searched. */
  function RmdirTarget(w: World, pathMax: nat, path: string): Result<Target, Errno> {
    var names := Names(path);
    if path == "" then Err(NoEntry)
    else if names == [] then Err(Busy)
    else
      var parent := WalkAll(w, Start(w, None, path), names[..|names| - 1]);
      if parent.Err? then Err(parent.error) else EntryOf(pathMax, parent.value, names[|names| - 1])
  }

  /** What RemoveEmpty takes away: too long for rmdir, a path is removed by parent and last name. */
  function RemoveTarget(w: World, pathMax: nat, path: string): Result<Target, Errno>
    requires pathMax >= 2
  {
    if |path| < pathMax then RmdirTarget(w, pathMax, path)
    else
      var slash := LastSlash(path, |path| - 1);
      if slash.None? then Err(NameTooLong)
      else
        var parent := OpenLong(w, pathMax, path[..slash.value], w.openDir);
        if parent.Err? then Err(parent.error) else EntryOf(pathMax, parent.value, path[slash.value + 1..])
  }

  method RemoveEmpty(w: World, pathMax: nat, path: string) returns (r: Result<Target, Errno>)
    requires pathMax >= 2
    ensures r == RemoveTarget(w, pathMax, path)
  {
    hide RmdirTarget, EntryOf, OpenLong, LastSlash;
    if |path| < pathMax {
      return RmdirTarget(w, pathMax, path);
    }
    var slash := RFind(path, |path| - 1);
    if slash == None {
      return Err(NameTooLong);
    }
    var parent, _ := OpenPieces(w, pathMax, path[..slash.value], w.openDir);
    if parent.Err? { return Err(parent.error); }
    r := EntryOf(pathMax, parent.value, path[slash.value + 1..]);
  }

  lemma ByParent(w: World, pathMax: nat, path: string, slash: nat)
    requires 0 < slash < |path| - 1 && path[slash] == '/' && NoSlash(path[slash + 1..])
    ensures RmdirTarget(w, pathMax, path) ==
      var parent := SearchAt(w, None, path[..slash]);
      if parent.Err? then Err(parent.error) else EntryOf(pathMax, parent.value, path[slash + 1..])
  {
    hide Names, WalkAll, EntryOf;
    var parent, name := path[..slash], path[slash + 1..];
    assert path == parent + "/" + name;
    NamesSplit(parent, name);
    LoneName(name);
    assert (Names(parent) + [name])[..|Names(parent)|] == Names(parent);
  }

  /**
   * A path with a last name and something before it: RemoveEmpty takes away what rmdir of
   * the whole path would, or gives the same error, if the parent and every directory at a
   * cut may be read and no cut falls on slashes at the parent's end.
   */
  lemma RemovesTheSame(w: World, pathMax: nat, path: string, slash: nat)
    requires pathMax >= 2 && Sound(w, pathMax, w.openDir)
    requires 0 < slash < |path| - 1 && path[slash] == '/' && NoSlash(path[slash + 1..])
    requires |path| >= pathMax ==>
      && FirstClosed(w, pathMax, None, path[..slash]) == None && !CutsAtTail(path[..slash], pathMax)
      && (SearchAt(w, None, path[..slash]).Ok? ==> OpenAt(w, None, path[..slash], w.openDir).Ok?)
    ensures RemoveTarget(w, pathMax, path) == RmdirTarget(w, pathMax, path)
  {
    if |path| >= pathMax {
      hide Names, WalkAll, Reach, EntryOf, OpenAt, SearchAt, FirstClosed, CutsAtTail, Sound, RmdirTarget;
      assert LastSlash(path, |path| - 1) == Some(slash) by { LastSlashIs(path, slash, |path| - 1); }
      OpenLongIs(w, pathMax, None, path[..slash], w.openDir);
      PieceOpened(w, pathMax, None, path[..slash], w.openDir);
      ByParent(w, pathMax, path, slash);
    }
  }

  lemma {:induction false} LastSlashIs(s: string, slash: nat, pos: nat)
    requires slash <= pos < |s| && s[slash] == '/' && NoSlash(s[slash + 1..])
    ensures LastSlash(s, pos) == Some(slash)
    decreases pos
  {
    if pos > slash {
      assert s[slash + 1..][pos - slash - 1] == s[pos];
      LastSlashIs(s, slash, pos - 1);
    }
  }

  /** With nothing before its last name, a path too long for rmdir is too long either way. */
  lemma LoneTooLong(w: World, pathMax: nat, path: string)
    requires pathMax >= 2 && NoSlash(path) && |path| >= pathMax
    ensures RemoveTarget(w, pathMax, path) == RmdirTarget(w, pathMax, path) == Err(NameTooLong)
  {
    LoneName(path);
  }

  /**
   * The one path below the root that is lost: a single name too long for the file system,
   * whose parent is the empty path. It cannot name anything.
   */
  lemma BelowRootLost(w: World, pathMax: nat, path: string)
    requires |path| >= pathMax >= 2 && path[0] == '/' && NoSlash(path[1..])
    ensures RemoveTarget(w, pathMax, path) == Err(NoEntry) && RmdirTarget(w, pathMax, path) == Err(NameTooLong)
  {
    LastSlashIs(path, 0, |path| - 1);
    LoneName(path[1..]);
    NothingToOpen(w, None, w.openDir);
  }
}
