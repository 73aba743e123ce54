/**
 * The paths the walk opens and removes by: an operand short enough to have been opened,
 * then names without slashes. Every cut OpenLong makes in one falls between two
 * directories of the chain, so it opens ancestors the walk has opened before, and what it
 * reaches or removes is what the whole path names.
 */
module WalkPaths {
  import opened Common
  import opened PathText
  import opened LongPath
  import opened DirNodes
  import Walk

  type Chain = seq<Name>

  ghost function Render(chain: Chain): string {
    Walk.Render(chain)
  }

  /** Entries of a directory have names, and a name has no slash. */
  ghost predicate Entries(chain: Chain) {
    forall i | 1 <= i < |chain| :: chain[i] != "" && NoSlash(chain[i])
  }

  /** The operand was opened by its path, which the system refuses from PATH_MAX on (src/main.cpp:495-505). */
  ghost predicate WalkChain(chain: Chain, pathMax: nat) {
    chain != [] && chain[0] != "" && |chain[0]| < pathMax && Entries(chain)
  }

  /** Each directory above the last can be opened for reading, as the walk did to scan it. */
  ghost predicate AncestorsOpen(w: World, chain: Chain) {
    forall j | 1 <= j < |chain| :: OpenAt(w, None, Render(chain[..j]), w.openDir).Ok?
  }

  // ---- Rendered chains ----

  lemma {:induction false} RenderSplit(a: Chain, b: Chain)
    requires a != [] && b != []
    ensures Render(a + b) == Render(a) + "/" + Render(b)
    decreases |b|
  {
    var whole := a + b;
    assert Walk.Last(whole) == Walk.Last(b) && Walk.Parent(whole) == a + Walk.Parent(b);
    if |b| == 1 {
      assert a + Walk.Parent(b) == a;
    } else {
      RenderSplit(a, Walk.Parent(b));
      Associate(Render(a), Render(Walk.Parent(b)), Walk.Last(b));
    }
  }

  lemma Associate(a: string, b: string, c: string)
    ensures a + "/" + b + "/" + c == a + "/" + (b + "/" + c)
  {
  }

  lemma {:induction false} RenderSize(chain: Chain)
    requires chain != []
    ensures |Render(chain)| >= |chain[0]| && Render(chain)[..|chain[0]|] == chain[0]
    decreases |chain|
  {
    if |chain| > 1 {
      RenderSplit(chain[..1], chain[1..]);
      assert chain[..1] + chain[1..] == chain;
    }
  }

  lemma LoneRender(chain: Chain)
    requires chain != []
    ensures |chain| == 1 ==> Render(chain) == chain[0]
  {
  }

  lemma LastHasNoSlash(chain: Chain)
    requires Entries(chain) && |chain| > 1
    ensures forall i | |Render(chain[..|chain| - 1])| < i < |Render(chain)| :: Render(chain)[i] != '/'
  {
    var n, before := |chain| - 1, Render(chain[..|chain| - 1]);
    assert Render(chain) == before + "/" + chain[n] && NoSlash(chain[n]);
    forall i | |before| < i < |Render(chain)| ensures Render(chain)[i] != '/' {
      assert Render(chain)[i] == chain[n][i - |before| - 1];
    }
  }

  /** A slash behind the first name stands between two of the chain. */
  lemma {:induction false} SlashIsBoundary(chain: Chain, i: nat) returns (j: nat)
    requires chain != [] && Entries(chain) && |chain[0]| <= i < |Render(chain)| && Render(chain)[i] == '/'
    ensures 1 <= j < |chain| && i == |Render(chain[..j])|
    decreases |chain|
  {
    LoneRender(chain);
    LastHasNoSlash(chain);
    var before, n := chain[..|chain| - 1], |chain| - 1;
    assert Render(chain) == Render(before) + "/" + chain[n];
    if i < |Render(before)| {
      j := SlashIsBoundary(before, i);
      assert before[..j] == chain[..j];
    } else {
      j := n;
    }
  }

  /** Splitting a rendered chain at a boundary. */
  lemma AtBoundary(chain: Chain, j: nat)
    requires Entries(chain) && 1 <= j < |chain|
    ensures var path, at := Render(chain), |Render(chain[..j])|;
      && at < |path| - 1 && path[at] == '/' && path[..at] == Render(chain[..j])
      && path[at + 1] != '/' && path[at + 1..] == Render(chain[j..]) && Skip(path, at) == at + 1
  {
    assert chain[..j] + chain[j..] == chain;
    RenderSplit(chain[..j], chain[j..]);
    RenderSize(chain[j..]);
    assert NoSlash(chain[j]) && chain[j] != "";
    var path, at := Render(chain), |Render(chain[..j])|;
    assert path[at + 1..] == Render(chain[j..]);
    assert path[at + 1] == Render(chain[j..])[0] == chain[j][0];
  }

  lemma TailEntries(chain: Chain, j: nat)
    requires Entries(chain) && 1 <= j < |chain|
    ensures Entries(chain[j..]) && Entries(chain[..j]) && chain[j..][0] == chain[j]
  {
  }

  /** Only a lone operand's path may end in a slash. */
  lemma NoTrailingSlash(chain: Chain)
    requires Entries(chain) && |chain| > 1
    ensures !EndsInSlash(Render(chain))
  {
    var n := |chain| - 1;
    assert NoSlash(chain[n]) && chain[n] != "";
    assert Render(chain) == Render(chain[..n]) + "/" + chain[n];
  }

  lemma CutBehindFirst(chain: Chain, pathMax: nat)
    requires chain != [] && Entries(chain) && 2 <= pathMax <= |Render(chain)| && Cut(Render(chain), pathMax).Some?
    requires (chain[0] != "" && |chain[0]| < pathMax) || NoSlash(chain[0])
    ensures Cut(Render(chain), pathMax).value >= |chain[0]|
  {
    RenderSize(chain);
    var path := Render(chain);
    if NoSlash(chain[0]) {
      forall k | 0 <= k < |chain[0]| ensures path[k] != '/' { assert path[..|chain[0]|][k] == path[k]; }
    } else {
      LoneRender(chain);
      AtBoundary(chain, 1);
      assert chain[..1] == [chain[0]];
    }
  }

  /** Where a chain's path is cut, it is cut between two of its directories. */
  lemma CutIsBoundary(chain: Chain, pathMax: nat) returns (j: nat)
    requires chain != [] && Entries(chain) && 2 <= pathMax <= |Render(chain)| && Cut(Render(chain), pathMax).Some?
    requires (chain[0] != "" && |chain[0]| < pathMax) || NoSlash(chain[0])
    ensures 1 <= j < |chain| && Cut(Render(chain), pathMax) == Some(|Render(chain[..j])|)
  {
    CutBehindFirst(chain, pathMax);
    j := SlashIsBoundary(chain, Cut(Render(chain), pathMax).value);
  }

  lemma TailCutNever(chain: Chain, pathMax: nat)
    requires WalkChain(chain, pathMax) && pathMax >= 2
    ensures !CutsAtTail(Render(chain), pathMax)
  {
    if CutsAtTail(Render(chain), pathMax) {
      TailIsSlash(Render(chain), pathMax);
      if |chain| > 1 { NoTrailingSlash(chain); }
    }
  }

  // ---- Every directory at a cut opens ----

  /** From one ancestor to a later one. */
  lemma FromAncestor(w: World, pathMax: nat, chain: Chain, i: nat, j: nat, d: Node, last: Lookup)
    requires Sound(w, pathMax, last) && Entries(chain) && chain != [] && chain[0] != "" && 1 <= i < j <= |chain|
    requires OpenAt(w, None, Render(chain[..i]), w.openDir) == Ok(d)
    ensures OpenAt(w, Some(d), Render(chain[i..j]), w.openDir) == OpenAt(w, None, Render(chain[..j]), w.openDir)
  {
    hide OpenAt, SearchAt, Sound, Render;
    var upTo := chain[..j];
    assert upTo[..i] == chain[..i] && upTo[i..] == chain[i..j];
    AtBoundary(upTo, i);
    NotEmpty(chain[..i]);
    PieceOpened(w, pathMax, None, Render(chain[..i]), last);
    CutOpen(w, None, Render(upTo), |Render(chain[..i])|, w.openDir);
  }

  lemma NotEmpty(chain: Chain)
    requires chain != [] && chain[0] != ""
    ensures Render(chain) != ""
  {
    RenderSize(chain);
  }

  lemma {:induction false} NoAncestorClosed(w: World, pathMax: nat, chain: Chain, i: nat, dir: Option<Node>, last: Lookup)
    requires pathMax >= 2 && Sound(w, pathMax, last) && WalkChain(chain, pathMax) && AncestorsOpen(w, chain) && i < |chain|
    requires if i == 0 then dir == None else dir.Some? && OpenAt(w, None, Render(chain[..i]), w.openDir) == Ok(dir.value)
    ensures FirstClosed(w, pathMax, dir, Render(chain[i..])) == None
    decreases |chain| - i
  {
    hide OpenAt, SearchAt, Sound, Render, Cut;
    var rest := Render(chain[i..]);
    if |rest| >= pathMax && Cut(rest, pathMax).Some? {
      if i == 0 { assert chain[i..] == chain; } else { TailEntries(chain, i); }
      var j := CutIsBoundary(chain[i..], pathMax);
      var at := |Render(chain[i..][..j])|;
      AtBoundary(chain[i..], j);
      assert chain[i..][..j] == chain[i..i + j] && chain[i..][j..] == chain[i + j..];
      if i == 0 { assert chain[i..i + j] == chain[..j]; } else { FromAncestor(w, pathMax, chain, i, i + j, dir.value, last); }
      var next := OpenAt(w, dir, rest[..at], w.openDir);
      assert next == OpenAt(w, None, Render(chain[..i + j]), w.openDir) && next.Ok?;
      NoAncestorClosed(w, pathMax, chain, i + j, Some(next.value), last);
    }
  }

  // ---- What a node's path reaches and removes ----

  /** Opening a directory of the walk by its path, however long, is resolving that path. */
  lemma NodeOpens(node: DirNode, w: World, pathMax: nat, last: Lookup)
    requires node.Valid() && pathMax >= 2 && Sound(w, pathMax, last)
    requires WalkChain(node.Chain(), pathMax) && AncestorsOpen(w, node.Chain())
    ensures OpenLong(w, pathMax, node.PathOf(), last) == OpenAt(w, None, node.PathOf(), last)
  {
    var chain := node.Chain();
    node.PathIsRendered();
    assert chain[0..] == chain;
    NoAncestorClosed(w, pathMax, chain, 0, None, last);
    TailCutNever(chain, pathMax);
    hide Sound, OpenAt, WalkChain, AncestorsOpen, CutsAtTail, FirstClosed;
    OpenLongIs(w, pathMax, None, node.PathOf(), last);
  }

  /** Removing a directory of the walk takes away what rmdir of its path names, in either form. */
  lemma NodeRemoves(node: DirNode, w: World, pathMax: nat)
    requires node.Valid() && pathMax >= 2 && Sound(w, pathMax, w.openDir)
    requires WalkChain(node.Chain(), pathMax) && AncestorsOpen(w, node.Chain())
    ensures RemoveTarget(w, pathMax, node.PathOf()) == RmdirTarget(w, pathMax, node.PathOf())
  {
    var chain := node.Chain();
    node.PathIsRendered();
    if |Render(chain)| >= pathMax {
      assert |chain| > 1;
      ChainRemoves(w, pathMax, chain);
    }
  }

  lemma ChainRemoves(w: World, pathMax: nat, chain: Chain)
    requires pathMax >= 2 && Sound(w, pathMax, w.openDir) && WalkChain(chain, pathMax) && AncestorsOpen(w, chain) && |chain| > 1
    ensures RemoveTarget(w, pathMax, Render(chain)) == RmdirTarget(w, pathMax, Render(chain))
  {
    var n := |chain| - 1;
    var parents, slash := chain[..n], |Render(chain[..n])|;
    AtBoundary(chain, n);
    LastName(chain);
    NotEmpty(parents);
    ParentsChain(w, pathMax, chain);
    assert parents[0..] == parents;
    NoAncestorClosed(w, pathMax, parents, 0, None, w.openDir);
    TailCutNever(parents, pathMax);
    assert OpenAt(w, None, Render(parents), w.openDir).Ok?;
    hide Sound, OpenAt, SearchAt, CutsAtTail, FirstClosed, Render, Entries;
    RemovesTheSame(w, pathMax, Render(chain), slash);
  }

  lemma LastName(chain: Chain)
    requires Entries(chain) && |chain| > 1
    ensures var n := |chain| - 1; Render(chain[n..]) == chain[n] && NoSlash(Render(chain[n..]))
  {
    var n := |chain| - 1;
    assert chain[n..] == [chain[n]];
  }

  lemma ParentsChain(w: World, pathMax: nat, chain: Chain)
    requires WalkChain(chain, pathMax) && AncestorsOpen(w, chain) && |chain| > 1
    ensures WalkChain(chain[..|chain| - 1], pathMax) && AncestorsOpen(w, chain[..|chain| - 1])
  {
    var parents := chain[..|chain| - 1];
    forall j | 1 <= j < |parents| ensures OpenAt(w, None, Render(parents[..j]), w.openDir).Ok? {
      assert parents[..j] == chain[..j];
    }
  }
}
