/** Paths as text: their components, and where one too long for the system can be cut. */
module PathText {
  import opened Common

  type Name = string

  predicate NoSlash(s: string) {
    forall i | 0 <= i < |s| :: s[i] != '/'
  }

  function NameEnd(s: string): (n: nat)
    ensures n <= |s| && NoSlash(s[..n]) && (n < |s| ==> s[n] == '/')
  {
    if s == "" || s[0] == '/' then 0 else 1 + NameEnd(s[1..])
  }

  /** The components: what lies between slashes, any number of which separate two. */
  function Names(s: string): seq<Name>
    decreases |s|
  {
    if s == "" then []
    else if s[0] == '/' then Names(s[1..])
    else [s[..NameEnd(s)]] + Names(s[NameEnd(s)..])
  }

  predicate EndsInSlash(s: string) {
    s != "" && s[|s| - 1] == '/'
  }

  lemma NameEndIs(s: string, n: nat)
    requires n < |s| && s[n] == '/' && NoSlash(s[..n])
    ensures NameEnd(s) == n
  {
    hide NameEnd;
    var m := NameEnd(s);
    forall i | 0 <= i < m ensures s[i] != '/' { assert s[..m][i] == s[i]; }
    forall i | 0 <= i < n ensures s[i] != '/' { assert s[..n][i] == s[i]; }
  }

  /** The first component of a path, with more of the path behind it. */
  lemma FirstName(a: string, b: string)
    requires a != "" && a[0] != '/'
    ensures var s, n := a + "/" + b, NameEnd(a);
      && 0 < n <= |a| && NameEnd(s) == n && s[..n] == a[..n] && s[n..] == a[n..] + "/" + b
  {
    hide NameEnd, Names;
    var s, n := a + "/" + b, NameEnd(a);
    assert s == a + ("/" + b) && a[n..] + "/" + b == a[n..] + ("/" + b);
    AppendTakeDrop(a, "/" + b, n);
    NameEndIs(s, n);
  }

  lemma {:induction false} NamesSplit(a: string, b: string)
    ensures Names(a + "/" + b) == Names(a) + Names(b)
    decreases |a|
  {
    var s := a + "/" + b;
    if a == "" {
      assert s[1..] == b;
    } else if a[0] == '/' {
      assert s[1..] == a[1..] + "/" + b;
      NamesSplit(a[1..], b);
    } else {
      FirstName(a, b);
      NamesSplit(a[NameEnd(a)..], b);
    }
  }

  lemma {:induction false} SlashesGone(s: string, k: nat)
    requires k <= |s| && forall i | 0 <= i < k :: s[i] == '/'
    ensures Names(s) == Names(s[k..])
    decreases k
  {
    if k == 0 {
      assert s[0..] == s;
    } else {
      SlashesGone(s[1..], k - 1);
      assert s[1..][k - 1..] == s[k..];
    }
  }

  lemma SomeName(s: string)
    requires s != "" && s[0] != '/'
    ensures Names(s) != []
  {
  }

  lemma CutNames(path: string, cut: nat, skip: nat)
    requires 0 < cut < |path| && path[cut] == '/' && cut < skip < |path| && path[skip] != '/'
    requires forall i | cut <= i < skip :: path[i] == '/'
    ensures Names(path) == Names(path[..cut]) + Names(path[skip..]) && Names(path[skip..]) != []
    ensures EndsInSlash(path[skip..]) == EndsInSlash(path)
  {
    hide Names;
    var piece, rest := path[..cut], path[skip..];
    assert path == piece + "/" + path[cut + 1..];
    NamesSplit(piece, path[cut + 1..]);
    SomeName(rest);
    SlashesGone(path[cut + 1..], skip - cut - 1);
    assert path[cut + 1..][skip - cut - 1..] == rest;
    assert rest[|rest| - 1] == path[|path| - 1];
  }

  lemma LoneName(name: Name)
    requires name != "" && NoSlash(name)
    ensures Names(name) == [name]
  {
    assert NameEnd(name) == |name|;
    assert name[..NameEnd(name)] == name && name[NameEnd(name)..] == "";
  }

  // ---- Cuts ----

  /** The last slash at or before `pos`. */
  function LastSlash(s: string, pos: int): (found: Option<nat>)
    requires -1 <= pos < |s|
    ensures found.Some? ==> found.value <= pos && s[found.value] == '/'
    ensures forall i | (if found.Some? then found.value else -1) < i <= pos :: s[i] != '/'
    decreases pos + 1
  {
    if pos < 0 then None else if s[pos] == '/' then Some(pos) else LastSlash(s, pos - 1)
  }

  /** Where a path too long for one open is cut: at the last slash that lets the piece and its NUL fit. */
  function Cut(path: string, pathMax: nat): (cut: Option<nat>)
    requires 2 <= pathMax <= |path|
    ensures cut.Some? ==> 0 < cut.value < pathMax && path[cut.value] == '/'
    ensures cut.None? ==> forall i | 1 <= i < pathMax :: path[i] != '/'
  {
    var slash := LastSlash(path, pathMax - 1);
    if slash == Some(0) then None else slash
  }

  /** Past the slashes at `from`. */
  function Skip(s: string, from: nat): (n: nat)
    requires from <= |s|
    ensures from <= n <= |s| && (forall i | from <= i < n :: s[i] == '/') && (n < |s| ==> s[n] != '/')
    decreases |s| - from
  {
    if from == |s| || s[from] != '/' then from else Skip(s, from + 1)
  }

  /** Cutting pieces off ends with nothing but slashes left: the last cut falls on them. */
  predicate CutsAtTail(path: string, pathMax: nat)
    requires pathMax >= 2
    decreases |path|
  {
    && |path| >= pathMax && Cut(path, pathMax).Some?
    && var rest := path[Skip(path, Cut(path, pathMax).value)..];
       rest == "" || CutsAtTail(rest, pathMax)
  }

  /** A path that does not end in a slash has no such tail. */
  lemma {:induction false} TailIsSlash(path: string, pathMax: nat)
    requires pathMax >= 2 && CutsAtTail(path, pathMax)
    ensures EndsInSlash(path) && |path| >= pathMax
    decreases |path|
  {
    var skip := Skip(path, Cut(path, pathMax).value);
    if skip < |path| {
      TailIsSlash(path[skip..], pathMax);
    }
  }
}
