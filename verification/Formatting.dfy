/** Format strings: which are accepted, and what the pieces made of one say. */
module Formatting {
  import opened Common

  predicate IsBrace(c: char) {
    c == '{' || c == '}'
  }

  predicate NoBraces(s: string) {
    forall i | 0 <= i < |s| :: !IsBrace(s[i])
  }

  predicate HoleAt(s: string, i: nat) {
    i + 1 < |s| && s[i] == '{' && s[i + 1] == '}'
  }

  /** Literal text with a hole between each two. */
  function Joined(literals: seq<string>): string {
    if |literals| == 0 then ""
    else if |literals| == 1 then literals[0]
    else literals[0] + "{}" + Joined(literals[1..])
  }

  /** The same with the arguments in the holes. */
  function Substituted(literals: seq<string>, args: seq<string>): string
    requires |literals| == |args| + 1
  {
    if args == [] then literals[0] else literals[0] + args[0] + Substituted(literals[1..], args[1..])
  }

  ghost predicate Literals(literals: seq<string>) {
    literals != [] && forall l | l in literals :: NoBraces(l)
  }

  /** The literal parts, if every brace belongs to a hole. */
  function Split(s: string): Option<seq<string>> {
    if s == "" then Some([""])
    else if HoleAt(s, 0) then
      var rest := Split(s[2..]);
      if rest.None? then None else Some([""] + rest.value)
    else if IsBrace(s[0]) then None
    else
      var rest := Split(s[1..]);
      if rest.None? || rest.value == [] then None else Some(Pushed(s[0], rest.value))
  }

  function Pushed(c: char, rest: seq<string>): seq<string>
    requires rest != []
  {
    [[c] + rest[0]] + rest[1..]
  }

  /** One more character at the front. */
  lemma JoinedPush(c: char, rest: seq<string>)
    requires rest != []
    ensures Joined(Pushed(c, rest)) == [c] + Joined(rest)
  {
    assert Pushed(c, rest)[1..] == rest[1..];
    if |rest| > 1 {
      FourParts([c], rest[0], "{}", Joined(rest[1..]));
    }
  }

  lemma FourParts(a: string, b: string, c: string, d: string)
    ensures a + b + c + d == a + (b + c + d)
  {
  }

  lemma LiteralsPush(c: char, rest: seq<string>)
    requires Literals(rest) && !IsBrace(c)
    ensures Literals(Pushed(c, rest))
  {
    assert NoBraces(rest[0]);
    forall l | l in Pushed(c, rest) ensures NoBraces(l) { assert l == Pushed(c, rest)[0] || l in rest; }
  }

  /** Split finds the parts. */
  lemma {:induction false} SplitSound(s: string)
    ensures Split(s).Some? ==> Literals(Split(s).value) && Joined(Split(s).value) == s
  {
    if s != "" && Split(s).Some? {
      if HoleAt(s, 0) {
        SplitSound(s[2..]);
        assert s == "{}" + s[2..];
        assert Split(s).value[1..] == Split(s[2..]).value;
      } else {
        SplitSound(s[1..]);
        JoinedPush(s[0], Split(s[1..]).value);
        LiteralsPush(s[0], Split(s[1..]).value);
        assert s == [s[0]] + s[1..];
      }
    }
  }

  /** There are no other parts: a text without stray braces splits in one way. */
  lemma {:induction false} SplitComplete(literals: seq<string>)
    requires Literals(literals)
    ensures Split(Joined(literals)) == Some(literals)
    decreases |literals|, |literals[0]|
  {
    var s, first := Joined(literals), literals[0];
    if first != "" {
      var shorter := [first[1..]] + literals[1..];
      assert shorter[1..] == literals[1..];
      assert [first[0]] + shorter[0] == first;
      assert Pushed(first[0], shorter) == literals;
      JoinedPush(first[0], shorter);
      assert s == [first[0]] + Joined(shorter) && s[1..] == Joined(shorter) && s[0] == first[0];
      assert NoBraces(first);
      SplitComplete(shorter);
      assert [first[0]] + first[1..] == first;
      assert [first] + literals[1..] == literals;
    } else if |literals| > 1 {
      assert s == "{}" + Joined(literals[1..]) && s[2..] == Joined(literals[1..]);
      SplitComplete(literals[1..]);
      assert [""] + literals[1..] == literals;
    } else {
      assert literals == [""];
    }
  }

  /** FormatString's check, where it compiles: exactly the texts with that many holes and no other brace. */
  method Accepts(str: string, args: nat) returns (accepted: bool)
    ensures accepted <==> Split(str).Some? && |Split(str).value| == args + 1
    ensures accepted <==> exists literals :: Literals(literals) && |literals| == args + 1 && Joined(literals) == str
  {
    var holes, i, stray := 0, 0, false;
    assert str[0..] == str;
    while i < |str| && !stray
      invariant i <= |str|
      invariant stray ==> Split(str).None?
      invariant !stray ==> (Split(str).Some? <==> Split(str[i..]).Some?)
      invariant !stray && Split(str).Some? ==> |Split(str).value| == holes + |Split(str[i..]).value|
      decreases |str| - i, if stray then 0 else 1
    {
      assert str[i..][1..] == str[i + 1..];
      if HoleAt(str, i) {
        assert str[i..][2..] == str[i + 2..];
        holes := holes + 1;
        i := i + 2;
      } else if IsBrace(str[i]) {
        stray := true;
      } else {
        if Split(str[i + 1..]).Some? { SplitSound(str[i + 1..]); }
        i := i + 1;
      }
    }
    accepted := !stray && holes == args;
    if Split(str).Some? { SplitSound(str); }
    forall literals | Literals(literals) && Joined(literals) == str ensures Split(str) == Some(literals) {
      SplitComplete(literals);
    }
  }

  /** std::string_view::find of a hole. */
  method FindHole(s: string) returns (at: nat)
    ensures at <= |s| && (at < |s| ==> HoleAt(s, at))
    ensures forall i | 0 <= i < at :: !HoleAt(s, i)
  {
    at := 0;
    while at < |s| && !HoleAt(s, at)
      invariant at <= |s|
      invariant forall i | 0 <= i < at :: !HoleAt(s, i)
    {
      at := at + 1;
    }
  }

  /** The first hole comes right behind the first literal. */
  lemma FirstHole(literals: seq<string>, at: nat)
    requires Literals(literals) && |literals| > 1
    requires var s := Joined(literals); at <= |s| && (at < |s| ==> HoleAt(s, at)) && forall i | 0 <= i < at :: !HoleAt(s, i)
    ensures var s := Joined(literals);
      at == |literals[0]| && at + 2 <= |s| && s[..at] == literals[0] && s[at + 2..] == Joined(literals[1..])
  {
    var s, n := Joined(literals), |literals[0]|;
    assert s == literals[0] + "{}" + Joined(literals[1..]);
    assert HoleAt(s, n);
    assert NoBraces(literals[0]);
    forall i | 0 <= i < n ensures !IsBrace(s[i]) { assert s[i] == literals[0][i]; }
    assert s[n + 2..] == Joined(literals[1..]);
  }

  lemma FlattenMore(before: seq<string>, a: string, b: string)
    ensures Flatten(before + [a, b]) == Flatten(before) + a + b
  {
    FlattenConcat(before, [a, b]);
    assert [a, b][1..] == [b] && Flatten([b]) == b;
    assert Flatten(before) + (a + b) == Flatten(before) + a + b;
  }

  /** From the i-th hole on. */
  ghost function SubstitutedFrom(literals: seq<string>, views: seq<string>, i: nat): string
    requires |literals| == |views| + 1 && i <= |views|
  {
    Substituted(literals[i..], views[i..])
  }

  lemma SubstitutedOnce(literals: seq<string>, views: seq<string>, i: nat)
    requires |literals| == |views| + 1 && i < |views|
    ensures SubstitutedFrom(literals, views, i) == literals[i] + views[i] + SubstitutedFrom(literals, views, i + 1)
  {
    assert literals[i..][1..] == literals[i + 1..] && views[i..][1..] == views[i + 1..];
  }

  /** A literal and its argument go from what is to come to what is there. */
  lemma HoleFilled(literals: seq<string>, views: seq<string>, i: nat, before: seq<string>)
    requires |literals| == |views| + 1 && i < |views|
    ensures Flatten(before + [literals[i], views[i]]) + SubstitutedFrom(literals, views, i + 1)
         == Flatten(before) + SubstitutedFrom(literals, views, i)
  {
    hide Flatten, SubstitutedFrom;
    SubstitutedOnce(literals, views, i);
    FlattenMore(before, literals[i], views[i]);
    FourParts(Flatten(before), literals[i], views[i], SubstitutedFrom(literals, views, i + 1));
  }

  lemma HoleFrom(literals: seq<string>, i: nat, at: nat)
    requires Literals(literals) && i + 1 < |literals|
    requires var s := Joined(literals[i..]); at <= |s| && (at < |s| ==> HoleAt(s, at)) && forall j | 0 <= j < at :: !HoleAt(s, j)
    ensures var s := Joined(literals[i..]);
      at + 2 <= |s| && s[..at] == literals[i] && s[at + 2..] == Joined(literals[i + 1..])
  {
    FirstHole(literals[i..], at);
    assert literals[i..][1..] == literals[i + 1..];
  }

  /** For an accepted string the pieces read as the string with its holes filled in order. */
  method FormatPieces(format: string, views: seq<string>) returns (pieces: array<string>)
    requires Split(format).Some? && |Split(format).value| == |views| + 1
    ensures fresh(pieces) && pieces.Length == 2 * |views| + 1
    ensures Flatten(pieces[..]) == Substituted(Split(format).value, views)
  {
    SplitSound(format);
    ghost var literals := Split(format).value;
    pieces := new string[2 * |views| + 1](_ => "");
    var left := format;
    assert literals[0..] == literals && views[0..] == views;
    hide Joined, Split, Flatten, Substituted, SubstitutedFrom, Literals, HoleAt;
    assert Flatten(pieces[..0]) == "" by { NoPieces(); }
    for i := 0 to |views|
      invariant left == Joined(literals[i..])
      invariant Flatten(pieces[..2 * i]) + SubstitutedFrom(literals, views, i) == SubstitutedFrom(literals, views, 0)
    {
      var hole := FindHole(left);
      HoleFrom(literals, i, hole);
      ghost var before := pieces[..2 * i];
      pieces[2 * i] := left[..hole];
      pieces[2 * i + 1] := views[i];
      assert pieces[..2 * (i + 1)] == before + [literals[i], views[i]];
      HoleFilled(literals, views, i, before);
      left := left[hole + 2..];
    }
    ghost var before := pieces[..2 * |views|];
    pieces[2 * |views|] := left;
    assert pieces[..] == before + [left];
    FlattenPush(before, left);
    LastLiteral(literals, views);
  }

  lemma NoPieces()
    ensures Flatten<char>([]) == ""
  {
  }

  lemma LastLiteral(literals: seq<string>, views: seq<string>)
    requires |literals| == |views| + 1
    ensures SubstitutedFrom(literals, views, |views|) == Joined(literals[|views|..])
    ensures SubstitutedFrom(literals, views, 0) == Substituted(literals, views)
  {
    assert literals[0..] == literals && views[0..] == views;
  }
}
