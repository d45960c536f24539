/** What the Content-Security-Policy bit reports, and that its objects tell all of a parsed header. */
module CspFindings {

  import opened CspParser
  import opened LetterCase

  /* ---------- the pieces and the objects keep everything ---------- */

  function Join(pieces: seq<string>): string
    requires pieces != []
  {
    if |pieces| == 1 then pieces[0] else pieces[0] + ";" + Join(pieces[1..])
  }

  /** The pieces, joined by semicolons again, are the header. */
  lemma {:induction false} JoinPieces(s: string)
    ensures Join(Pieces(s)) == s
    ensures forall piece | piece in Pieces(s) :: ';' !in piece
  {
    PiecesHaveNoSemicolon(s);
    if s != "" {
      JoinPieces(s[1..]);
      if s[0] == ';' { JoinEmpty(Pieces(s[1..])); } else { JoinHead(s[0], Pieces(s[1..])); }
      assert s == [s[0]] + s[1..];
    }
  }

  lemma JoinEmpty(pieces: seq<string>)
    requires pieces != []
    ensures Join([""] + pieces) == [';'] + Join(pieces)
  {
    assert ([""] + pieces)[1..] == pieces && "" + ";" == [';'];
  }

  lemma JoinHead(c: char, pieces: seq<string>)
    requires pieces != []
    ensures Join([[c] + pieces[0]] + pieces[1..]) == [c] + Join(pieces)
  {
    var longer := [[c] + pieces[0]] + pieces[1..];
    assert longer[0] == [c] + pieces[0] && longer[1..] == pieces[1..];
    if |pieces| > 1 { Prepend(c, pieces[0], Join(pieces[1..])); }
  }

  lemma Prepend(c: char, piece: string, rest: string)
    ensures [c] + piece + ";" + rest == [c] + (piece + ";" + rest)
  {
  }

  /** The directives that a list of objects tells of: each source belongs to the directive before it. */
  function ReadBack(objects: seq<Object>): seq<Directive> {
    if objects == [] then []
    else
      var n := |objects| - 1;
      var before := ReadBack(objects[..n]);
      match objects[n]
      case DirectiveObject(name) => before + [Directive(name, [])]
      case SourceObject(directive, value) =>
        if before == [] || before[|before| - 1].name != directive then []
        else before[..|before| - 1] + [WithSource(before[|before| - 1], value)]
      case InvalidCspType => before
      case FindingObject(_) => before
  }

  function WithSource(d: Directive, value: string): Directive {
    Directive(d.name, d.sources + [value])
  }

  lemma {:induction false} ReadBackSources(objects: seq<Object>, d: Directive, k: nat)
    requires k <= |d.sources|
    ensures ReadBack(objects + ObjectsOf(d)[..k + 1]) == ReadBack(objects) + [Directive(d.name, d.sources[..k])]
  {
    var all := objects + ObjectsOf(d)[..k + 1];
    if k == 0 {
      assert all[..|all| - 1] == objects && all[|all| - 1] == DirectiveObject(d.name);
    } else {
      ReadBackSources(objects, d, k - 1);
      assert all[..|all| - 1] == objects + ObjectsOf(d)[..k];
      assert all[|all| - 1] == SourceObject(d.name, d.sources[k - 1]);
      assert d.sources[..k] == d.sources[..k - 1] + [d.sources[k - 1]];
    }
  }

  lemma ReadBackOne(objects: seq<Object>, d: Directive)
    ensures ReadBack(objects + ObjectsOf(d)) == ReadBack(objects) + [d]
  {
    ReadBackSources(objects, d, |d.sources|);
    assert ObjectsOf(d)[..|d.sources| + 1] == ObjectsOf(d) && d.sources[..|d.sources|] == d.sources;
  }

  /** The yielded objects tell the directives, in order, with their sources. */
  lemma {:induction false} ObjectsTellAll(directives: seq<Directive>)
    ensures ReadBack(AllObjects(directives)) == directives
  {
    if directives == [] {
    } else {
      var n := |directives| - 1;
      ObjectsTellAll(directives[..n]);
      var d := directives[n];
      ReadBackOne(AllObjects(directives[..n]), d);
      assert directives[..n] + [d] == directives;
    }
  }

  /* ---------- which problems are reported ---------- */

  ghost predicate DeclaredBefore(pieces: seq<string>, k: nat, name: string)
    requires k <= |pieces|
  {
    exists j | 0 <= j < k :: Declares(pieces[j], name)
  }

  /** The piece at position `k` gives rise to the problem: its name is taken, or else it has no value. */
  ghost predicate Raises(pieces: seq<string>, k: nat, problem: Problem) {
    && k < |pieces| && Tokens(pieces[k]) != []
    && match problem
       case EmptyHeader => false
       case Duplicate(name) => Declares(pieces[k], name) && DeclaredBefore(pieces, k, name)
       case NoValue(name) =>
         Declares(pieces[k], name) && !DeclaredBefore(pieces, k, name) && |Tokens(pieces[k])| == 1
  }

  /** The problems are those of the pieces at these positions, and no other of the first `n` pieces has one. */
  ghost predicate AreProblems(pieces: seq<string>, n: nat, at: seq<nat>, problems: seq<Problem>) {
    && |at| == |problems|
    && (forall a, b | 0 <= a < b < |at| :: at[a] < at[b])
    && (forall a | 0 <= a < |at| :: at[a] < n && Raises(pieces, at[a], problems[a]))
    && (forall k: nat, problem | k < n && Raises(pieces, k, problem) :: k in at)
  }

  lemma TakenIff(pieces: seq<string>, n: nat, name: string)
    requires n <= |pieces|
    ensures name in Names(Collect(pieces[..n])) <==> DeclaredBefore(pieces, n, name)
  {
    var front := pieces[..n];
    if name in Names(Collect(front)) {
      var i := CollectedIsDeclared(front, name);
      assert Declares(pieces[i], name);
    }
    if j :| 0 <= j < n && Declares(pieces[j], name) {
      var at := FirstPositions(front);
      assert front[j] == pieces[j] && IsNamed(front[j], Collect(front));
    }
  }

  /** The piece at position `n` adds its problem, if it has one. */
  ghost predicate Follows(pieces: seq<string>, n: nat, before: seq<Problem>, after: seq<Problem>) {
    || (after == before && forall problem :: !Raises(pieces, n, problem))
    || exists problem | Raises(pieces, n, problem) :: after == before + [problem]
  }

  lemma ProblemOfLast(pieces: seq<string>, n: nat)
    requires n < |pieces|
    ensures Follows(pieces, n, Problems(pieces[..n]), Problems(pieces[..n + 1]))
  {
    CollectNext(pieces, n);
    if Tokens(pieces[n]) != [] {
      var name := Lower(Tokens(pieces[n])[0]);
      TakenIff(pieces, n, name);
      assert Problems(pieces[..n + 1]) == Problems(pieces[..n]) || Raises(pieces, n, Duplicate(name))
        || Raises(pieces, n, NoValue(name));
    }
  }

  lemma {:induction false} ProblemPositions(pieces: seq<string>, n: nat) returns (at: seq<nat>)
    requires n <= |pieces|
    ensures AreProblems(pieces, n, at, Problems(pieces[..n]))
  {
    at := [];
    if n > 0 {
      at := ProblemPositions(pieces, n - 1);
      ProblemOfLast(pieces, n - 1);
      at := NextProblem(pieces, n - 1, at, Problems(pieces[..n - 1]), Problems(pieces[..n]));
    }
  }

  lemma NextProblem(pieces: seq<string>, n: nat, at: seq<nat>, before: seq<Problem>, after: seq<Problem>)
    returns (at': seq<nat>)
    requires AreProblems(pieces, n, at, before) && Follows(pieces, n, before, after)
    ensures AreProblems(pieces, n + 1, at', after)
  {
    if after == before {
      at' := at;
    } else {
      at' := at + [n];
      assert at'[|at|] == n;
    }
  }

  /** The problems are reported in the order of the header: a taken name once for each piece that repeats it, and a
      missing value for each first occurrence without sources. */
  lemma ProblemsInOrder(header: string) returns (at: seq<nat>)
    ensures AreProblems(Pieces(header), |Pieces(header)|, at, Problems(Pieces(header)))
  {
    at := ProblemPositions(Pieces(header), |Pieces(header)|);
    assert Pieces(header)[..|Pieces(header)|] == Pieces(header);
  }

  /* ---------- no findings ---------- */

  /** Both pieces have a directive, and the names differ in letter case at most. */
  ghost predicate SameName(a: string, b: string): (same: bool)
    ensures same <==> Tokens(a) != [] && Declares(b, Lower(Tokens(a)[0]))
  {
    if Tokens(a) == [] || Tokens(b) == [] then false
    else SameLowered(Tokens(a)[0], Tokens(b)[0]); SameButCase(Tokens(a)[0], Tokens(b)[0])
  }

  /** No two pieces have directives of the same name. */
  ghost predicate NamedOnce(pieces: seq<string>) {
    forall i, j | 0 <= i < j < |pieces| :: !SameName(pieces[i], pieces[j])
  }

  ghost predicate AllHaveValues(directives: seq<Directive>) {
    forall d | d in directives :: d.sources != []
  }

  /** A name collected earlier is the name of an earlier piece. */
  lemma CollectedIsDeclared(pieces: seq<string>, name: string) returns (i: nat)
    requires name in Names(Collect(pieces))
    ensures i < |pieces| && Declares(pieces[i], name)
  {
    var at := FirstPositions(pieces);
    var d :| d in Collect(pieces) && d.name == name;
    var a :| 0 <= a < |at| && Collect(pieces)[a] == d;
    assert IsFirst(pieces, at[a], d);
    i := at[a];
  }

  lemma NothingRaised(pieces: seq<string>)
    requires forall k: nat, problem :: !Raises(pieces, k, problem)
    ensures NamedOnce(pieces) && AllHaveValues(Collect(pieces))
  {
    forall i, j | 0 <= i < j < |pieces| ensures !SameName(pieces[i], pieces[j]) {
      if Tokens(pieces[i]) != [] {
        var name := Lower(Tokens(pieces[i])[0]);
        assert Declares(pieces[i], name) && !Raises(pieces, j, Duplicate(name));
      }
    }
    var at := FirstPositions(pieces);
    forall a | 0 <= a < |Collect(pieces)| ensures Collect(pieces)[a].sources != [] {
      var d := Collect(pieces)[a];
      assert IsFirst(pieces, at[a], d) && !Raises(pieces, at[a], NoValue(d.name));
    }
  }

  lemma RaisedMeans(pieces: seq<string>, k: nat, problem: Problem)
    requires Raises(pieces, k, problem)
    ensures !NamedOnce(pieces) || !AllHaveValues(Collect(pieces))
  {
    if problem.Duplicate? {
      var j :| 0 <= j < k && Declares(pieces[j], problem.name);
      assert SameName(pieces[j], pieces[k]);
    } else {
      var at := FirstPositions(pieces);
      assert IsNamed(pieces[k], Collect(pieces));
      var d :| d in Collect(pieces) && Declares(pieces[k], d.name);
      var a :| 0 <= a < |at| && Collect(pieces)[a] == d;
      assert IsFirst(pieces, at[a], d) && at[a] == k;
    }
  }

  lemma NoProblemsIff(pieces: seq<string>)
    ensures Problems(pieces) == [] <==> AllHaveValues(Collect(pieces)) && NamedOnce(pieces)
  {
    var at := ProblemPositions(pieces, |pieces|);
    assert pieces[..|pieces|] == pieces;
    if Problems(pieces) == [] {
      assert forall k: nat, problem | Raises(pieces, k, problem) :: k in at;
      NothingRaised(pieces);
    } else {
      RaisedMeans(pieces, at[0], Problems(pieces)[0]);
    }
  }

  /** A header is without findings exactly if it has a directive, every directive has a value, and no name occurs
      twice. */
  lemma NoFindingsIff(header: string)
    ensures Findings(header) == [] <==>
      Parse(header) != [] && AllHaveValues(Parse(header)) && NamedOnce(Pieces(header))
  {
    NoProblemsIff(Pieces(header));
    TokensOrNone(Pieces(header));
    assert [] + Problems(Pieces(header)) == Problems(Pieces(header));
  }

  /** A header without a directive has that as its only finding, and no other header has it. */
  lemma EmptyIff(header: string)
    ensures Parse(header) == [] ==> Findings(header) == [EmptyHeader]
    ensures Parse(header) != [] ==> Findings(header) == Problems(Pieces(header)) && EmptyHeader !in Findings(header)
  {
    var raising := ProblemsInOrder(header);
    TokensOrNone(Pieces(header));
    if Parse(header) == [] {
      NoneWithoutTokens(Pieces(header), raising, Problems(Pieces(header)));
    } else {
      NeverEmpty(Pieces(header), raising, Problems(Pieces(header)));
    }
  }

  lemma {:induction false} TokensOrNone(pieces: seq<string>)
    ensures Collect(pieces) == [] <==> forall i | 0 <= i < |pieces| :: Tokens(pieces[i]) == []
  {
    if pieces == [] {
    } else {
      var n := |pieces| - 1;
      TokensOrNone(pieces[..n]);
      assert forall i | 0 <= i < n :: pieces[..n][i] == pieces[i];
      assert Collect(pieces[..n]) == [] ==> Names(Collect(pieces[..n])) == {};
    }
  }

  lemma NoneWithoutTokens(pieces: seq<string>, at: seq<nat>, problems: seq<Problem>)
    requires AreProblems(pieces, |pieces|, at, problems) && forall i | 0 <= i < |pieces| :: Tokens(pieces[i]) == []
    ensures problems == []
  {
    assert problems == [] || Raises(pieces, at[0], problems[0]);
  }

  lemma NeverEmpty(pieces: seq<string>, at: seq<nat>, problems: seq<Problem>)
    requires AreProblems(pieces, |pieces|, at, problems)
    ensures EmptyHeader !in problems
  {
    forall a | 0 <= a < |problems| ensures problems[a] != EmptyHeader { assert Raises(pieces, at[a], problems[a]); }
  }
}
