/**
 The Content-Security-Policy parser, octopoes/bits/parse_csp/parse_csp.py. Directives are separated by semicolons and
 tokens by white space, and the first directive of a name wins (section 2.2.1 of Content Security Policy Level 3).
 */
module CspParser {

  import opened LetterCase

  /** The characters that `str.strip` and `str.split` take for white space. */
  predicate IsSpace(c: char) {
    var n := c as int;
    || 0x9 <= n <= 0xd || 0x1c <= n <= 0x20 || n == 0x85 || n == 0xa0 || n == 0x1680
    || 0x2000 <= n <= 0x200a || n == 0x2028 || n == 0x2029 || n == 0x202f || n == 0x205f || n == 0x3000
  }

  /* ---------- splitting ---------- */

  function StripLeft(s: string): string {
    if s != "" && IsSpace(s[0]) then StripLeft(s[1..]) else s
  }

  function StripRight(s: string): string {
    if s != "" && IsSpace(s[|s| - 1]) then StripRight(s[..|s| - 1]) else s
  }

  function Strip(s: string): string {
    StripRight(StripLeft(s))
  }

  /** `s.split(";")`. */
  function Pieces(s: string): (pieces: seq<string>)
    ensures pieces != []
  {
    if s == "" then [""]
    else if s[0] == ';' then [""] + Pieces(s[1..])
    else var rest := Pieces(s[1..]); [[s[0]] + rest[0]] + rest[1..]
  }

  /** The characters before the first white space. */
  function Word(s: string): (word: string)
    ensures |word| <= |s| && s[..|word|] == word
    ensures forall c | c in word :: !IsSpace(c)
    ensures |word| < |s| ==> IsSpace(s[|word|])
  {
    if s == "" || IsSpace(s[0]) then "" else [s[0]] + Word(s[1..])
  }

  /** `s.split()`. */
  function Tokens(s: string): (tokens: seq<string>)
    ensures forall token | token in tokens :: IsToken(token)
    decreases |s|
  {
    if s == "" then []
    else if IsSpace(s[0]) then Tokens(s[1..])
    else [Word(s)] + Tokens(s[|Word(s)|..])
  }

  predicate IsToken(s: string) {
    s != "" && forall c | c in s :: !IsSpace(c)
  }

  /* ---------- what parsing means ---------- */

  datatype Directive = Directive(name: string, sources: seq<string>)

  datatype Problem = EmptyHeader | Duplicate(name: string) | NoValue(name: string)

  function Names(directives: seq<Directive>): set<string> {
    set d | d in directives :: d.name
  }

  /** The directives of the pieces, the first of each name. */
  function Collect(pieces: seq<string>): seq<Directive> {
    if pieces == [] then []
    else
      var n := |pieces| - 1;
      var before, tokens := Collect(pieces[..n]), Tokens(pieces[n]);
      if tokens == [] || Lower(tokens[0]) in Names(before) then before
      else before + [Directive(Lower(tokens[0]), tokens[1..])]
  }

  function Parse(header: string): seq<Directive> {
    Collect(Pieces(header))
  }

  /** The syntactic problems of the pieces, in order. */
  function Problems(pieces: seq<string>): seq<Problem> {
    if pieces == [] then []
    else
      var n := |pieces| - 1;
      var before, tokens := Problems(pieces[..n]), Tokens(pieces[n]);
      if tokens == [] then before
      else if Lower(tokens[0]) in Names(Collect(pieces[..n])) then before + [Duplicate(Lower(tokens[0]))]
      else if |tokens| == 1 then before + [NoValue(Lower(tokens[0]))]
      else before
  }

  function Findings(header: string): seq<Problem> {
    (if forall i | 0 <= i < |Pieces(header)| :: Tokens(Pieces(header)[i]) == [] then [EmptyHeader] else [])
    + Problems(Pieces(header))
  }

  /* ---------- the bit ---------- */

  datatype Object = DirectiveObject(name: string) | SourceObject(directive: string, value: string) | InvalidCspType |
                    FindingObject(problems: seq<Problem>)

  function ObjectsOf(d: Directive): seq<Object> {
    [DirectiveObject(d.name)] + seq(|d.sources|, i requires 0 <= i < |d.sources| => SourceObject(d.name, d.sources[i]))
  }

  function AllObjects(directives: seq<Directive>): seq<Object> {
    if directives == [] then []
    else AllObjects(directives[..|directives| - 1]) + ObjectsOf(directives[|directives| - 1])
  }

  /** The yields for one directive. */
  method YieldDirective(name: string, sources: seq<string>) returns (objects: seq<Object>)
    ensures objects == ObjectsOf(Directive(name, sources))
  {
    objects := [DirectiveObject(name)];
    for j := 0 to |sources|
      invariant objects == ObjectsOf(Directive(name, sources))[..j + 1]
    {
      objects := objects + [SourceObject(name, sources[j])];
    }
  }

  function StripAll(pieces: seq<string>): seq<string> {
    seq(|pieces|, i requires 0 <= i < |pieces| => Strip(pieces[i]))
  }

  lemma CollectNext(pieces: seq<string>, k: nat)
    requires k < |pieces|
    ensures var before, tokens, after := Collect(pieces[..k]), Tokens(pieces[k]), Collect(pieces[..k + 1]);
      if tokens == [] then after == before && Problems(pieces[..k + 1]) == Problems(pieces[..k])
      else
        var name := Lower(tokens[0]);
        if name in Names(before) then
          after == before && Problems(pieces[..k + 1]) == Problems(pieces[..k]) + [Duplicate(name)]
        else
          && after == before + [Directive(name, tokens[1..])]
          && Problems(pieces[..k + 1]) == Problems(pieces[..k]) + if |tokens| == 1 then [NoValue(name)] else []
  {
    assert pieces[..k + 1][..k] == pieces[..k];
  }

  /** The loop over the directives. */
  method ParseDirectives(pieces: seq<string>, rawDirectives: seq<string>)
    returns (objects: seq<Object>, findings: seq<Problem>)
    requires rawDirectives == StripAll(pieces)
    ensures objects == AllObjects(Collect(pieces)) && findings == Problems(pieces)
  {
    objects, findings := [], [];
    var seenDirectives: set<string> := {};
    for k := 0 to |rawDirectives|
      invariant seenDirectives == Names(Collect(pieces[..k]))
      invariant objects == AllObjects(Collect(pieces[..k])) && findings == Problems(pieces[..k])
    {
      StripKeepsTokens(pieces[k]);
      CollectNext(pieces, k);
      if rawDirectives[k] == "" { continue; }
      var tokens := Tokens(rawDirectives[k]);
      var name, sources := Lower(tokens[0]), tokens[1..];
      if name in seenDirectives {
        findings := findings + [Duplicate(name)];
        continue;
      }
      seenDirectives := seenDirectives + {name};
      CollectSnoc(Collect(pieces[..k]), Directive(name, sources));
      var yielded := YieldDirective(name, sources);
      objects := objects + yielded;
      if sources == [] {
        findings := findings + [NoValue(name)];
      }
    }
    assert pieces[..|pieces|] == pieces;
  }

  const KEY := "content-security-policy"

  lemma KeyIff(key: string)
    ensures Lower(key) == KEY <==> SameButCase(key, KEY)
  {
    SameLowered(key, KEY);
    assert Lower(KEY) == KEY;
  }

  /** The objects that `run` yields, in order. */
  method Run(key: string, value: string) returns (objects: seq<Object>)
    ensures !SameButCase(key, "content-security-policy") ==> objects == []
    ensures SameButCase(key, "content-security-policy") && Findings(value) == [] ==>
      objects == AllObjects(Parse(value))
    ensures SameButCase(key, "content-security-policy") && Findings(value) != [] ==>
      objects == AllObjects(Parse(value)) + [InvalidCspType, FindingObject(Findings(value))]
  {
    KeyIff(key);
    if Lower(key) != KEY { return []; }
    var pieces := Pieces(value);
    var rawDirectives := StripAll(pieces);
    var findings: seq<Problem> := [];
    forall i | 0 <= i < |pieces| ensures rawDirectives[i] == "" <==> Tokens(pieces[i]) == [] {
      StripKeepsTokens(pieces[i]);
    }
    if forall i | 0 <= i < |rawDirectives| :: rawDirectives[i] == "" {
      findings := [EmptyHeader];
    }
    var parsed, problems := ParseDirectives(pieces, rawDirectives);
    objects, findings := parsed, findings + problems;
    if findings != [] {
      objects := objects + [InvalidCspType, FindingObject(findings)];
    }
  }

  lemma CollectSnoc(directives: seq<Directive>, d: Directive)
    ensures Names(directives + [d]) == Names(directives) + {d.name}
    ensures AllObjects(directives + [d]) == AllObjects(directives) + ObjectsOf(d)
  {
    NamesSnoc(directives, d);
    assert (directives + [d])[..|directives|] == directives;
  }

  lemma NamesSnoc(directives: seq<Directive>, d: Directive)
    ensures Names(directives + [d]) == Names(directives) + {d.name}
  {
    var all := directives + [d];
    assert all[|directives|] == d;
    assert forall e | e in directives :: e in all;
  }

  lemma {:induction false} StripLeftKeepsTokens(s: string)
    ensures Tokens(StripLeft(s)) == Tokens(s)
    ensures StripLeft(s) == "" <==> Tokens(s) == []
  {
    if s != "" && IsSpace(s[0]) { StripLeftKeepsTokens(s[1..]); }
  }

  lemma {:induction false} DropLastSpace(s: string)
    requires s != "" && IsSpace(s[|s| - 1])
    ensures Tokens(s[..|s| - 1]) == Tokens(s)
    decreases |s|
  {
    if |s| > 1 {
      if IsSpace(s[0]) {
        DropLastSpace(s[1..]);
        assert s[..|s| - 1][1..] == s[1..][..|s| - 2];
      } else {
        WordOfFront(s);
        DropLastSpace(s[|Word(s)|..]);
        TokensAfterWord(s, s[..|s| - 1]);
      }
    }
  }

  lemma TokensAfterWord(s: string, front: string)
    requires s != "" && !IsSpace(s[0]) && Word(front) == Word(s) && front == s[..|s| - 1] && |Word(s)| < |s|
    ensures Tokens(s) == [Word(s)] + Tokens(s[|Word(s)|..])
    ensures var rest := s[|Word(s)|..]; Tokens(front) == [Word(s)] + Tokens(rest[..|rest| - 1])
  {
    var n := |Word(s)|;
    assert Word(s) != "" && front[0] == s[0];
    assert front[n..] == s[n..][..|s[n..]| - 1];
  }

  lemma {:induction false} WordOfFront(s: string)
    requires s != "" && IsSpace(s[|s| - 1])
    ensures Word(s[..|s| - 1]) == Word(s) && |Word(s)| < |s|
  {
    if !IsSpace(s[0]) {
      assert s[..|s| - 1][1..] == s[1..][..|s| - 2];
      WordOfFront(s[1..]);
    }
  }

  lemma {:induction false} StripRightKeepsTokens(s: string)
    ensures Tokens(StripRight(s)) == Tokens(s)
  {
    if s != "" && IsSpace(s[|s| - 1]) {
      DropLastSpace(s);
      StripRightKeepsTokens(s[..|s| - 1]);
    }
  }

  lemma {:induction false} StripRightKeepsHead(s: string)
    requires s != "" && !IsSpace(s[0])
    ensures StripRight(s) != ""
  {
    if IsSpace(s[|s| - 1]) { StripRightKeepsHead(s[..|s| - 1]); }
  }

  lemma {:induction false} StripLeftHead(s: string)
    ensures StripLeft(s) != "" ==> !IsSpace(StripLeft(s)[0])
  {
    if s != "" && IsSpace(s[0]) { StripLeftHead(s[1..]); }
  }

  /** Stripping a piece loses no token, and leaves nothing exactly of a piece without tokens. */
  lemma StripKeepsTokens(s: string)
    ensures Tokens(Strip(s)) == Tokens(s)
    ensures Strip(s) == "" <==> Tokens(s) == []
  {
    StripLeftKeepsTokens(s);
    StripLeftHead(s);
    StripRightKeepsTokens(StripLeft(s));
    if StripLeft(s) != "" { StripRightKeepsHead(StripLeft(s)); }
  }

  /* ---------- what comes out of a header ---------- */

  /** A directive as it comes out of a header: a name without capitals, and sources that are tokens without a
      semicolon. */
  predicate WellFormed(d: Directive) {
    && IsToken(d.name) && (forall c | c in d.name :: !IsCapital(c)) && ';' !in d.name
    && forall source | source in d.sources :: IsToken(source) && ';' !in source
  }

  ghost predicate Distinct(directives: seq<Directive>) {
    forall i, j | 0 <= i < j < |directives| :: directives[i].name != directives[j].name
  }

  lemma LowerFacts(s: string)
    ensures forall c | c in Lower(s) :: !IsCapital(c)
    ensures IsToken(s) ==> IsToken(Lower(s))
    ensures ';' !in s ==> ';' !in Lower(s)
  {
    assert forall i | 0 <= i < |s| :: Lower(s)[i] == LowerChar(s[i]);
    assert IsToken(s) ==> forall i | 0 <= i < |s| :: s[i] in s && !IsSpace(s[i]) && !IsSpace(LowerChar(s[i]));
  }

  lemma LowerStays(s: string)
    requires forall c | c in s :: !IsCapital(c)
    ensures Lower(s) == s
  {
    forall i | 0 <= i < |s| ensures Lower(s)[i] == s[i] { assert s[i] in s; }
  }

  lemma {:induction false} PiecesHaveNoSemicolon(s: string)
    ensures forall piece | piece in Pieces(s) :: ';' !in piece
  {
    if s != "" { PiecesHaveNoSemicolon(s[1..]); }
  }

  lemma {:induction false} TokensHaveNoSemicolon(s: string)
    requires ';' !in s
    ensures forall token | token in Tokens(s) :: ';' !in token
    decreases |s|
  {
    if s != "" {
      if IsSpace(s[0]) { TokensHaveNoSemicolon(s[1..]); }
      else { TokensHaveNoSemicolon(s[|Word(s)|..]); }
    }
  }

  lemma {:induction false} CollectIsWellFormed(pieces: seq<string>)
    requires forall piece | piece in pieces :: ';' !in piece
    ensures Distinct(Collect(pieces))
    ensures forall d | d in Collect(pieces) :: WellFormed(d)
  {
    if pieces == [] {
    } else {
      var n := |pieces| - 1;
      CollectIsWellFormed(pieces[..n]);
      TokensHaveNoSemicolon(pieces[n]);
      var tokens := Tokens(pieces[n]);
      if tokens != [] { LowerFacts(tokens[0]); }
    }
  }

  /** The names of a parsed header are distinct, without capitals and non-empty, and nothing in it has a separator. */
  lemma ParseIsWellFormed(header: string)
    ensures Distinct(Parse(header))
    ensures forall d | d in Parse(header) :: WellFormed(d)
  {
    PiecesHaveNoSemicolon(header);
    CollectIsWellFormed(Pieces(header));
  }

  /* ---------- the first occurrence wins ---------- */

  /** The piece has a directive of the given name. */
  ghost predicate Declares(piece: string, name: string): (declares: bool)
    ensures declares <==> Tokens(piece) != [] && Lower(Tokens(piece)[0]) == name
  {
    if Tokens(piece) == [] then false
    else LowerIff(name, Tokens(piece)[0]); IsLowered(name, Tokens(piece)[0])
  }

  /** If the piece has a directive, one of the given ones has its name. */
  ghost predicate IsNamed(piece: string, directives: seq<Directive>) {
    Tokens(piece) != [] ==> exists d | d in directives :: Declares(piece, d.name)
  }

  /** Directive `d` comes from the piece at position `k`, and no earlier piece has its name. */
  ghost predicate IsFirst(pieces: seq<string>, k: nat, d: Directive) {
    && k < |pieces| && Declares(pieces[k], d.name) && d.sources == Tokens(pieces[k])[1..]
    && forall j | 0 <= j < k :: !Declares(pieces[j], d.name)
  }

  ghost predicate AreFirst(pieces: seq<string>, at: seq<nat>, directives: seq<Directive>) {
    && |at| == |directives|
    && (forall a, b | 0 <= a < b < |at| :: at[a] < at[b])
    && (forall a | 0 <= a < |at| :: IsFirst(pieces, at[a], directives[a]))
    && (forall k | 0 <= k < |pieces| :: IsNamed(pieces[k], directives))
  }

  lemma {:induction false} FirstPositions(pieces: seq<string>) returns (at: seq<nat>)
    ensures AreFirst(pieces, at, Collect(pieces))
  {
    at := [];
    if pieces == [] {
    } else {
      var n := |pieces| - 1;
      at := FirstPositions(pieces[..n]);
      at := FirstNext(pieces, at);
    }
  }

  lemma FirstNext(pieces: seq<string>, earlier: seq<nat>) returns (at: seq<nat>)
    requires pieces != [] && AreFirst(pieces[..|pieces| - 1], earlier, Collect(pieces[..|pieces| - 1]))
    ensures AreFirst(pieces, at, Collect(pieces))
  {
    var n := |pieces| - 1;
    var before, tokens := Collect(pieces[..n]), Tokens(pieces[n]);
    FirstInMore(pieces, earlier, before);
    at := earlier;
    if tokens != [] && Lower(tokens[0]) !in Names(before) {
      FirstAdded(pieces, earlier, before, Directive(Lower(tokens[0]), tokens[1..]));
      at := earlier + [n];
    } else {
      assert IsNamed(pieces[n], before);
    }
  }

  lemma FirstAdded(pieces: seq<string>, earlier: seq<nat>, before: seq<Directive>, d: Directive)
    requires pieces != [] && |earlier| == |before| && d.name !in Names(before)
    requires Declares(pieces[|pieces| - 1], d.name) && d.sources == Tokens(pieces[|pieces| - 1])[1..]
    requires forall a, b | 0 <= a < b < |earlier| :: earlier[a] < earlier[b]
    requires forall a | 0 <= a < |earlier| :: earlier[a] < |pieces| - 1 && IsFirst(pieces, earlier[a], before[a])
    requires forall k | 0 <= k < |pieces| - 1 :: IsNamed(pieces[k], before)
    ensures AreFirst(pieces, earlier + [|pieces| - 1], before + [d])
  {
    var n := |pieces| - 1;
    NothingEarlier(pieces, n, before, d.name);
    assert (before + [d])[|before|] == d && IsFirst(pieces, n, d);
    forall k | 0 <= k < |pieces| ensures IsNamed(pieces[k], before + [d]) {
      if k < n { NamedInMore(pieces[k], before, d); }
    }
  }

  lemma NamedInMore(piece: string, directives: seq<Directive>, d: Directive)
    requires IsNamed(piece, directives)
    ensures IsNamed(piece, directives + [d])
  {
    if Tokens(piece) != [] {
      var e :| e in directives && Declares(piece, e.name);
      assert e in directives + [d];
    }
  }

  lemma NothingEarlier(pieces: seq<string>, n: nat, before: seq<Directive>, name: string)
    requires n <= |pieces| && name !in Names(before)
    requires forall k | 0 <= k < n :: IsNamed(pieces[k], before)
    ensures forall j | 0 <= j < n :: !Declares(pieces[j], name)
  {
  }

  lemma FirstInMore(pieces: seq<string>, at: seq<nat>, directives: seq<Directive>)
    requires pieces != [] && AreFirst(pieces[..|pieces| - 1], at, directives)
    ensures forall a | 0 <= a < |at| :: at[a] < |pieces| - 1 && IsFirst(pieces, at[a], directives[a])
    ensures forall k | 0 <= k < |pieces| - 1 :: IsNamed(pieces[k], directives)
  {
    var n := |pieces| - 1;
    forall a | 0 <= a < |at| ensures at[a] < n && IsFirst(pieces, at[a], directives[a]) {
      assert IsFirst(pieces[..n], at[a], directives[a]);
      forall j | 0 <= j < at[a] ensures !Declares(pieces[j], directives[a].name) { assert pieces[..n][j] == pieces[j]; }
    }
    forall k | 0 <= k < n ensures IsNamed(pieces[k], directives) {
      assert pieces[..n][k] == pieces[k];
    }
  }

  /** Parsing gives exactly the first occurrence of each name, in the order of the header. */
  lemma FirstOccurrenceWins(header: string) returns (at: seq<nat>)
    ensures AreFirst(Pieces(header), at, Parse(header))
  {
    at := FirstPositions(Pieces(header));
  }

  /* ---------- the normal form ---------- */

  function Spaced(tokens: seq<string>): string
    requires tokens != []
  {
    if |tokens| == 1 then tokens[0] else tokens[0] + " " + Spaced(tokens[1..])
  }

  function Line(d: Directive): string {
    Spaced([d.name] + d.sources)
  }

  function Serialise(directives: seq<Directive>): string {
    if directives == [] then ""
    else if |directives| == 1 then Line(directives[0])
    else Line(directives[0]) + ";" + Serialise(directives[1..])
  }

  function Lines(directives: seq<Directive>): seq<string> {
    seq(|directives|, i requires 0 <= i < |directives| => Line(directives[i]))
  }

  lemma {:induction false} WordOf(token: string, rest: string)
    requires (forall c | c in token :: !IsSpace(c)) && (rest != "" ==> IsSpace(rest[0]))
    ensures Word(token + rest) == token
  {
    if token == "" {
      assert token + rest == rest;
    } else {
      assert (token + rest)[1..] == token[1..] + rest;
      WordOf(token[1..], rest);
    }
  }

  lemma {:induction false} TokensOfSpaced(tokens: seq<string>)
    requires tokens != [] && forall token | token in tokens :: IsToken(token)
    ensures Tokens(Spaced(tokens)) == tokens
  {
    var first := tokens[0];
    assert IsToken(first);
    if |tokens| == 1 {
      TokensOfWord(first, "");
      assert first + "" == first && tokens == [first] + [];
    } else {
      TokensOfSpaced(tokens[1..]);
      TokensOfMore(first, Spaced(tokens[1..]));
      assert tokens == [first] + tokens[1..];
    }
  }

  lemma TokensOfWord(first: string, rest: string)
    requires IsToken(first) && (rest == "" || IsSpace(rest[0]))
    ensures Tokens(first + rest) == [first] + Tokens(rest)
  {
    assert first[0] in first;
    WordOf(first, rest);
    assert (first + rest)[|first|..] == rest;
  }

  lemma TokensOfMore(first: string, more: string)
    requires IsToken(first)
    ensures Tokens(first + " " + more) == [first] + Tokens(more)
  {
    TokensOfWord(first, " " + more);
    TokensAfterSpace(more);
    assert first + " " + more == first + (" " + more);
  }

  lemma TokensAfterSpace(rest: string)
    ensures Tokens(" " + rest) == Tokens(rest)
  {
    assert (" " + rest)[1..] == rest;
  }

  lemma {:induction false} SpacedHasNoSemicolon(tokens: seq<string>)
    requires tokens != [] && forall token | token in tokens :: ';' !in token
    ensures ';' !in Spaced(tokens)
  {
    if |tokens| > 1 { SpacedHasNoSemicolon(tokens[1..]); }
  }

  lemma LineRead(d: Directive)
    requires WellFormed(d)
    ensures Tokens(Line(d)) == [d.name] + d.sources && ';' !in Line(d)
  {
    TokensOfSpaced([d.name] + d.sources);
    SpacedHasNoSemicolon([d.name] + d.sources);
  }

  lemma {:induction false} PiecesOfOne(piece: string)
    requires ';' !in piece
    ensures Pieces(piece) == [piece]
  {
    if piece != "" {
      PiecesOfOne(piece[1..]);
      assert [piece[0]] + piece[1..] == piece;
    }
  }

  lemma {:induction false} PiecesThen(piece: string, rest: string)
    requires ';' !in piece
    ensures Pieces(piece + ";" + rest) == [piece] + Pieces(rest)
  {
    var s := piece + ";" + rest;
    if piece == "" {
      assert s[1..] == rest;
    } else {
      PiecesThen(piece[1..], rest);
      assert s[1..] == piece[1..] + ";" + rest && [piece[0]] + piece[1..] == piece;
    }
  }

  lemma {:induction false} PiecesOfSerialised(directives: seq<Directive>)
    requires directives != [] && forall d | d in directives :: WellFormed(d)
    ensures Pieces(Serialise(directives)) == Lines(directives)
  {
    LineRead(directives[0]);
    if |directives| == 1 {
      PiecesOfOne(Line(directives[0]));
    } else {
      PiecesOfSerialised(directives[1..]);
      PiecesThen(Line(directives[0]), Serialise(directives[1..]));
      assert Lines(directives) == [Line(directives[0])] + Lines(directives[1..]);
    }
  }

  lemma NewName(directives: seq<Directive>, n: nat)
    requires Distinct(directives) && n < |directives|
    ensures directives[n].name !in Names(directives[..n])
  {
  }

  lemma {:induction false} CollectLines(directives: seq<Directive>)
    requires Distinct(directives) && forall d | d in directives :: WellFormed(d)
    ensures Collect(Lines(directives)) == directives
  {
    if directives == [] {
    } else {
      var n := |directives| - 1;
      CollectLines(directives[..n]);
      assert Lines(directives)[..n] == Lines(directives[..n]);
      LineRead(directives[n]);
      LowerStays(directives[n].name);
      NewName(directives, n);
    }
  }

  /** Writing out well-formed directives with distinct names and parsing them gives them back. */
  lemma SerialiseRoundTrip(directives: seq<Directive>)
    requires Distinct(directives) && forall d | d in directives :: WellFormed(d)
    ensures Parse(Serialise(directives)) == directives
  {
    if directives == [] {
      assert Pieces("") == [""] && [""][..0] == [] && Tokens("") == [];
    } else {
      PiecesOfSerialised(directives);
      CollectLines(directives);
    }
  }

  /** Parsing a header is a normal form: what it yields can be written out and parsed again. */
  lemma NormalForm(header: string)
    ensures Parse(Serialise(Parse(header))) == Parse(header)
  {
    ParseIsWellFormed(header);
    SerialiseRoundTrip(Parse(header));
  }
}
