/** Letter case as `str.lower` changes it, for ASCII letters. */
module LetterCase {

  /** `str.lower` on ASCII letters. */
  function LowerChar(c: char): char {
    if 'A' <= c <= 'Z' then (c as int + 32) as char else c
  }

  function Lower(s: string): string {
    seq(|s|, i requires 0 <= i < |s| => LowerChar(s[i]))
  }

  predicate IsCapital(c: char) { 'A' <= c <= 'Z' }

  /** The two are the small and the capital form of one ASCII letter. */
  predicate IsSmallOf(small: char, capital: char) {
    IsCapital(capital) && 'a' <= small <= 'z' && small - 'a' == capital - 'A'
  }

  /** The name is the token with the small form of each capital, and the same everywhere else. */
  ghost predicate IsLowered(name: string, token: string) {
    |name| == |token| && forall i | 0 <= i < |token| ::
      if IsCapital(token[i]) then IsSmallOf(name[i], token[i]) else name[i] == token[i]
  }

  /** The strings differ in the case of ASCII letters at most. */
  ghost predicate SameButCase(a: string, b: string) {
    |a| == |b| && forall i | 0 <= i < |a| :: a[i] == b[i] || IsSmallOf(a[i], b[i]) || IsSmallOf(b[i], a[i])
  }

  lemma LowerIff(name: string, token: string)
    ensures name == Lower(token) <==> IsLowered(name, token)
  {
    if |name| == |token| {
      forall i | 0 <= i < |token|
        ensures name[i] == LowerChar(token[i]) <==>
          if IsCapital(token[i]) then IsSmallOf(name[i], token[i]) else name[i] == token[i]
      {
        assert IsCapital(token[i]) && IsSmallOf(name[i], token[i]) ==> name[i] as int == token[i] as int + 32;
      }
      assert name == Lower(token) <==> forall i | 0 <= i < |token| :: name[i] == LowerChar(token[i]);
    }
  }

  lemma SameLowered(a: string, b: string)
    ensures Lower(a) == Lower(b) <==> SameButCase(a, b)
  {
    if |a| == |b| {
      forall i | 0 <= i < |a|
        ensures LowerChar(a[i]) == LowerChar(b[i]) <==>
          a[i] == b[i] || IsSmallOf(a[i], b[i]) || IsSmallOf(b[i], a[i])
      {
        LowerCharSame(a[i], b[i]);
      }
      assert forall i | 0 <= i < |a| :: Lower(a)[i] == LowerChar(a[i]) && Lower(b)[i] == LowerChar(b[i]);
    }
  }

  lemma LowerCharSame(x: char, y: char)
    ensures LowerChar(x) == LowerChar(y) <==> x == y || IsSmallOf(x, y) || IsSmallOf(y, x)
  {
    assert IsSmallOf(x, y) ==> x as int == y as int + 32;
    assert IsSmallOf(y, x) ==> y as int == x as int + 32;
  }
}
