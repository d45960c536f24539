/**
 The mailbox name of an SOA record, octopoes/bits/email_from_soa/email_from_soa.py: splitting it into labels with the
 escapes of section 5.1 of RFC 1035, and the e-mail address made of them.
 */
module SoaRname {

  import opened LetterCase

  /** `rname.rstrip(".")`. */
  function StripDots(s: string): string {
    if s != "" && s[|s| - 1] == '.' then StripDots(s[..|s| - 1]) else s
  }

  function Dots(n: nat): string {
    seq(n, _ => '.')
  }

  /** `buf` in front of the first of the labels. */
  function Glue(buf: string, labels: seq<string>): seq<string>
    requires labels != []
  {
    labels[0 := buf + labels[0]]
  }

  /** The labels of a name: a dot separates two labels, and a backslash makes the next character, if there is one,
      part of its label. */
  function Labels(s: string): (labels: seq<string>)
    ensures labels != []
  {
    if s == "" then [""]
    else if s[0] == '.' then [""] + Labels(s[1..])
    else if s[0] != '\\' then Glue([s[0]], Labels(s[1..]))
    else if |s| == 1 then [""]
    else Glue([s[1]], Labels(s[2..]))
  }

  function SplitRname(rname: string): seq<string> {
    Labels(StripDots(rname))
  }

  /** The character loop of `_split_soa_rname`. */
  method SplitSoaRname(rname: string) returns (parts: seq<string>)
    ensures parts == SplitRname(rname)
  {
    parts := [];
    var buf, escaped := "", false;
    var text := StripDots(rname);
    var i := 0;
    GlueNothing(Labels(text));
    assert text[0..] == text;
    while i < |text|
      invariant 0 <= i <= |text|
      invariant !escaped ==> Labels(text) == parts + Glue(buf, Labels(text[i..]))
      invariant escaped ==> i > 0 && text[i - 1] == '\\' && Labels(text) == parts + Glue(buf, Labels(text[i - 1..]))
    {
      var ch := text[i];
      if escaped {
        assert text[i - 1..][2..] == text[i + 1..];
        GlueMore(buf, [ch], Labels(text[i + 1..]));
        buf := buf + [ch];
        escaped := false;
      } else if ch == '\\' {
        escaped := true;
      } else if ch == '.' {
        assert text[i..][1..] == text[i + 1..];
        GlueDot(parts, buf, Labels(text[i + 1..]));
        parts := parts + [buf];
        buf := "";
      } else {
        assert text[i..][1..] == text[i + 1..];
        GlueMore(buf, [ch], Labels(text[i + 1..]));
        buf := buf + [ch];
      }
      i := i + 1;
    }
    assert buf + "" == buf;
    parts := parts + [buf];
  }

  lemma GlueNothing(labels: seq<string>)
    requires labels != []
    ensures Glue("", labels) == labels
  {
    assert "" + labels[0] == labels[0];
  }

  /** The start of a new part. */
  lemma GlueDot(parts: seq<string>, buf: string, labels: seq<string>)
    requires labels != []
    ensures parts + Glue(buf, [""] + labels) == parts + [buf] + Glue("", labels)
  {
    GlueNothing(labels);
    assert buf + "" == buf;
    assert ([""] + labels)[0 := buf] == [buf] + labels;
  }

  lemma GlueMore(buf: string, more: string, labels: seq<string>)
    requires labels != []
    ensures Glue(buf, Glue(more, labels)) == Glue(buf + more, labels)
  {
    assert buf + (more + labels[0]) == buf + more + labels[0];
  }

  /* ---------- rendering ---------- */

  function Join(labels: seq<string>): string
    requires labels != []
  {
    if |labels| == 1 then labels[0] else labels[0] + "." + Join(labels[1..])
  }

  function Escape(word: string): string {
    if word == "" then ""
    else (if word[0] == '.' || word[0] == '\\' then ['\\', word[0]] else [word[0]]) + Escape(word[1..])
  }

  /** The labels with their dots and backslashes escaped, joined with dots. */
  function Render(labels: seq<string>): string
    requires labels != []
  {
    if |labels| == 1 then Escape(labels[0]) else Escape(labels[0]) + "." + Render(labels[1..])
  }

  /** The text is a way to write the word: a dot or backslash with a backslash in front, other characters with or
      without one. */
  predicate Spells(text: string, word: string) {
    if word == "" then text == ""
    else if |text| >= 2 && text[0] == '\\' then text[1] == word[0] && Spells(text[2..], word[1..])
    else text != "" && text[0] == word[0] && text[0] !in "\\." && Spells(text[1..], word[1..])
  }

  lemma {:induction false} EscapeSpells(word: string)
    ensures Spells(Escape(word), word)
  {
    if word != "" {
      EscapeSpells(word[1..]);
      var k := if word[0] == '.' || word[0] == '\\' then 2 else 1;
      assert Escape(word)[k..] == Escape(word[1..]);
    }
  }

  lemma {:induction false} SpellsThen(text: string, word: string, rest: string)
    requires Spells(text, word)
    ensures Labels(text + rest) == Glue(word, Labels(rest))
    decreases |text|
  {
    if word == "" {
      assert text + rest == rest;
      GlueNothing(Labels(rest));
    } else {
      var k := if |text| >= 2 && text[0] == '\\' then 2 else 1;
      assert (text + rest)[k..] == text[k..] + rest;
      SpellsThen(text[k..], word[1..], rest);
      GlueMore([word[0]], word[1..], Labels(rest));
      assert [word[0]] + word[1..] == word;
    }
  }

  /** Reading back what was rendered; a backslash left at the end changes nothing. */
  lemma {:induction false} RenderThen(labels: seq<string>, rest: string)
    requires labels != [] && (rest == "" || rest == "\\")
    ensures Labels(Render(labels) + rest) == labels
  {
    if |labels| == 1 {
      EscapeSpells(labels[0]);
      SpellsThen(Escape(labels[0]), labels[0], rest);
      assert Labels(rest) == [""] && labels[0] + "" == labels[0];
    } else {
      RenderThen(labels[1..], rest);
      EscapeSpells(labels[0]);
      SpellsThenDot(Escape(labels[0]), labels[0], Render(labels[1..]) + rest);
      assert Render(labels) + rest == Escape(labels[0]) + ("." + (Render(labels[1..]) + rest));
      assert labels == [labels[0]] + labels[1..];
    }
  }

  /* ---------- which names have which labels ---------- */

  /** The text is made of ways to write the labels, with dots between them, and a lone backslash may follow. */
  predicate IsSpelling(text: string, labels: seq<string>, pieces: seq<string>, tail: string) {
    && |pieces| == |labels| > 0 && (tail == "" || tail == "\\") && text == Join(pieces) + tail
    && forall i | 0 <= i < |labels| :: Spells(pieces[i], labels[i])
  }

  lemma JoinHead(front: string, pieces: seq<string>)
    requires pieces != []
    ensures Join([""] + pieces) == "." + Join(pieces)
    ensures Join(pieces[0 := front + pieces[0]]) == front + Join(pieces)
  {
    assert ([""] + pieces)[1..] == pieces && "" + "." == ".";
    var longer := pieces[0 := front + pieces[0]];
    assert longer[1..] == pieces[1..];
    if |pieces| > 1 {
      Associate(front, pieces[0] + ".", Join(pieces[1..]));
      Associate(front, pieces[0], ".");
    }
  }

  lemma {:induction false} SpellingIsRead(labels: seq<string>, pieces: seq<string>, tail: string)
    requires pieces != [] && IsSpelling(Join(pieces) + tail, labels, pieces, tail)
    ensures Labels(Join(pieces) + tail) == labels
  {
    if |labels| == 1 {
      SpellsThen(pieces[0], labels[0], tail);
      assert Labels(tail) == [""] && labels[0] + "" == labels[0];
    } else {
      SpellingIsRead(labels[1..], pieces[1..], tail);
      SpellsThenDot(pieces[0], labels[0], Join(pieces[1..]) + tail);
      assert Join(pieces) + tail == pieces[0] + ("." + (Join(pieces[1..]) + tail));
      assert labels == [labels[0]] + labels[1..];
    }
  }

  lemma SpellsThenDot(text: string, word: string, rest: string)
    requires Spells(text, word)
    ensures Labels(text + ("." + rest)) == [word] + Labels(rest)
  {
    SpellsThen(text, word, "." + rest);
    assert ("." + rest)[1..] == rest;
    assert Glue(word, [""] + Labels(rest)) == [word + ""] + Labels(rest) && word + "" == word;
  }

  lemma {:induction false} SpellingOf(text: string) returns (pieces: seq<string>, tail: string)
    ensures IsSpelling(text, Labels(text), pieces, tail)
    decreases |text|
  {
    pieces, tail := [""], "";
    if text == "" {
    } else if text == "\\" {
      tail := "\\";
    } else {
      var k := if text[0] == '\\' then 2 else 1;
      var more;
      more, tail := SpellingOf(text[k..]);
      JoinHead(text[..k], more);
      assert text == text[..k] + text[k..];
      if text[0] == '.' {
        pieces := [""] + more;
        Associate(".", Join(more), tail);
      } else {
        pieces := more[0 := text[..k] + more[0]];
        Associate(text[..k], Join(more), tail);
        SpellsMore(text[..k], more[0], Labels(text[k..])[0]);
      }
    }
  }

  lemma SpellsMore(front: string, text: string, word: string)
    requires Spells(text, word)
    requires (|front| == 1 && front[0] !in "\\.") || (|front| == 2 && front[0] == '\\')
    ensures Spells(front + text, [front[|front| - 1]] + word)
  {
    assert (front + text)[|front|..] == text && ([front[|front| - 1]] + word)[1..] == word;
  }

  ghost predicate CanSpell(text: string, labels: seq<string>) {
    exists pieces: seq<string>, tail: string :: IsSpelling(text, labels, pieces, tail)
  }

  /** A name has these labels exactly if, without the dots at its end, it is a way to write them. */
  lemma SplitIff(rname: string, labels: seq<string>)
    ensures SplitRname(rname) == labels <==> CanSpell(StripDots(rname), labels)
  {
    var text := StripDots(rname);
    var pieces, tail := SpellingOf(text);
    assert CanSpell(text, Labels(text));
    if CanSpell(text, labels) {
      var pieces, tail :| IsSpelling(text, labels, pieces, tail);
      SpellingIsRead(labels, pieces, tail);
    }
  }

  /** The dots at the end, and only those, do not count. */
  lemma {:induction false} StripDotsIff(s: string, stripped: string)
    ensures StripDots(s) == stripped <==>
      (exists n: nat :: s == stripped + Dots(n)) && (stripped == "" || stripped[|stripped| - 1] != '.')
  {
    var n := StripLeaves(s);
    if stripped == "" || stripped[|stripped| - 1] != '.' {
      forall n: nat | s == stripped + Dots(n) ensures StripDots(s) == stripped { StripAppended(stripped, n); }
    }
  }

  lemma {:induction false} StripLeaves(s: string) returns (n: nat)
    ensures s == StripDots(s) + Dots(n)
    ensures StripDots(s) == "" || StripDots(s)[|StripDots(s)| - 1] != '.'
  {
    n := 0;
    if s != "" && s[|s| - 1] == '.' {
      n := StripLeaves(s[..|s| - 1]);
      n := n + 1;
      assert Dots(n) == Dots(n - 1) + ".";
    }
  }

  lemma {:induction false} StripAppended(s: string, n: nat)
    ensures StripDots(s + Dots(n)) == StripDots(s)
  {
    if n == 0 {
      assert s + Dots(0) == s;
    } else {
      assert (s + Dots(n))[..|s + Dots(n)| - 1] == s + Dots(n - 1);
      StripAppended(s, n - 1);
    }
  }

  lemma {:induction false} StrippingAddsNoLabel(s: string)
    ensures |Labels(StripDots(s))| <= |Labels(s)|
  {
    if s != "" && s[|s| - 1] == '.' {
      StrippingAddsNoLabel(s[..|s| - 1]);
      ShorterHasNoMoreLabels(s);
    }
  }

  lemma {:induction false} ShorterHasNoMoreLabels(s: string)
    requires s != ""
    ensures |Labels(s[..|s| - 1])| <= |Labels(s)|
  {
    if |s| > 1 {
      var k := if s[0] == '\\' then 2 else 1;
      if |s| > k {
        assert s[..|s| - 1][k..] == s[k..][..|s| - k - 1];
        ShorterHasNoMoreLabels(s[k..]);
      }
    }
  }

  /* ---------- the last word ---------- */

  lemma {:induction false} EscapeSnoc(word: string)
    requires word != ""
    ensures var last := word[|word| - 1];
      Escape(word) == Escape(word[..|word| - 1]) + if last == '.' || last == '\\' then ['\\', last] else [last]
  {
    if |word| > 1 {
      EscapeSnoc(word[1..]);
      assert word[1..][..|word| - 2] == word[..|word| - 1][1..];
    } else {
      assert word[..0] == "" && word[1..] == "";
    }
  }

  /** What comes before the last label. */
  function Front(others: seq<string>): string {
    if others == [] then "" else Render(others) + "."
  }

  lemma {:induction false} RenderSnoc(others: seq<string>, word: string)
    ensures Render(others + [word]) == Front(others) + Escape(word)
  {
    var all := others + [word];
    if others == [] {
      assert all == [word];
    } else {
      RenderSnoc(others[1..], word);
      assert all[1..] == others[1..] + [word] && |all| > 1;
      Associate(Escape(others[0]) + ".", Front(others[1..]), Escape(word));
      FrontCons(others);
    }
  }

  lemma FrontCons(others: seq<string>)
    requires others != []
    ensures Front(others) == Escape(others[0]) + "." + Front(others[1..])
  {
    if |others| > 1 { Associate(Escape(others[0]) + ".", Render(others[1..]), "."); }
  }

  lemma Associate(a: string, b: string, c: string)
    ensures a + (b + c) == a + b + c
  {
  }

  lemma RenderLast(labels: seq<string>)
    requires labels != []
    ensures var n := |labels| - 1; Render(labels) == Front(labels[..n]) + Escape(labels[n])
  {
    var n := |labels| - 1;
    RenderSnoc(labels[..n], labels[n]);
    assert labels[..n] + [labels[n]] == labels;
  }

  /** The lists of labels that survive: the one empty label, or a last label that neither is empty nor ends in a dot. */
  predicate Recoverable(labels: seq<string>)
    requires labels != []
  {
    var last := labels[|labels| - 1];
    labels == [""] || (last != "" && last[|last| - 1] != '.')
  }

  lemma RecoverableIsKept(labels: seq<string>, n: nat)
    requires labels != [] && Recoverable(labels)
    ensures SplitRname(Render(labels) + Dots(n)) == labels
  {
    StripAppended(Render(labels), n);
    RenderThen(labels, "");
    assert Render(labels) + "" == Render(labels);
    if labels != [""] {
      RenderLast(labels);
      EscapeSnoc(labels[|labels| - 1]);
    }
  }

  lemma EmptyLastIsLost(labels: seq<string>, n: nat)
    requires |labels| > 1 && labels[|labels| - 1] == ""
    ensures |SplitRname(Render(labels) + Dots(n))| < |labels|
  {
    var others := labels[..|labels| - 1];
    StripAppended(Render(labels), n);
    RenderLast(labels);
    assert Render(labels) == Render(others) + ".";
    assert Render(labels)[..|Render(labels)| - 1] == Render(others);
    StrippingAddsNoLabel(Render(others));
    RenderThen(others, "");
    assert Render(others) + "" == Render(others);
  }

  /** A dot at the end of the last label goes with the trailing dots, and its backslash is left over. */
  lemma DotAtTheEndIsLost(labels: seq<string>, n: nat)
    requires labels != [] && labels[|labels| - 1] != ""
    requires var last := labels[|labels| - 1]; last[|last| - 1] == '.'
    ensures var last := labels[|labels| - 1];
      SplitRname(Render(labels) + Dots(n)) == labels[..|labels| - 1] + [last[..|last| - 1]]
  {
    var last := labels[|labels| - 1];
    var shorter := labels[..|labels| - 1] + [last[..|last| - 1]];
    StripAppended(Render(labels), n);
    RenderLast(labels);
    RenderSnoc(labels[..|labels| - 1], last[..|last| - 1]);
    EscapeSnoc(last);
    var text := Render(labels);
    assert text == Render(shorter) + "\\" + ".";
    assert text[..|text| - 1] == Render(shorter) + "\\";
    RenderThen(shorter, "\\");
  }

  /** Rendering labels, appending any number of dots and splitting gives the labels back exactly if they are
      recoverable. */
  lemma RoundTrip(labels: seq<string>, n: nat)
    requires labels != []
    ensures SplitRname(Render(labels) + Dots(n)) == labels <==> Recoverable(labels)
  {
    if Recoverable(labels) {
      RecoverableIsKept(labels, n);
    } else if labels[|labels| - 1] == "" {
      EmptyLastIsLost(labels, n);
    } else {
      DotAtTheEndIsLost(labels, n);
    }
  }

  /* ---------- the e-mail address ---------- */

  function LowerAll(labels: seq<string>): seq<string> {
    seq(|labels|, i requires 0 <= i < |labels| => Lower(labels[i]))
  }

  /** `soa_rname_to_email`. */
  function EmailOf(rname: string): string {
    var parts := SplitRname(Lower(rname));
    if |parts| < 2 then "" else parts[0] + "@" + Join(parts[1..])
  }

  datatype Address = NoAddress | Address(localpart: string, domain: string)

  function IndexOf(s: string, c: char): (i: nat)
    requires c in s
    ensures i < |s| && s[i] == c && forall k | 0 <= k < i :: s[k] != c
  {
    if s[0] == c then 0 else 1 + IndexOf(s[1..], c)
  }

  /** What `run` makes of the e-mail address: `email.split("@", 1)`. */
  function AddressOf(rname: string): Address {
    var email := EmailOf(rname);
    if '@' !in email then NoAddress
    else Address(email[..IndexOf(email, '@')], email[IndexOf(email, '@') + 1..])
  }

  lemma {:induction false} LabelsOfLower(s: string)
    ensures Labels(Lower(s)) == LowerAll(Labels(s))
  {
    if s != "" {
      var k := if s[0] == '\\' && |s| > 1 then 2 else 1;
      assert Lower(s)[k..] == Lower(s[k..]);
      LabelsOfLower(s[k..]);
      assert Lower(s)[0] == LowerChar(s[0]);
      if k == 2 {
        assert Lower(s)[1] == LowerChar(s[1]);
        LowerGlue(s[1], Labels(s[2..]));
      } else if s[0] != '.' && s[0] != '\\' {
        LowerGlue(s[0], Labels(s[1..]));
      }
    }
  }

  lemma LowerGlue(c: char, labels: seq<string>)
    requires labels != []
    ensures LowerAll(Glue([c], labels)) == Glue([LowerChar(c)], LowerAll(labels))
  {
    assert Lower([c] + labels[0]) == [LowerChar(c)] + Lower(labels[0]);
  }

  lemma {:induction false} StripOfLower(s: string)
    ensures StripDots(Lower(s)) == Lower(StripDots(s))
  {
    if s != "" {
      assert Lower(s)[|s| - 1] == LowerChar(s[|s| - 1]);
      if s[|s| - 1] == '.' {
        assert Lower(s)[..|s| - 1] == Lower(s[..|s| - 1]);
        StripOfLower(s[..|s| - 1]);
      }
    }
  }

  lemma EmailOfRendered(labels: seq<string>, n: nat)
    requires |labels| > 1 && Recoverable(labels)
    ensures EmailOf(Render(labels) + Dots(n)) == Lower(labels[0]) + "@" + Join(LowerAll(labels[1..]))
  {
    RecoverableIsKept(labels, n);
    SplitLower(Render(labels) + Dots(n));
    LowerTail(labels);
  }

  lemma SplitLower(rname: string)
    ensures SplitRname(Lower(rname)) == LowerAll(SplitRname(rname))
  {
    StripOfLower(rname);
    LabelsOfLower(StripDots(rname));
  }

  lemma LowerTail(labels: seq<string>)
    requires |labels| > 1
    ensures |LowerAll(labels)| > 1 && LowerAll(labels)[0] == Lower(labels[0])
    ensures LowerAll(labels)[1..] == LowerAll(labels[1..])
  {
  }

  /** Letter case aside, the local part is the first label and the domain the others. */
  ghost predicate Recovers(a: Address, labels: seq<string>)
    requires |labels| > 1
  {
    a.Address? && IsLowered(a.localpart, labels[0]) && IsLowered(a.domain, Join(labels[1..]))
  }

  /** The address of a rendered list of labels recovers them exactly if the first label has no at sign. */
  lemma AddressRecovered(labels: seq<string>, n: nat)
    requires |labels| > 1 && Recoverable(labels)
    ensures Recovers(AddressOf(Render(labels) + Dots(n)), labels) <==> '@' !in labels[0]
  {
    var address := AddressOf(Render(labels) + Dots(n));
    EmailOfRendered(labels, n);
    LowerKeepsAtSign(labels[0]);
    LowerOfJoin(labels[1..]);
    SplitAddress(Lower(labels[0]), Join(LowerAll(labels[1..])));
    LowerIff(address.localpart, labels[0]);
    LowerIff(address.domain, Join(labels[1..]));
  }

  lemma {:induction false} LowerOfJoin(labels: seq<string>)
    requires labels != []
    ensures Lower(Join(labels)) == Join(LowerAll(labels))
  {
    if |labels| > 1 {
      LowerOfJoin(labels[1..]);
      LowerTail(labels);
      assert Lower(labels[0] + "." + Join(labels[1..])) == Lower(labels[0]) + "." + Lower(Join(labels[1..]));
    }
  }

  /** A name with fewer than two labels gives no address, and any other gives one. */
  lemma NoAddressIff(rname: string)
    ensures AddressOf(rname).NoAddress? <==> |SplitRname(rname)| < 2
  {
    SplitLower(rname);
    var parts := SplitRname(Lower(rname));
    if |parts| >= 2 { SplitAddress(parts[0], Join(parts[1..])); }
  }

  lemma SplitAddress(localpart: string, domain: string)
    ensures '@' in localpart + "@" + domain
    ensures var email := localpart + "@" + domain;
      var split := Address(email[..IndexOf(email, '@')], email[IndexOf(email, '@') + 1..]);
      split == Address(localpart, domain) <==> '@' !in localpart
  {
    SplitAtSign(localpart, domain);
    var email := localpart + "@" + domain;
    var i := IndexOf(email, '@');
    if i != |localpart| { assert |email[..i]| != |localpart|; }
  }

  lemma LowerKeepsAtSign(s: string)
    ensures '@' in Lower(s) <==> '@' in s
  {
    if '@' in s {
      var i :| 0 <= i < |s| && s[i] == '@';
      assert Lower(s)[i] == '@';
    }
  }

  lemma SplitAtSign(localpart: string, domain: string)
    ensures var email := localpart + "@" + domain;
      '@' in email && (IndexOf(email, '@') == |localpart| <==> '@' !in localpart)
    ensures var email := localpart + "@" + domain;
      email[..|localpart|] == localpart && email[|localpart| + 1..] == domain
  {
    var email := localpart + "@" + domain;
    assert email[|localpart|] == '@';
    var i := IndexOf(email, '@');
    assert email[..|localpart|] == localpart;
    if '@' !in localpart {
      assert forall k | 0 <= k < |localpart| :: email[k] == localpart[k];
    }
  }
}
