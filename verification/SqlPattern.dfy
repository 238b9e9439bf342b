/** The translation of a wildcard pattern with * and ? into an operand of LIKE with
    the escape character \ . */
module SqlPattern {

  /** A backslash directly before a wildcard is dropped, left to right. */
  function Normalized(p: string): string
    decreases |p|
  {
    if p == [] then []
    else if |p| >= 2 && p[0] == '\\' && p[1] in {'*', '?'} then [p[1]] + Normalized(p[2..])
    else [p[0]] + Normalized(p[1..])
  }

  function Replace(s: string, c: char, put: string): string {
    if s == [] then [] else (if s[0] == c then put else [s[0]]) + Replace(s[1..], c, put)
  }

  /** The five replacements in their order. */
  function Escaped(s: string): string {
    Replace(Replace(Replace(Replace(Replace(s, '\\', "\\\\"), '%', "\\%"), '_', "\\_"), '*', "%"), '?', "_")
  }

  function Upper(s: string, up: char -> char): string {
    if s == [] then [] else [up(s[0])] + Upper(s[1..], up)
  }

  function Translate(pattern: string, up: char -> char): string {
    Upper(Escaped(Normalized(pattern)), up)
  }

  predicate Special(c: char) {
    c in {'\\', '%', '_', '*', '?'}
  }

  /** Upper-casing one character at a time leaves the special characters alone. */
  ghost predicate KeepsSpecial(up: char -> char) {
    forall c :: if Special(c) then up(c) == c else !Special(up(c))
  }

  // ---- one substitution per character -----------------------------------------------

  function Sub(c: char): string {
    if c == '*' then "%"
    else if c == '?' then "_"
    else if c in {'\\', '%', '_'} then ['\\', c]
    else [c]
  }

  function SubAll(s: string): string {
    if s == [] then [] else Sub(s[0]) + SubAll(s[1..])
  }

  lemma {:induction false} ReplaceJoin(a: string, b: string, c: char, put: string)
    ensures Replace(a + b, c, put) == Replace(a, c, put) + Replace(b, c, put)
  {
    if a == [] {
      assert a + b == b;
    } else {
      assert (a + b)[1..] == a[1..] + b;
      ReplaceJoin(a[1..], b, c, put);
    }
  }

  lemma ReplaceOne(d: char, c: char, put: string)
    ensures Replace([d], c, put) == if d == c then put else [d]
  {
    assert Replace([d][1..], c, put) == [];
  }

  lemma ReplaceTwo(d: char, e: char, c: char, put: string)
    ensures Replace([d, e], c, put) == (if d == c then put else [d]) + (if e == c then put else [e])
  {
    assert [d, e] == [d] + [e];
    ReplaceJoin([d], [e], c, put);
    ReplaceOne(d, c, put);
    ReplaceOne(e, c, put);
  }

  lemma EscapedJoin(a: string, b: string)
    ensures Escaped(a + b) == Escaped(a) + Escaped(b)
  {
    ReplaceJoin(a, b, '\\', "\\\\");
    var a1, b1 := Replace(a, '\\', "\\\\"), Replace(b, '\\', "\\\\");
    ReplaceJoin(a1, b1, '%', "\\%");
    var a2, b2 := Replace(a1, '%', "\\%"), Replace(b1, '%', "\\%");
    ReplaceJoin(a2, b2, '_', "\\_");
    var a3, b3 := Replace(a2, '_', "\\_"), Replace(b2, '_', "\\_");
    ReplaceJoin(a3, b3, '*', "%");
    ReplaceJoin(Replace(a3, '*', "%"), Replace(b3, '*', "%"), '?', "_");
  }

  lemma EscapedOne(c: char)
    ensures Escaped([c]) == Sub(c)
  {
    ReplaceOne(c, '\\', "\\\\");
    if c == '\\' {
      ReplaceTwo('\\', '\\', '%', "\\%");
      ReplaceTwo('\\', '\\', '_', "\\_");
      ReplaceTwo('\\', '\\', '*', "%");
      ReplaceTwo('\\', '\\', '?', "_");
    } else {
      ReplaceOne(c, '%', "\\%");
      if c == '%' {
        ReplaceTwo('\\', '%', '_', "\\_");
        ReplaceTwo('\\', '%', '*', "%");
        ReplaceTwo('\\', '%', '?', "_");
      } else {
        ReplaceOne(c, '_', "\\_");
        if c == '_' {
          ReplaceTwo('\\', '_', '*', "%");
          ReplaceTwo('\\', '_', '?', "_");
        } else {
          ReplaceOne(c, '*', "%");
          ReplaceOne('%', '?', "_");
          ReplaceOne(c, '?', "_");
        }
      }
    }
  }

  /** The chained replacements are one substitution per character: no replacement
      touches what an earlier one produced. */
  lemma {:induction false} ChainIsSubstitution(s: string)
    ensures Escaped(s) == SubAll(s)
  {
    if s != [] {
      assert s == [s[0]] + s[1..];
      EscapedJoin([s[0]], s[1..]);
      EscapedOne(s[0]);
      ChainIsSubstitution(s[1..]);
    }
  }

  lemma {:induction false} UpperJoin(a: string, b: string, up: char -> char)
    ensures Upper(a + b, up) == Upper(a, up) + Upper(b, up)
  {
    if a == [] {
      assert a + b == b;
    } else {
      assert (a + b)[1..] == a[1..] + b;
      UpperJoin(a[1..], b, up);
    }
  }

  /** Upper-casing after the substitution is substituting after the upper-casing. */
  lemma {:induction false} UpperCommutes(s: string, up: char -> char)
    requires KeepsSpecial(up)
    ensures Upper(SubAll(s), up) == SubAll(Upper(s, up))
  {
    if s != [] {
      UpperJoin(Sub(s[0]), SubAll(s[1..]), up);
      UpperSub(s[0], up);
      UpperCommutes(s[1..], up);
    }
  }

  lemma UpperSub(c: char, up: char -> char)
    requires KeepsSpecial(up)
    ensures Upper(Sub(c), up) == Sub(up(c))
  {
    var one := Sub(c);
    assert Upper(one[1..], up) == if |one| == 2 then [up(one[1])] else [] by {
      if |one| == 2 {
        assert one[1..] == [one[1]] && one[1..][1..] == [];
      }
    }
  }

  // ---- the two readings of a pattern -----------------------------------------------------

  /** Every escape character is followed by one of the characters it may escape. */
  predicate WellEscaped(p: string)
    decreases |p|
  {
    p == [] || (if p[0] == '\\' then |p| >= 2 && p[1] in {'\\', '%', '_'} && WellEscaped(p[2..])
                else WellEscaped(p[1..]))
  }

  /** LIKE with escape character \ (ISO/IEC 9075-2 section 8.5), read step by step;
      an escape before anything else is an error, here no match. */
  predicate Like(p: string, text: string)
    decreases |p| + |text|
  {
    if p == [] then text == []
    else if p[0] == '\\' then
      |p| >= 2 && p[1] in {'\\', '%', '_'} && text != [] && text[0] == p[1] && Like(p[2..], text[1..])
    else if p[0] == '%' then Like(p[1..], text) || (text != [] && Like(p, text[1..]))
    else text != [] && (p[0] == '_' || text[0] == p[0]) && Like(p[1..], text[1..])
  }

  /** A * stands for some prefix of the text, a ? for one character. */
  ghost predicate Glob(p: string, text: string)
    decreases |p|
  {
    if p == [] then text == []
    else if p[0] == '*' then exists k :: 0 <= k <= |text| && Glob(p[1..], text[k..])
    else text != [] && (p[0] == '?' || text[0] == p[0]) && Glob(p[1..], text[1..])
  }

  lemma {:induction false} SubstitutionIsWellEscaped(s: string)
    ensures WellEscaped(SubAll(s))
  {
    if s != [] {
      SubstitutionIsWellEscaped(s[1..]);
      var p, rest := SubAll(s), SubAll(s[1..]);
      if s[0] in {'\\', '%', '_'} {
        assert p[2..] == rest;
      } else {
        assert p[1..] == rest;
      }
    }
  }

  /** % stands for some prefix of the text. */
  lemma {:induction false} PercentSkips(rest: string, text: string)
    ensures Like(['%'] + rest, text) <==> exists k :: 0 <= k <= |text| && Like(rest, text[k..])
    decreases |text|
  {
    var p := ['%'] + rest;
    assert p[1..] == rest && text[0..] == text;
    if text != [] {
      PercentSkips(rest, text[1..]);
      forall k | 0 <= k <= |text| - 1 ensures text[1..][k..] == text[k + 1..] {
      }
      if exists k :: 0 <= k <= |text| && Like(rest, text[k..]) {
        var k :| 0 <= k <= |text| && Like(rest, text[k..]);
        if k > 0 {
          assert Like(rest, text[1..][k - 1..]);
        }
      }
    }
  }

  lemma {:induction false} LikeIsGlob(s: string, text: string)
    ensures Like(SubAll(s), text) <==> Glob(s, text)
    decreases |s|
  {
    if s != [] {
      var p, rest := SubAll(s), SubAll(s[1..]);
      if s[0] == '*' {
        PercentSkips(rest, text);
        forall k | 0 <= k <= |text| ensures Like(rest, text[k..]) <==> Glob(s[1..], text[k..]) {
          LikeIsGlob(s[1..], text[k..]);
        }
      } else if text != [] {
        LikeIsGlob(s[1..], text[1..]);
        if s[0] in {'\\', '%', '_'} {
          assert p[2..] == rest && p[0] == '\\' && p[1] == s[0];
        } else {
          assert p[1..] == rest;
        }
      }
    }
  }

  // ---- the translation ---------------------------------------------------------------------

  lemma TranslateIsSubstitution(pattern: string, up: char -> char)
    requires KeepsSpecial(up)
    ensures Translate(pattern, up) == SubAll(Upper(Normalized(pattern), up))
  {
    ChainIsSubstitution(Normalized(pattern));
    UpperCommutes(Normalized(pattern), up);
  }

  /** The translation never leaves a dangling escape. */
  lemma NoDanglingEscape(pattern: string, up: char -> char)
    requires KeepsSpecial(up)
    ensures WellEscaped(Translate(pattern, up))
  {
    TranslateIsSubstitution(pattern, up);
    SubstitutionIsWellEscaped(Upper(Normalized(pattern), up));
  }

  /** A text is LIKE the translation exactly when it matches the normalised pattern,
      upper-cased. */
  lemma TranslationKeepsMeaning(pattern: string, up: char -> char, text: string)
    requires KeepsSpecial(up)
    ensures Like(Translate(pattern, up), text) <==> Glob(Upper(Normalized(pattern), up), text)
  {
    TranslateIsSubstitution(pattern, up);
    LikeIsGlob(Upper(Normalized(pattern), up), text);
  }

  /** A backslash does not make a wildcard literal: the escaped star still matches
      every text. */
  lemma EscapedStarMatchesAll(up: char -> char, text: string)
    requires KeepsSpecial(up)
    ensures Like(Translate("\\*", up), text)
  {
    TranslationKeepsMeaning("\\*", up, text);
    var p := "\\*";
    assert p[2..] == "" && Normalized(p) == "*";
    var star := "*";
    assert star[1..] == "" && Upper(star, up) == "*";
    assert text[|text|..] == "";
    assert Glob("", text[|text|..]);
  }
}
