/** Escaping of the key prefix before a scan: escapeGlobMeta and scanPattern of persist/redis.go. */
module GlobEscape {
  import opened Glob

  predicate IsGlobMeta(c: char) {
    c == '*' || c == '?' || c == '[' || c == ']' || c == '\\'
  }

  predicate Plain(s: string) {
    forall i :: 0 <= i < |s| ==> !IsGlobMeta(s[i])
  }

  function EscapeChar(c: char): string {
    if IsGlobMeta(c) then ['\\', c] else [c]
  }

  function Escaped(s: string): string {
    if s == "" then "" else EscapeChar(s[0]) + Escaped(s[1..])
  }

  lemma {:induction false} PlainEscaped(s: string)
    requires Plain(s)
    ensures Escaped(s) == s
  {
    if s != "" {
      PlainEscaped(s[1..]);
    }
  }

  lemma EscapedStep(s: string, r: string, i: nat)
    requires i < |s| && Escaped(s) == r + Escaped(s[i..])
    ensures Escaped(s) == (r + EscapeChar(s[i])) + Escaped(s[i + 1..])
  {
    assert s[i..][1..] == s[i + 1..];
    assert r + (EscapeChar(s[i]) + Escaped(s[i + 1..])) == (r + EscapeChar(s[i])) + Escaped(s[i + 1..]);
  }

  method EscapeGlobMeta(s: string) returns (r: string)
    ensures r == Escaped(s)
  {
    var i := 0;
    while i < |s| && !IsGlobMeta(s[i])
      invariant i <= |s| && Plain(s[..i])
    {
      i := i + 1;
    }
    if i == |s| {
      PlainEscaped(s);
      return s;
    }
    r := "";
    assert s[0..] == s;
    for k := 0 to |s|
      invariant Escaped(s) == r + Escaped(s[k..])
    {
      EscapedStep(s, r, k);
      var c := s[k];
      ghost var before := r;
      if IsGlobMeta(c) {
        r := r + ['\\'];
        r := r + [c];
      } else {
        r := r + [c];
      }
      assert r == before + EscapeChar(c);
    }
    assert s[|s|..] == "";
  }

  // ---------------------------------------------------------------- what escaping is for

  /** All that escaping asks of a matcher: a backslash makes the next character literal, and a character that is not
    * special stands for itself. What it does with stars, question marks and classes is its own affair. */
  ghost predicate HonoursLiterals(matches: (string, string) -> bool) {
    forall h: string, c: char, g: string, s: string ::
      h == EscapeChar(c) + g || h == ['\\', c] + g ==> TakesLiteral(matches, h, c, g, s)
  }

  /** The pattern h is the character c, then the pattern g. */
  ghost predicate TakesLiteral(matches: (string, string) -> bool, h: string, c: char, g: string, s: string) {
    matches(h, s) <==> s != "" && s[0] == c && matches(g, s[1..])
  }

  /** The escaped prefix followed by any pattern matches exactly the keys that are the prefix followed by a match. */
  lemma {:induction false} PrefixIsLiteral(matches: (string, string) -> bool, p: string, g: string, s: string)
    requires HonoursLiterals(matches)
    ensures matches(Escaped(p) + g, s) <==> |p| <= |s| && s[..|p|] == p && matches(g, s[|p|..])
  {
    if p == "" {
      assert Escaped(p) + g == g && s[0..] == s;
    } else {
      var rest := Escaped(p[1..]) + g;
      assert Escaped(p) + g == EscapeChar(p[0]) + rest;
      assert TakesLiteral(matches, Escaped(p) + g, p[0], rest, s);
      if s != "" && s[0] == p[0] {
        var t := s[1..];
        PrefixIsLiteral(matches, p[1..], g, t);
        assert |p| <= |s| ==> s[|p|..] == t[|p| - 1..] && s[..|p|] == [s[0]] + t[..|p| - 1];
        assert p == [p[0]] + p[1..];
        assert |p| <= |s| && s[..|p|] == p ==> t[..|p| - 1] == p[1..];
      }
    }
  }

  /** The class-free globs of the local level honour literals; RedisGlob does the same for those of Redis. */
  lemma GlobHonoursLiterals()
    ensures HonoursLiterals(GlobMatches)
  {
    forall h: string, c: char, g: string, s: string | h == EscapeChar(c) + g || h == ['\\', c] + g
      ensures TakesLiteral(GlobMatches, h, c, g, s)
    {
      if h == [c] + g && !IsGlobMeta(c) {
        assert h[0] == c && h[1..] == g;
      } else {
        assert h == ['\\', c] + g && h[2..] == g;
      }
      LiteralFirst(h, c, g, s);
    }
  }

  lemma LiteralFirst(h: string, c: char, g: string, s: string)
    requires Atoms(h) == [Lit(c)] + Atoms(g)
    ensures GlobMatches(h, s) <==> s != "" && s[0] == c && GlobMatches(g, s[1..])
  {
    assert ([Lit(c)] + Atoms(g))[1..] == Atoms(g);
  }
}
