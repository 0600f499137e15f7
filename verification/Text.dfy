/** The string operations of the Go standard library that the cache uses, over ASCII. */
module Text {
  predicate IsSpace(c: char) {
    c == ' ' || c == '\t' || c == '\n' || c == '\r' || c == 11 as char || c == 12 as char
  }

  function TrimLeft(s: string, drop: char -> bool): (r: string)
    ensures r == "" || !drop(r[0])
    ensures exists i :: 0 <= i <= |s| && r == s[i..]
  {
    if s == "" || !drop(s[0]) then s[0..]
    else
      var r := TrimLeft(s[1..], drop);
      assert forall i :: 0 <= i <= |s| - 1 ==> s[1..][i..] == s[i + 1..];
      r
  }

  function TrimRight(s: string, drop: char -> bool): string {
    if s == "" || !drop(s[|s| - 1]) then s else TrimRight(s[..|s| - 1], drop)
  }

  function TrimSpace(s: string): string {
    TrimRight(TrimLeft(s, IsSpace), IsSpace)
  }

  /** The position of the first c in s, or |s|. */
  function Index(s: string, c: char): (i: nat)
    ensures i <= |s| && c !in s[..i] && (i < |s| ==> s[i] == c)
  {
    if s == "" || s[0] == c then 0
    else
      var j := Index(s[1..], c);
      assert s[..j + 1] == [s[0]] + s[1..][..j];
      j + 1
  }

  /** strings.Cut: what precedes the first c, and what follows it. */
  function Before(s: string, c: char): string {
    s[..Index(s, c)]
  }

  function After(s: string, c: char): string {
    if Index(s, c) < |s| then s[Index(s, c) + 1..] else ""
  }

  function Split(s: string, c: char): (parts: seq<string>)
    ensures parts != []
  {
    if c in s then [Before(s, c)] + Split(After(s, c), c) else [s]
  }

  function LowerChar(c: char): char {
    if 'A' <= c <= 'Z' then (c as int + 32) as char else c
  }

  function ToLower(s: string): (r: string)
    ensures |r| == |s| && forall i :: 0 <= i < |s| ==> r[i] == LowerChar(s[i])
  {
    if s == "" then "" else [LowerChar(s[0])] + ToLower(s[1..])
  }

  predicate EqualFold(a: string, b: string) {
    ToLower(a) == ToLower(b)
  }

  predicate HasPrefix(s: string, p: string) {
    |p| <= |s| && s[..|p|] == p
  }

  function TrimPrefix(s: string, p: string): string {
    if HasPrefix(s, p) then s[|p|..] else s
  }

  predicate AllDigits(s: string) {
    forall i :: 0 <= i < |s| ==> '0' <= s[i] <= '9'
  }

  predicate IsDigits(s: string) {
    s != "" && AllDigits(s)
  }

  /** The number a string of digits stands for. */
  function ToNat(s: string): nat
    requires AllDigits(s)
  {
    if s == "" then 0 else 10 * ToNat(s[..|s| - 1]) + (s[|s| - 1] as int - '0' as int)
  }

  // ---------------------------------------------------------------- what these operations mean

  /** The same letter in either case, or the same character. */
  predicate SameLetter(a: char, b: char) {
    a == b || ('A' <= a <= 'Z' && b as int == a as int + 32) || ('A' <= b <= 'Z' && a as int == b as int + 32)
  }

  predicate SameLetters(a: string, b: string) {
    |a| == |b| && forall i :: 0 <= i < |a| ==> SameLetter(a[i], b[i])
  }

  lemma FoldIsSameLetters(a: string, b: string)
    ensures EqualFold(a, b) <==> SameLetters(a, b)
  {
    if EqualFold(a, b) {
      forall i | 0 <= i < |a| ensures SameLetter(a[i], b[i]) {
        assert ToLower(a)[i] == ToLower(b)[i];
      }
    }
    if SameLetters(a, b) {
      forall i | 0 <= i < |a| ensures ToLower(a)[i] == ToLower(b)[i] {
        assert SameLetter(a[i], b[i]);
      }
      assert ToLower(a) == ToLower(b);
    }
  }

  predicate NoUpper(s: string) {
    forall i :: 0 <= i < |s| ==> !('A' <= s[i] <= 'Z')
  }

  /** A name is a given lower-case word if it is spelled with its letters, in any case. */
  lemma LowerIs(name: string, word: string)
    requires NoUpper(word)
    ensures ToLower(name) == word <==> SameLetters(name, word)
  {
    assert ToLower(word) == word;
    FoldIsSameLetters(name, word);
  }

  predicate IsBlank(c: char) {
    c == ' ' || c == '\t'
  }

  ghost predicate Blanks(s: string) {
    forall i :: 0 <= i < |s| ==> IsBlank(s[i])
  }

  ghost predicate Spaces(s: string) {
    forall i :: 0 <= i < |s| ==> IsSpace(s[i])
  }

  /** Neither begins nor ends with white space. */
  predicate Trimmed(s: string) {
    s != "" ==> !IsSpace(s[0]) && !IsSpace(s[|s| - 1])
  }

  lemma {:induction false} TrimLeftSpaces(b: string, x: string)
    requires Spaces(b)
    ensures TrimLeft(b + x, IsSpace) == TrimLeft(x, IsSpace)
  {
    if b == "" {
      assert b + x == x;
    } else {
      assert (b + x)[1..] == b[1..] + x;
      TrimLeftSpaces(b[1..], x);
    }
  }

  lemma {:induction false} TrimRightSpaces(x: string, a: string)
    requires Spaces(a)
    ensures TrimRight(x + a, IsSpace) == TrimRight(x, IsSpace)
  {
    if a == "" {
      assert x + a == x;
    } else {
      assert (x + a)[..|x + a| - 1] == x + a[..|a| - 1];
      TrimRightSpaces(x, a[..|a| - 1]);
    }
  }

  /** White space around a text goes, and nothing else does. */
  lemma TrimPadded(b: string, t: string, a: string)
    requires Spaces(b) && Spaces(a) && Trimmed(t)
    ensures TrimSpace(b + (t + a)) == t
  {
    TrimLeftSpaces(b, t + a);
    if t == "" {
      assert t + a == a && a + "" == a;
      TrimLeftSpaces(a, "");
    } else {
      assert (t + a)[0..] == t + a;
      TrimRightSpaces(t, a);
    }
  }

  lemma {:induction false} TrimLeftParts(s: string) returns (b: string)
    ensures Spaces(b) && s == b + TrimLeft(s, IsSpace)
  {
    if s == "" || !IsSpace(s[0]) {
      b := "";
      assert s[0..] == s;
    } else {
      var rest := TrimLeftParts(s[1..]);
      b := Prepended(s[0], rest, s[1..], TrimLeft(s[1..], IsSpace));
      assert [s[0]] + s[1..] == s;
    }
  }

  lemma Prepended(c: char, b: string, s: string, t: string) returns (b': string)
    requires IsSpace(c) && Spaces(b) && s == b + t
    ensures Spaces(b') && [c] + s == b' + t
  {
    b' := [c] + b;
  }

  lemma {:induction false} TrimRightParts(s: string) returns (a: string)
    ensures Spaces(a) && s == TrimRight(s, IsSpace) + a
    ensures var r := TrimRight(s, IsSpace); r != "" ==> !IsSpace(r[|r| - 1]) && r[0] == s[0]
  {
    if s == "" || !IsSpace(s[|s| - 1]) {
      a := "";
    } else {
      a := TrimRightParts(s[..|s| - 1]);
      a := a + [s[|s| - 1]];
    }
  }

  /** Trimming takes white space from both ends, all of it. */
  lemma TrimParts(s: string) returns (b: string, a: string)
    ensures Spaces(b) && Spaces(a) && Trimmed(TrimSpace(s)) && s == b + (TrimSpace(s) + a)
  {
    b := TrimLeftParts(s);
    a := TrimRightParts(TrimLeft(s, IsSpace));
  }

  lemma {:induction false} TrimLeftKeepsEnd(x: string, a: string)
    requires Spaces(a)
    ensures TrimRight(TrimLeft(x + a, IsSpace), IsSpace) == TrimRight(TrimLeft(x, IsSpace), IsSpace)
  {
    if x == "" {
      assert x + a == a && a + "" == a;
      TrimLeftSpaces(a, "");
    } else if IsSpace(x[0]) {
      assert (x + a)[1..] == x[1..] + a;
      TrimLeftKeepsEnd(x[1..], a);
    } else {
      assert (x + a)[0..] == x + a && x[0..] == x;
      TrimRightSpaces(x, a);
    }
  }

  /** Further blanks at the end do not matter. */
  lemma TrimIgnoresEnd(x: string, a: string)
    requires Spaces(a)
    ensures TrimSpace(x + a) == TrimSpace(x)
  {
    TrimLeftKeepsEnd(x, a);
  }

  lemma {:induction false} FirstIndex(p: string, c: char, rest: string)
    requires c !in p
    ensures Index(p + ([c] + rest), c) == |p|
  {
    var s := p + ([c] + rest);
    if p == "" {
      assert s[0] == c;
    } else {
      assert s[1..] == p[1..] + ([c] + rest);
      FirstIndex(p[1..], c, rest);
    }
  }

  lemma CutAtFirst(p: string, c: char, rest: string)
    requires c !in p
    ensures var s := p + ([c] + rest); c in s && Before(s, c) == p && After(s, c) == rest
  {
    var s := p + ([c] + rest);
    FirstIndex(p, c, rest);
    assert s[|p|] == c && s[..|p|] == p && s[|p| + 1..] == rest;
  }

  lemma NothingToCut(p: string, c: char)
    requires c !in p
    ensures Before(p, c) == p && After(p, c) == ""
  {
    assert Index(p, c) == |p|;
    assert p[..|p|] == p;
  }

  lemma CutIsWhole(s: string, c: char)
    requires c in s
    ensures s == Before(s, c) + ([c] + After(s, c)) && c !in Before(s, c)
  {
    assert s[..|s|] == s;
    assert Index(s, c) < |s|;
  }

  function Join(parts: seq<string>, c: char): string {
    if parts == [] then "" else if |parts| == 1 then parts[0] else parts[0] + ([c] + Join(parts[1..], c))
  }

  /** Splitting a joined text gives back the parts, in order. */
  lemma {:induction false} SplitOfJoin(parts: seq<string>, c: char)
    requires parts != [] && forall i :: 0 <= i < |parts| ==> c !in parts[i]
    ensures Split(Join(parts, c), c) == parts
  {
    if |parts| > 1 {
      CutAtFirst(parts[0], c, Join(parts[1..], c));
      SplitOfJoin(parts[1..], c);
    }
  }

  /** Every text is the join of its parts, none of which has the separator in it. */
  lemma {:induction false} JoinOfSplit(s: string, c: char)
    ensures Join(Split(s, c), c) == s
    ensures forall i :: 0 <= i < |Split(s, c)| ==> c !in Split(s, c)[i]
    decreases |s|
  {
    if c in s {
      var i := Index(s, c);
      assert i < |s| && s == s[..i] + ([c] + s[i + 1..]);
      var rest := Split(After(s, c), c);
      JoinOfSplit(After(s, c), c);
      assert ([Before(s, c)] + rest)[1..] == rest;
    }
  }
}
