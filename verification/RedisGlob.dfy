/** The globs of Redis, with classes, and the pattern of a scan: scanPattern of persist/redis.go. */
module RedisGlob {
  import opened Glob
  import opened GlobEscape

  // ---------------------------------------------------------------- classes

  /** What follows the opening bracket may begin with a circumflex. */
  predicate IsNegated(body: string) {
    body != "" && body[0] == '^'
  }

  function Members(body: string): string {
    if IsNegated(body) then body[1..] else body
  }

  /** A range may be given in either direction. */
  predicate InRange(a: char, b: char, c: char) {
    a <= c <= b || b <= c <= a
  }

  /** Whether c is among the members up to the closing bracket, or up to the end of a class that is not closed. */
  predicate HasMember(m: string, c: char) {
    if m == "" then false
    else if m[0] == '\\' && |m| >= 2 then m[1] == c || HasMember(m[2..], c)
    else if m[0] == ']' then false
    else if |m| >= 3 && m[1] == '-' then InRange(m[0], m[2], c) || HasMember(m[3..], c)
    else m[0] == c || HasMember(m[1..], c)
  }

  /** What follows the closing bracket; nothing if the class is not closed. */
  function AfterClass(m: string): (rest: string)
    ensures |rest| <= |m|
  {
    if m == "" then ""
    else if m[0] == '\\' && |m| >= 2 then AfterClass(m[2..])
    else if m[0] == ']' then m[1..]
    else if |m| >= 3 && m[1] == '-' then AfterClass(m[3..])
    else AfterClass(m[1..])
  }

  predicate InClass(body: string, c: char) {
    HasMember(Members(body), c) != IsNegated(body)
  }

  // ---------------------------------------------------------------- globs

  predicate RedisMatches(glob: string, s: string)
    decreases |glob| + |s|
  {
    if glob == "" then s == ""
    else if glob[0] == '*' then RedisMatches(glob[1..], s) || (s != "" && RedisMatches(glob, s[1..]))
    else if s == "" then false
    else if glob[0] == '?' then RedisMatches(glob[1..], s[1..])
    else if glob[0] == '[' then
      InClass(glob[1..], s[0]) && RedisMatches(AfterClass(Members(glob[1..])), s[1..])
    else if glob[0] == '\\' && |glob| >= 2 then glob[1] == s[0] && RedisMatches(glob[2..], s[1..])
    else glob[0] == s[0] && RedisMatches(glob[1..], s[1..])
  }

  // ---------------------------------------------------------------- what a class means

  datatype ClassItem = Plain(c: char) | Escape(c: char) | Range(a: char, b: char)

  function PrintItem(item: ClassItem): string {
    match item
    case Plain(c) => [c]
    case Escape(c) => ['\\', c]
    case Range(a, b) => [a, '-', b]
  }

  function PrintItems(items: seq<ClassItem>, tail: string): string {
    if items == [] then tail else PrintItem(items[0]) + PrintItems(items[1..], tail)
  }

  predicate Accepts(item: ClassItem, c: char) {
    match item
    case Plain(d) => c == d
    case Escape(d) => c == d
    case Range(a, b) => InRange(a, b, c)
  }

  /** What the item may be if rest follows it: a dash after a character makes a range if there is an end to it. */
  predicate Proper(item: ClassItem, rest: string) {
    match item
    case Plain(c) => c != ']' && (c == '\\' ==> rest == "") && (|rest| >= 2 ==> rest[0] != '-')
    case Escape(_) => true
    case Range(a, _) => a != ']' && a != '\\'
  }

  /** The members of a class, up to the closing bracket or to the end of a pattern that does not close it. */
  ghost predicate Written(items: seq<ClassItem>, tail: string) {
    if items == [] then tail == "" || tail[0] == ']'
    else Proper(items[0], PrintItems(items[1..], tail)) && Written(items[1..], tail)
  }

  ghost predicate SomeAccepts(items: seq<ClassItem>, c: char) {
    exists i :: 0 <= i < |items| && Accepts(items[i], c)
  }

  lemma SomeAcceptsFirst(items: seq<ClassItem>, c: char)
    requires items != []
    ensures SomeAccepts(items, c) <==> Accepts(items[0], c) || SomeAccepts(items[1..], c)
  {
    if i :| 0 <= i < |items| && Accepts(items[i], c) {
      assert i > 0 ==> items[1..][i - 1] == items[i];
    }
    if i :| 0 <= i < |items[1..]| && Accepts(items[1..][i], c) {
      assert items[i + 1] == items[1..][i];
    }
  }

  lemma ReadItem(item: ClassItem, rest: string, c: char)
    requires Proper(item, rest)
    ensures HasMember(PrintItem(item) + rest, c) <==> Accepts(item, c) || HasMember(rest, c)
    ensures AfterClass(PrintItem(item) + rest) == AfterClass(rest)
  {
    var m := PrintItem(item) + rest;
    match item {
      case Plain(_) =>
        assert m[1..] == rest;
        assert |rest| >= 2 ==> m[1] == rest[0];
      case Escape(_) =>
        assert m[2..] == rest;
      case Range(_, _) =>
        assert m[3..] == rest;
    }
  }

  /** A class, closed or not, has the members that its items say; the pattern goes on after its closing bracket. */
  lemma {:induction false} ClassMeaning(items: seq<ClassItem>, tail: string, c: char)
    requires Written(items, tail)
    ensures HasMember(PrintItems(items, tail), c) <==> SomeAccepts(items, c)
    ensures AfterClass(PrintItems(items, tail)) == if tail == "" then "" else tail[1..]
  {
    if items != [] {
      ClassMeaning(items[1..], tail, c);
      ReadItem(items[0], PrintItems(items[1..], tail), c);
      SomeAcceptsFirst(items, c);
    }
  }

  /** The first item of what follows an opening bracket, and what is left. */
  function ItemOf(m: string): ClassItem
    requires m != "" && m[0] != ']'
  {
    if m[0] == '\\' && |m| >= 2 then Escape(m[1])
    else if |m| >= 3 && m[1] == '-' then Range(m[0], m[2])
    else Plain(m[0])
  }

  lemma ItemComesFirst(m: string)
    requires m != "" && m[0] != ']'
    ensures var n := |PrintItem(ItemOf(m))|;
            n <= |m| && n > 0 && m == PrintItem(ItemOf(m)) + m[n..] && Proper(ItemOf(m), m[n..])
  {
  }

  /** Every class there is can be read in this way: nothing is left out. */
  lemma {:induction false} EveryClass(m: string) returns (items: seq<ClassItem>, tail: string)
    ensures Written(items, tail) && PrintItems(items, tail) == m
    decreases |m|
  {
    if m == "" || m[0] == ']' {
      items, tail := [], m;
    } else {
      ItemComesFirst(m);
      var item := ItemOf(m);
      var rest := m[|PrintItem(item)|..];
      items, tail := EveryClass(rest);
      assert ([item] + items)[1..] == items;
      items := [item] + items;
    }
  }

  function Body(negated: bool, members: string): string {
    if negated then ['^'] + members else members
  }

  lemma BodyOf(negated: bool, members: string)
    requires !negated ==> !IsNegated(members)
    ensures Members(Body(negated, members)) == members && IsNegated(Body(negated, members)) == negated
  {
  }

  lemma OpensClass(body: string, s: string)
    ensures RedisMatches(['['] + body, s) <==>
            s != "" && InClass(body, s[0]) && RedisMatches(AfterClass(Members(body)), s[1..])
  {
    assert (['['] + body)[1..] == body;
  }

  /** A key matches a class pattern exactly if its first character is among the members, or is not if the class is
    * negated, and the rest matches what follows the class. */
  lemma MatchesClass(negated: bool, items: seq<ClassItem>, tail: string, s: string)
    requires Written(items, tail)
    requires !negated ==> !IsNegated(PrintItems(items, tail))
    ensures RedisMatches(['['] + Body(negated, PrintItems(items, tail)), s) <==>
            s != "" && (SomeAccepts(items, s[0]) != negated)
                && RedisMatches(if tail == "" then "" else tail[1..], s[1..])
  {
    BodyOf(negated, PrintItems(items, tail));
    OpensClass(Body(negated, PrintItems(items, tail)), s);
    if s != "" {
      ClassMeaning(items, tail, s[0]);
    }
  }

  /** A backslash makes any character literal, a bracket included, and a character that is not special is itself. */
  lemma RedisHonoursLiterals()
    ensures HonoursLiterals(RedisMatches)
  {
    forall h: string, c: char, g: string, s: string | h == EscapeChar(c) + g || h == ['\\', c] + g
      ensures TakesLiteral(RedisMatches, h, c, g, s)
    {
      if h == [c] + g && !IsGlobMeta(c) {
        assert h[0] == c && h[1..] == g;
      } else {
        assert h == ['\\', c] + g && h[0] == '\\' && h[1] == c && h[2..] == g;
      }
    }
  }

  // ---------------------------------------------------------------- the pattern of a scan

  ghost predicate InNamespace(keyPrefix: string, pattern: string, s: string) {
    |keyPrefix| <= |s| && s[..|keyPrefix|] == keyPrefix && RedisMatches(pattern, s[|keyPrefix|..])
  }

  /** A scan finds exactly the keys that are the prefix followed by a match of the caller's pattern, whatever
    * metacharacters either of them has. */
  method ScanPattern(keyPrefix: string, pattern: string) returns (r: string)
    ensures forall s :: RedisMatches(r, s) <==> InNamespace(keyPrefix, pattern, s)
  {
    var escaped := EscapeGlobMeta(keyPrefix);
    RedisHonoursLiterals();
    forall s ensures RedisMatches(escaped + pattern, s) <==> InNamespace(keyPrefix, pattern, s) {
      PrefixIsLiteral(RedisMatches, keyPrefix, pattern, s);
    }
    return escaped + pattern;
  }

  /** Why the prefix has to be escaped: as it is, "a*:" reaches the namespace "ab:". */
  lemma UnescapedReachesOthers()
    ensures RedisMatches("a*:" + "*", "ab:") && !InNamespace("a*:", "*", "ab:")
  {
    assert "a*:" + "*" == "a*:*";
    assert "a*:*"[1..] == "*:*" && "*:*"[1..] == ":*" && ":*"[1..] == "*" && "*"[1..] == "";
    assert "ab:"[1..] == "b:" && "b:"[1..] == ":" && ":"[1..] == "";
    assert RedisMatches("*", "");
    assert RedisMatches(":*", ":");
    assert RedisMatches("*:*", ":");
    assert RedisMatches("*:*", "b:");
    assert "ab:"[..3][1] != "a*:"[1];
  }

  /** An escaped string matches only itself, on both levels. */
  lemma EscapedKeyMatchesItself(key: string, s: string)
    ensures RedisMatches(Escaped(key), s) <==> s == key
    ensures GlobMatches(Escaped(key), s) <==> s == key
  {
    RedisHonoursLiterals();
    GlobHonoursLiterals();
    PrefixIsLiteral(RedisMatches, key, "", s);
    PrefixIsLiteral(GlobMatches, key, "", s);
    assert Escaped(key) + "" == Escaped(key);
    assert Atoms("") == [];
  }
}
