/** What the translated pattern means when it is read as a regular expression, and how that compares with the glob. */
module GlobRegexp {
  import opened Wrappers
  import opened Glob

  // ---------------------------------------------------------------- reading a regular expression

  datatype One = Char(c: char) | Dot

  datatype Item = Item(one: One, star: bool)

  /** The characters with a meaning of their own in Go's syntax of regular expressions. */
  predicate IsOperator(c: char) {
    || c == '\\' || c == '.' || c == '+' || c == '*' || c == '?' || c == '|' || c == '^' || c == '$'
    || c == '(' || c == ')' || c == '[' || c == ']' || c == '{' || c == '}'
  }

  /** After a backslash an ASCII character that is neither a letter nor a digit stands for itself. */
  predicate IsPunctuation(c: char) {
    c < 128 as char && !('0' <= c <= '9') && !('A' <= c <= 'Z') && !('a' <= c <= 'z')
  }

  /** The items between the anchors; nothing for an expression outside this fragment of the syntax. */
  function ReadBody(t: string): Option<seq<Item>>
    decreases |t|, 0
  {
    if t == "$" then Some([])
    else if t == "" then None
    else if t[0] == '\\' then
      if |t| > 1 && IsPunctuation(t[1]) then ReadRest(Char(t[1]), t[2..]) else None
    else if t[0] == '.' then ReadRest(Dot, t[1..])
    else if IsOperator(t[0]) then None
    else ReadRest(Char(t[0]), t[1..])
  }

  function ReadRest(one: One, t: string): Option<seq<Item>>
    decreases |t|, 1
  {
    var star := t != "" && t[0] == '*';
    var rest := ReadBody(if star then t[1..] else t);
    if rest.None? then None else Some([Item(one, star)] + rest.value)
  }

  function Read(re: string): Option<seq<Item>> {
    if re != "" && re[0] == '^' then ReadBody(re[1..]) else None
  }

  /** The dot does not match a newline. */
  predicate Fits(one: One, c: char) {
    match one
    case Char(d) => c == d
    case Dot => c != NEWLINE
  }

  predicate RegexpMatches(items: seq<Item>, s: string)
    decreases |items| + |s|
  {
    if items == [] then s == ""
    else if items[0].star then
      RegexpMatches(items[1..], s) || (s != "" && Fits(items[0].one, s[0]) && RegexpMatches(items, s[1..]))
    else s != "" && Fits(items[0].one, s[0]) && RegexpMatches(items[1..], s[1..])
  }

  // ---------------------------------------------------------------- the translation is read as it was meant

  function Translate(a: Atom): Item {
    match a
    case Lit(c) => Item(Char(c), false)
    case AnyOne => Item(Dot, false)
    case AnyRun => Item(Dot, true)
  }

  function TranslateAll(atoms: seq<Atom>): (items: seq<Item>)
    ensures |items| == |atoms|
  {
    if atoms == [] then [] else [Translate(atoms[0])] + TranslateAll(atoms[1..])
  }

  /** No printed atom, and not the final anchor, begins with a star: nothing printed earlier is taken for a
    * repetition. */
  lemma NoStarFirst(atoms: seq<Atom>)
    ensures Print(atoms) + "$" != "" && (Print(atoms) + "$")[0] != '*'
  {
  }

  lemma ReadAtom(a: Atom, t: string)
    requires t != "" && t[0] != '*'
    ensures PrintAtom(a) + t != "$" && ReadBody(PrintAtom(a) + t) ==
            if ReadBody(t).None? then None else Some([Translate(a)] + ReadBody(t).value)
  {
    var p := PrintAtom(a);
    match a {
      case Lit(c) =>
        assert (p + t)[|p|..] == t;
      case AnyOne =>
        assert (p + t)[1..] == t;
      case AnyRun =>
        assert (p + t)[1..] == "*" + t;
        assert ("*" + t)[1..] == t;
    }
  }

  lemma {:induction false} ReadOfPrint(atoms: seq<Atom>)
    ensures ReadBody(Print(atoms) + "$") == Some(TranslateAll(atoms))
  {
    if atoms == [] {
      assert Print(atoms) + "$" == "$";
    } else {
      var t := Print(atoms[1..]) + "$";
      assert Print(atoms) + "$" == PrintAtom(atoms[0]) + t;
      NoStarFirst(atoms[1..]);
      ReadAtom(atoms[0], t);
      ReadOfPrint(atoms[1..]);
    }
  }

  predicate Wild(a: Atom) {
    !a.Lit?
  }

  ghost predicate NoWildcard(atoms: seq<Atom>) {
    forall i :: 0 <= i < |atoms| ==> !Wild(atoms[i])
  }

  /** The regular expression never accepts more than the glob, and accepts as much unless a wildcard meets a newline. */
  lemma {:induction false} SameLanguage(atoms: seq<Atom>, s: string)
    ensures RegexpMatches(TranslateAll(atoms), s) ==> Matches(atoms, s)
    ensures NEWLINE !in s || NoWildcard(atoms) ==> (RegexpMatches(TranslateAll(atoms), s) <==> Matches(atoms, s))
    decreases |atoms| + |s|
  {
    if atoms != [] {
      var items := TranslateAll(atoms);
      assert items[1..] == TranslateAll(atoms[1..]) && items[0] == Translate(atoms[0]);
      assert NoWildcard(atoms) ==> !Wild(atoms[0]) && NoWildcard(atoms[1..]);
      if s != "" {
        assert NEWLINE !in s ==> s[0] != NEWLINE && NEWLINE !in s[1..];
        SameLanguage(atoms[1..], s[1..]);
      }
      if atoms[0].AnyRun? {
        SameLanguage(atoms[1..], s);
        if s != "" {
          SameLanguage(atoms, s[1..]);
        }
      }
    }
  }

  // ---------------------------------------------------------------- exactly when it is exact

  function Newlines(s: string): nat {
    if s == "" then 0 else (if s[0] == NEWLINE then 1 else 0) + Newlines(s[1..])
  }

  function LiteralNewlines(atoms: seq<Atom>): nat {
    if atoms == [] then 0 else (if atoms[0] == Lit(NEWLINE) then 1 else 0) + LiteralNewlines(atoms[1..])
  }

  /** Every newline of a key that the regular expression accepts is one of the pattern's own. */
  lemma {:induction false} NewlinesAreLiteral(atoms: seq<Atom>, s: string)
    requires RegexpMatches(TranslateAll(atoms), s)
    ensures Newlines(s) == LiteralNewlines(atoms)
    decreases |atoms| + |s|
  {
    if atoms != [] {
      var items := TranslateAll(atoms);
      assert items[1..] == TranslateAll(atoms[1..]) && items[0] == Translate(atoms[0]);
      if atoms[0].AnyRun? && RegexpMatches(items[1..], s) {
        NewlinesAreLiteral(atoms[1..], s);
      } else if atoms[0].AnyRun? {
        NewlinesAreLiteral(atoms, s[1..]);
      } else {
        NewlinesAreLiteral(atoms[1..], s[1..]);
      }
    }
  }

  /** The key in which every wildcard stands for one newline. */
  function NewlineKey(atoms: seq<Atom>): string {
    if atoms == [] then "" else [if atoms[0].Lit? then atoms[0].c else NEWLINE] + NewlineKey(atoms[1..])
  }

  lemma {:induction false} NewlineKeyMatches(atoms: seq<Atom>)
    ensures Matches(atoms, NewlineKey(atoms))
    ensures Newlines(NewlineKey(atoms)) >= LiteralNewlines(atoms)
    ensures !NoWildcard(atoms) ==> Newlines(NewlineKey(atoms)) > LiteralNewlines(atoms)
  {
    if atoms != [] {
      NewlineKeyMatches(atoms[1..]);
      var s := NewlineKey(atoms);
      assert s[1..] == NewlineKey(atoms[1..]);
      if atoms[0].AnyRun? {
        assert Matches(atoms[1..], s[1..]);
        assert Matches(atoms, s[1..]);
      }
      if !Wild(atoms[0]) && !NoWildcard(atoms) {
        var i :| 0 <= i < |atoms| && Wild(atoms[i]);
        assert atoms[1..][i - 1] == atoms[i];
      }
    }
  }

  /** What Match decides for a compiled pattern. */
  ghost predicate MatcherAccepts(re: string, s: string) {
    Read(re).Some? && RegexpMatches(Read(re).value, s)
  }

  ghost predicate Translated(glob: string, re: string) {
    re == "^" + Print(Atoms(glob)) + "$"
  }

  lemma TranslatedReads(glob: string, re: string)
    requires Translated(glob, re)
    ensures Read(re) == Some(TranslateAll(Atoms(glob)))
  {
    var body := Print(Atoms(glob)) + "$";
    assert re == "^" + body;
    assert re[1..] == body;
    ReadOfPrint(Atoms(glob));
  }

  /** The matcher is sound on every key and exact on every key without a newline. */
  lemma TranslationMeaning(glob: string, re: string, s: string)
    requires Translated(glob, re)
    ensures MatcherAccepts(re, s) ==> GlobMatches(glob, s)
    ensures NEWLINE !in s ==> (MatcherAccepts(re, s) <==> GlobMatches(glob, s))
  {
    TranslatedReads(glob, re);
    SameLanguage(Atoms(glob), s);
  }

  /** On all keys the matcher is exact if and only if the pattern has no wildcard: any wildcard misses some key with a
    * newline in it. */
  lemma ExactOnEveryKey(glob: string, re: string)
    requires Translated(glob, re)
    ensures (forall s :: MatcherAccepts(re, s) <==> GlobMatches(glob, s)) <==> NoWildcard(Atoms(glob))
  {
    TranslatedReads(glob, re);
    var atoms := Atoms(glob);
    if NoWildcard(atoms) {
      forall s ensures MatcherAccepts(re, s) <==> GlobMatches(glob, s) {
        SameLanguage(atoms, s);
      }
    } else {
      var s := NewlineKey(atoms);
      NewlineKeyMatches(atoms);
      if MatcherAccepts(re, s) {
        NewlinesAreLiteral(atoms, s);
      }
      assert GlobMatches(glob, s);
    }
  }

  /** DeletePattern on the local level with the star alone leaves a key that holds a newline. */
  lemma StarMissesNewline()
    ensures GlobMatches("*", "\n") && !MatcherAccepts("^.*$", "\n")
  {
    assert Atoms("*") == [AnyRun];
    assert Print([AnyRun]) == ".*";
    TranslatedReads("*", "^.*$");
    if MatcherAccepts("^.*$", "\n") {
      NewlinesAreLiteral([AnyRun], "\n");
    }
    assert Matches([AnyRun], "");
    assert Matches([AnyRun], "\n");
  }
}
