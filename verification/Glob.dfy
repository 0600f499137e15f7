/** Glob patterns: their own meaning, and their translation to a regular expression in
  * persist/internal/pattern/pattern.go, for patterns without a character class. */
module Glob {
  import opened Wrappers

  const NEWLINE: char := '\n'

  // ---------------------------------------------------------------- what a glob means

  datatype Atom = Lit(c: char) | AnyOne | AnyRun

  function Atoms(glob: string): seq<Atom> {
    if glob == "" then []
    else if glob[0] == '\\' then
      if |glob| == 1 then [Lit('\\')] else [Lit(glob[1])] + Atoms(glob[2..])
    else [if glob[0] == '*' then AnyRun else if glob[0] == '?' then AnyOne else Lit(glob[0])] + Atoms(glob[1..])
  }

  predicate Matches(atoms: seq<Atom>, s: string)
    decreases |atoms| + |s|
  {
    if atoms == [] then s == ""
    else match atoms[0]
         case Lit(c) => s != "" && s[0] == c && Matches(atoms[1..], s[1..])
         case AnyOne => s != "" && Matches(atoms[1..], s[1..])
         case AnyRun => Matches(atoms[1..], s) || (s != "" && Matches(atoms, s[1..]))
  }

  predicate GlobMatches(glob: string, s: string) {
    Matches(Atoms(glob), s)
  }

  /** Whether the class opened just before s is closed: the scan of translateCharClass. */
  predicate Closes(s: string) {
    var negated := if s != "" && (s[0] == '!' || s[0] == '^') then s[1..] else s;
    ClosesFrom(if negated != "" && negated[0] == ']' then negated[1..] else negated)
  }

  predicate ClosesFrom(s: string) {
    if s == "" then false
    else if s[0] == '\\' then |s| > 1 && ClosesFrom(s[2..])
    else s[0] == ']' || ClosesFrom(s[1..])
  }

  /** No bracket of the pattern opens a class. */
  predicate ClassFree(glob: string) {
    if glob == "" then true
    else if glob[0] == '\\' then |glob| == 1 || ClassFree(glob[2..])
    else (glob[0] == '[' ==> !Closes(glob[1..])) && ClassFree(glob[1..])
  }

  // ---------------------------------------------------------------- the translation

  predicate IsMeta(c: char) {
    c in "\\.+*?()|[]{}^$"
  }

  /** regexp.QuoteMeta of one character. */
  function Quote(c: char): string {
    if IsMeta(c) then ['\\', c] else [c]
  }

  function PrintAtom(a: Atom): string {
    match a
    case Lit(c) => Quote(c)
    case AnyOne => "."
    case AnyRun => ".*"
  }

  function Print(atoms: seq<Atom>): string {
    if atoms == [] then "" else PrintAtom(atoms[0]) + Print(atoms[1..])
  }

  lemma PrintStep(a: Atom, rest: seq<Atom>)
    ensures Print([a] + rest) == PrintAtom(a) + Print(rest)
  {
    assert ([a] + rest)[1..] == rest;
  }

  /** Where the members of the class that opens at start begin. */
  function ClassStart(glob: string, start: nat): (i: nat)
    requires start + 1 < |glob|
    ensures start < i <= |glob|
  {
    var i := if glob[start + 1] == '!' || glob[start + 1] == '^' then start + 2 else start + 1;
    if i < |glob| && glob[i] == ']' then i + 1 else i
  }

  lemma ClosesStart(glob: string, start: nat)
    requires start + 1 < |glob|
    ensures Closes(glob[start + 1..]) == ClosesFrom(glob[ClassStart(glob, start)..])
  {
    var s := glob[start + 1..];
    assert s[0] == glob[start + 1] && s[1..] == glob[start + 2..];
    var negated := if s[0] == '!' || s[0] == '^' then s[1..] else s;
    var i := if s[0] == '!' || s[0] == '^' then start + 2 else start + 1;
    assert negated == glob[i..];
    if negated != "" {
      assert negated[0] == glob[i] && negated[1..] == glob[i + 1..];
    }
  }

  /** How the emitted class begins: negation is written with a circumflex, a bracket that comes first is a member. */
  function Opening(glob: string, start: nat): string
    requires start + 1 < |glob|
  {
    var negated := glob[start + 1] == '!' || glob[start + 1] == '^';
    var i := if negated then start + 2 else start + 1;
    var bracket := if negated then "[" + "^" else "[";
    if i < |glob| && glob[i] == ']' then bracket + "\\]" else bracket
  }

  datatype ClassTail = Open | Closed(end: nat, text: string)

  function Prepend(text: string, tail: ClassTail): ClassTail {
    if tail.Open? then Open else Closed(tail.end, text + tail.text)
  }

  /** The members from i on as they are emitted, and where they end: escaped characters are quoted anew, all others are
    * kept as they are. */
  function TailFrom(glob: string, i: nat): (tail: ClassTail)
    ensures tail.Closed? ==> i <= tail.end < |glob| && glob[tail.end] == ']'
    decreases |glob| - i
  {
    if i >= |glob| then Open
    else if glob[i] == '\\' then
      if i + 1 >= |glob| then Open else Prepend(Quote(glob[i + 1]), TailFrom(glob, i + 2))
    else if glob[i] == ']' then Closed(i, "]")
    else Prepend([glob[i]], TailFrom(glob, i + 1))
  }

  lemma {:induction false} TailCloses(glob: string, i: nat)
    requires i <= |glob|
    ensures TailFrom(glob, i).Closed? <==> ClosesAt(glob, i)
    decreases |glob| - i
  {
    if i < |glob| {
      ClosesStep(glob, i);
      if glob[i] == '\\' && i + 1 < |glob| {
        TailCloses(glob, i + 2);
      } else if glob[i] != ']' {
        TailCloses(glob, i + 1);
      }
    }
  }

  /** One round of the loop, from i on, with what has been emitted so far. */
  lemma TailStep(glob: string, i: nat, done: string)
    requires i < |glob| && glob[i] != ']' && (glob[i] == '\\' ==> i + 1 < |glob|)
    ensures Prepend(done, TailFrom(glob, i)) ==
            if glob[i] == '\\' then Prepend(done + Quote(glob[i + 1]), TailFrom(glob, i + 2))
            else Prepend(done + [glob[i]], TailFrom(glob, i + 1))
  {
    var text := if glob[i] == '\\' then Quote(glob[i + 1]) else [glob[i]];
    var tail := TailFrom(glob, if glob[i] == '\\' then i + 2 else i + 1);
    assert tail.Closed? ==> done + (text + tail.text) == (done + text) + tail.text;
  }

  /** The closing bracket of the class that opens at start, and the class as it is emitted; start itself when the class
    * is not closed. */
  method TranslateCharClass(glob: string, start: nat) returns (end: nat, class_: string)
    requires start < |glob| && glob[start] == '['
    ensures start <= end < |glob|
    ensures end == start <==> !Closes(glob[start + 1..])
    ensures end > start ==> start + 1 < |glob|
                            && Closed(end, class_) ==
                                Prepend(Opening(glob, start), TailFrom(glob, ClassStart(glob, start)))
  {
    var i := start + 1;
    if i >= |glob| {
      return start, "";
    }
    i, class_ := OpenClass(glob, start);
    ClosesStart(glob, start);
    TailCloses(glob, i);
    var tail := EmitMembers(glob, i, class_);
    if tail.Open? {
      return start, "";
    }
    return tail.end, tail.text;
  }

  method OpenClass(glob: string, start: nat) returns (i: nat, class_: string)
    requires start + 1 < |glob|
    ensures i == ClassStart(glob, start) && class_ == Opening(glob, start)
  {
    i, class_ := start + 1, "[";
    if glob[i] == '!' || glob[i] == '^' {
      class_ := class_ + "^";
      i := i + 1;
    }
    if i < |glob| && glob[i] == ']' {
      class_ := class_ + "\\]";
      i := i + 1;
    }
  }

  /** The loop over the members. */
  method EmitMembers(glob: string, from: nat, opening: string) returns (tail: ClassTail)
    requires from <= |glob|
    ensures tail == Prepend(opening, TailFrom(glob, from))
  {
    var i, class_ := from, opening;
    while i < |glob|
      invariant from <= i <= |glob|
      invariant Prepend(opening, TailFrom(glob, from)) == Prepend(class_, TailFrom(glob, i))
    {
      if glob[i] == '\\' {
        if i + 1 >= |glob| {
          class_ := class_ + "\\\\";
          i := i + 1;
          continue;
        }
        TailStep(glob, i, class_);
        i := i + 1;
        class_ := class_ + Quote(glob[i]);
      } else if glob[i] == ']' {
        return Closed(i, class_ + "]");
      } else {
        TailStep(glob, i, class_);
        class_ := class_ + [glob[i]];
      }
      i := i + 1;
    }
    return Open;
  }

  predicate ClosesAt(glob: string, i: nat)
    requires i <= |glob|
  {
    ClosesFrom(glob[i..])
  }

  lemma ClosesStep(glob: string, i: nat)
    requires i < |glob|
    ensures ClosesAt(glob, i) ==
            if glob[i] == '\\' then i + 1 < |glob| && ClosesAt(glob, i + 2)
            else glob[i] == ']' || ClosesAt(glob, i + 1)
    ensures !ClosesAt(glob, |glob|)
  {
    var s := glob[i..];
    assert s[0] == glob[i] && s[1..] == glob[i + 1..];
    if |s| > 1 {
      assert s[2..] == glob[i + 2..];
    }
  }

  /** What the loop appends at position i, and how far it then moves, when no class opens there. */
  function Piece(glob: string, i: nat): string
    requires i < |glob|
  {
    if glob[i] == '\\' then (if i + 1 == |glob| then "\\\\" else Quote(glob[i + 1]))
    else if glob[i] == '*' then ".*"
    else if glob[i] == '?' then "."
    else Quote(glob[i])
  }

  function After(glob: string, i: nat): (j: nat)
    requires i < |glob|
    ensures i < j <= |glob|
  {
    if glob[i] == '\\' && i + 1 < |glob| then i + 2 else i + 1
  }

  lemma AtomsStep(glob: string, i: nat)
    requires i < |glob| && ClassFree(glob[i..])
    ensures glob[i] == '[' ==> !Closes(glob[i + 1..])
    ensures ClassFree(glob[After(glob, i)..])
    ensures Print(Atoms(glob[i..])) == Piece(glob, i) + Print(Atoms(glob[After(glob, i)..]))
  {
    var g := glob[i..];
    assert g[0] == glob[i] && g[1..] == glob[i + 1..];
    if g[0] != '\\' {
      PrintStep(if g[0] == '*' then AnyRun else if g[0] == '?' then AnyOne else Lit(g[0]), Atoms(g[1..]));
    } else if |g| > 1 {
      assert g[1] == glob[i + 1] && g[2..] == glob[i + 2..];
      PrintStep(Lit(g[1]), Atoms(g[2..]));
    } else {
      PrintStep(Lit('\\'), []);
      assert glob[i + 1..] == "";
    }
  }

  /** The pattern printed so far, of what is to be printed in all. */
  ghost predicate Printed(glob: string, b: string, i: nat) {
    i <= |glob| && ClassFree(glob[i..]) && "^" + Print(Atoms(glob)) == b + Print(Atoms(glob[i..]))
  }

  lemma PrintedStep(glob: string, b: string, i: nat)
    requires i < |glob| && Printed(glob, b, i)
    ensures glob[i] == '[' ==> !Closes(glob[i + 1..])
    ensures Printed(glob, b + Piece(glob, i), After(glob, i))
  {
    AtomsStep(glob, i);
    var rest := Print(Atoms(glob[After(glob, i)..]));
    assert b + (Piece(glob, i) + rest) == (b + Piece(glob, i)) + rest;
  }

  lemma PrintedEnds(glob: string, b: string)
    requires Printed(glob, b, |glob|)
    ensures b == "^" + Print(Atoms(glob))
  {
    assert glob[|glob|..] == "";
  }

  method GlobToRegexp(glob: string) returns (re: string)
    ensures ClassFree(glob) ==> re == "^" + Print(Atoms(glob)) + "$"
  {
    var b := "^";
    var i := 0;
    ghost var free := ClassFree(glob);
    assert glob[0..] == glob;
    while i < |glob|
      invariant i <= |glob|
      invariant free ==> Printed(glob, b, i)
    {
      if free {
        PrintedStep(glob, b, i);
      }
      ghost var before, at := b, i;
      if glob[i] == '\\' {
        if i + 1 >= |glob| {
          b := b + "\\\\";
        } else {
          i := i + 1;
          b := b + Quote(glob[i]);
        }
      } else if glob[i] == '*' {
        b := b + ".*";
      } else if glob[i] == '?' {
        b := b + ".";
      } else if glob[i] == '[' {
        var end, class_ := TranslateCharClass(glob, i);
        if end == i {
          b := b + "\\[";
        } else {
          b := b + class_;
          i := end;
        }
      } else {
        b := b + Quote(glob[i]);
      }
      i := i + 1;
      assert free ==> b == before + Piece(glob, at) && i == After(glob, at);
    }
    if free {
      PrintedEnds(glob, b);
    }
    return b + "$";
  }
}
