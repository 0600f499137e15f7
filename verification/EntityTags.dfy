/** The If-None-Match list (sections 8.8.3 and 13.1.2 of RFC 9110): nextEntityTag and etagMatches of cache.go. */
module EntityTags {
  import opened Text

  predicate IsSeparator(c: char) {
    c == ' ' || c == '\t' || c == ','
  }

  // ---------------------------------------------------------------- the code

  /** Position of the first comma outside quotes, or the length of l; q says whether l starts inside quotes. */
  function ElementEnd(l: string, q: bool): (i: nat)
    ensures i <= |l| && (i < |l| ==> l[i] == ',')
  {
    if l == "" then 0
    else if l[0] == '"' then 1 + ElementEnd(l[1..], !q)
    else if l[0] == ',' && !q then 0
    else 1 + ElementEnd(l[1..], q)
  }

  /** The first element of a list that does not start with a separator, and what follows its comma. */
  function Element(l: string): string {
    TrimSpace(l[..ElementEnd(l, false)])
  }

  function Rest(l: string): string {
    if ElementEnd(l, false) < |l| then l[ElementEnd(l, false) + 1..] else ""
  }

  lemma ElementEndStep(l: string, i: nat, q: bool)
    requires i < |l|
    requires ElementEnd(l, false) == i + ElementEnd(l[i..], q)
    ensures l[i] == ',' && !q ==> ElementEnd(l, false) == i
    ensures l[i] != ',' || q ==>
              ElementEnd(l, false) == i + 1 + ElementEnd(l[i + 1..], if l[i] == '"' then !q else q)
  {
    assert l[i..][1..] == l[i + 1..];
  }

  /** What one call returns. */
  ghost predicate Next(list: string, tag: string, rest: string) {
    var l := TrimLeft(list, IsSeparator);
    tag == (if l == "" then "" else Element(l)) && rest == (if l == "" then "" else Rest(l))
  }

  lemma RestIsShorter(list: string, tag: string, rest: string)
    requires Next(list, tag, rest) && list != ""
    ensures |rest| < |list|
  {
  }

  lemma AtComma(l: string, i: nat)
    requires i < |l| && ElementEnd(l, false) == i
    ensures Element(l) == TrimSpace(l[..i]) && Rest(l) == l[i + 1..]
  {
  }

  lemma AtEnd(l: string)
    requires ElementEnd(l, false) == |l|
    ensures Element(l) == TrimSpace(l) && Rest(l) == ""
  {
    assert l[..|l|] == l;
  }

  method NextEntityTag(list: string) returns (tag: string, rest: string)
    ensures Next(list, tag, rest)
  {
    var l := TrimLeft(list, IsSeparator);
    if l == "" {
      return "", "";
    }
    var inQuotes := false;
    var i := 0;
    assert l[0..] == l;
    while i < |l|
      invariant i <= |l|
      invariant ElementEnd(l, false) == i + ElementEnd(l[i..], inQuotes)
    {
      ElementEndStep(l, i, inQuotes);
      if l[i] == '"' {
        inQuotes := !inQuotes;
      } else if l[i] == ',' && !inQuotes {
        AtComma(l, i);
        return TrimSpace(l[..i]), l[i + 1..];
      }
      i := i + 1;
    }
    assert l[i..] == "";
    AtEnd(l);
    return TrimSpace(l), "";
  }

  /** The elements that repeated calls cut off, without the empty ones. */
  function Tags(list: string): seq<string>
    decreases |list|, 1
  {
    TagsFrom(TrimLeft(list, IsSeparator))
  }

  function TagsFrom(l: string): seq<string>
    decreases |l|, 0
  {
    if l == "" then [] else (if Element(l) == "" then [] else [Element(l)]) + Tags(Rest(l))
  }

  ghost predicate Hits(candidate: string, etag: string) {
    candidate == "*" || (etag != "" && TrimPrefix(candidate, "W/") == TrimPrefix(etag, "W/"))
  }

  ghost predicate HitsOneOf(tags: seq<string>, etag: string) {
    exists i :: 0 <= i < |tags| && Hits(tags[i], etag)
  }

  lemma HitsSplit(candidate: string, tags: seq<string>, etag: string)
    ensures HitsOneOf([candidate] + tags, etag) <==> Hits(candidate, etag) || HitsOneOf(tags, etag)
  {
    var all := [candidate] + tags;
    assert all[0] == candidate;
    if i :| 0 <= i < |tags| && Hits(tags[i], etag) {
      assert all[i + 1] == tags[i];
    }
  }

  lemma HitsHere(list: string, tag: string, rest: string, etag: string)
    requires Next(list, tag, rest)
    ensures HitsOneOf(Tags(list), etag) <==> (tag != "" && Hits(tag, etag)) || HitsOneOf(Tags(rest), etag)
  {
    var l := TrimLeft(list, IsSeparator);
    if l == "" {
      assert TrimLeft("", IsSeparator) == "";
    } else if tag == "" {
      assert Tags(list) == Tags(rest);
    } else {
      assert Tags(list) == [tag] + Tags(rest);
      HitsSplit(tag, Tags(rest), etag);
    }
  }

  lemma NoHitsLeft(etag: string)
    ensures !HitsOneOf(Tags(""), etag)
  {
  }

  ghost predicate LineHits(line: string, etag: string) {
    HitsOneOf(Tags(line), etag)
  }

  method LineMatches(line: string, etag: string, want: string) returns (found: bool)
    requires want == TrimPrefix(etag, "W/")
    ensures found <==> LineHits(line, etag)
  {
    var rest := line;
    while rest != ""
      invariant HitsOneOf(Tags(line), etag) <==> HitsOneOf(Tags(rest), etag)
      decreases |rest|
    {
      ghost var before := rest;
      var candidate: string;
      candidate, rest := NextEntityTag(rest);
      RestIsShorter(before, candidate, rest);
      HitsHere(before, candidate, rest, etag);
      if candidate == "" {
        continue;
      } else if candidate == "*" || (etag != "" && TrimPrefix(candidate, "W/") == want) {
        return true;
      }
    }
    NoHitsLeft(etag);
    return false;
  }

  method EtagMatches(ifNoneMatch: seq<string>, etag: string) returns (found: bool)
    ensures found <==> exists k :: 0 <= k < |ifNoneMatch| && LineHits(ifNoneMatch[k], etag)
  {
    var want := TrimPrefix(etag, "W/");
    for k := 0 to |ifNoneMatch|
      invariant forall j :: 0 <= j < k ==> !LineHits(ifNoneMatch[j], etag)
    {
      var hit := LineMatches(ifNoneMatch[k], etag, want);
      if hit {
        return true;
      }
    }
    return false;
  }

  // ---------------------------------------------------------------- lists as they are written

  /** An element of a list: an entity-tag, the star, or nothing (section 5.6.1 allows empty elements). */
  datatype Tag = Star | Empty | EntityTag(weak: bool, content: string)

  datatype Item = Item(before: string, tag: Tag, after: string)

  /** The opaque part may hold anything but a quote, commas included. */
  ghost predicate WellFormed(item: Item) {
    Blanks(item.before) && Blanks(item.after) && (item.tag.EntityTag? ==> '"' !in item.tag.content)
  }

  function PrintTag(t: Tag): string {
    match t
    case Star => "*"
    case Empty => ""
    case EntityTag(weak, content) => (if weak then "W/" else "") + Quoted(content)
  }

  function Quoted(content: string): string {
    "\"" + (content + "\"")
  }

  function Print(items: seq<Item>): string {
    if items == [] then ""
    else
      var tail := if |items| == 1 then "" else "," + Print(items[1..]);
      items[0].before + (PrintTag(items[0].tag) + (items[0].after + tail))
  }

  function Printed(items: seq<Item>): seq<string> {
    if items == [] then []
    else (if items[0].tag.Empty? then [] else [PrintTag(items[0].tag)]) + Printed(items[1..])
  }

  lemma {:induction false} SkipSeparators(seps: string, x: string)
    requires forall i :: 0 <= i < |seps| ==> IsSeparator(seps[i])
    ensures TrimLeft(seps + x, IsSeparator) == TrimLeft(x, IsSeparator)
    ensures Tags(seps + x) == Tags(x)
  {
    if seps == "" {
      assert seps + x == x;
    } else {
      assert (seps + x)[1..] == seps[1..] + x;
      SkipSeparators(seps[1..], x);
      assert TrimLeft(seps + x, IsSeparator) == TrimLeft(seps[1..] + x, IsSeparator);
    }
  }

  lemma {:induction false} PlainText(a: string, x: string, q: bool)
    requires '"' !in a && (q || ',' !in a)
    ensures ElementEnd(a + x, q) == |a| + ElementEnd(x, q)
  {
    if a == "" {
      assert a + x == x;
    } else {
      assert (a + x)[1..] == a[1..] + x;
      PlainText(a[1..], x, q);
    }
  }

  /** The commas inside quotes are not separators. */
  lemma QuotedIsOneElement(content: string, x: string)
    requires '"' !in content
    ensures ElementEnd(Quoted(content) + x, false) == |Quoted(content)| + ElementEnd(x, false)
  {
    var y := content + ("\"" + x);
    assert Quoted(content) + x == "\"" + y;
    assert ("\"" + y)[1..] == y && ("\"" + x)[1..] == x;
    PlainText(content, "\"" + x, true);
  }

  lemma TagIsOneElement(t: Tag, x: string)
    requires t.EntityTag? ==> '"' !in t.content
    ensures ElementEnd(PrintTag(t) + x, false) == |PrintTag(t)| + ElementEnd(x, false)
  {
    if t.EntityTag? {
      QuotedIsOneElement(t.content, x);
      var w, y := if t.weak then "W/" else "", Quoted(t.content);
      assert (w + y) + x == w + (y + x);
      PlainText(w, y + x, false);
    } else {
      PlainText(PrintTag(t), x, false);
    }
  }

  lemma PrintedTag(t: Tag)
    requires !t.Empty?
    ensures var p := PrintTag(t); p != "" && !IsSeparator(p[0]) && !IsSpace(p[0]) && !IsSpace(p[|p| - 1])
  {
  }

  lemma TrimmedElement(t: string, after: string)
    requires t != "" && !IsSpace(t[0]) && !IsSpace(t[|t| - 1]) && Blanks(after)
    ensures TrimSpace(t + after) == t
  {
    TrimPadded("", t, after);
    assert "" + (t + after) == t + after;
  }

  /** An element followed by blanks and then a comma or the end. */
  lemma ElementAndBlanks(t: string, after: string, tail: string)
    requires t != "" && !IsSpace(t[0]) && !IsSpace(t[|t| - 1]) && Blanks(after)
    requires ElementEnd(t + (after + tail), false) == |t| + ElementEnd(after + tail, false)
    requires tail == "" || tail[0] == ','
    ensures Element(t + (after + tail)) == t
    ensures Rest(t + (after + tail)) == if tail == "" then "" else tail[1..]
  {
    PlainText(after, tail, false);
    EndsHere(tail);
    TrimmedElement(t, after);
    Regroup(t, after, tail);
    CutAt(t + after, tail);
  }

  lemma EndsHere(tail: string)
    requires tail == "" || tail[0] == ','
    ensures ElementEnd(tail, false) == 0
  {
  }

  lemma Regroup(a: string, b: string, c: string)
    ensures a + (b + c) == (a + b) + c
  {
  }

  lemma CutAt(head: string, tail: string)
    requires ElementEnd(head + tail, false) == |head| && (tail == "" || tail[0] == ',')
    ensures Element(head + tail) == TrimSpace(head)
    ensures Rest(head + tail) == if tail == "" then "" else tail[1..]
  {
    var l := head + tail;
    assert l[..|head|] == head;
    if tail != "" {
      assert l[|head| + 1..] == tail[1..];
    }
  }

  lemma TagsOfFirst(t: string, l: string, rest: string)
    requires l != "" && !IsSeparator(l[0]) && t != "" && Element(l) == t && Rest(l) == rest
    ensures Tags(l) == [t] + Tags(rest)
  {
    assert l[0..] == l;
    assert TrimLeft(l, IsSeparator) == l;
  }

  lemma FirstItem(item: Item, tail: string)
    requires WellFormed(item) && !item.tag.Empty? && (tail == "" || tail[0] == ',')
    ensures Tags(item.before + (PrintTag(item.tag) + (item.after + tail))) ==
            [PrintTag(item.tag)] + Tags(if tail == "" then "" else tail[1..])
  {
    var t := PrintTag(item.tag);
    PrintedTag(item.tag);
    TagIsOneElement(item.tag, item.after + tail);
    ElementAndBlanks(t, item.after, tail);
    TagsOfFirst(t, t + (item.after + tail), if tail == "" then "" else tail[1..]);
    SkipSeparators(item.before, t + (item.after + tail));
  }

  lemma EmptyItem(before: string, after: string, comma: string, x: string)
    requires Blanks(before) && Blanks(after) && (comma == "" || comma == ",")
    ensures Tags(before + (PrintTag(Empty) + (after + (comma + x)))) == Tags(x)
  {
    var seps := before + after + comma;
    assert before + (PrintTag(Empty) + (after + (comma + x))) == seps + x;
    forall i | 0 <= i < |seps| ensures IsSeparator(seps[i]) {
      assert i < |before| ==> IsBlank(before[i]);
      assert |before| <= i < |before + after| ==> IsBlank(after[i - |before|]);
    }
    SkipSeparators(seps, x);
  }

  /** Reading a list as it is written gives back exactly its tags, in order. */
  lemma {:induction false} ReadsWhatIsWritten(items: seq<Item>)
    requires forall i :: 0 <= i < |items| ==> WellFormed(items[i])
    ensures Tags(Print(items)) == Printed(items)
  {
    if items == [] {
      assert TrimLeft("", IsSeparator) == "";
    } else {
      var more := Print(items[1..]);
      var tail := if |items| == 1 then "" else "," + more;
      assert tail != "" ==> tail[1..] == more;
      assert |items| == 1 ==> more == "";
      ReadsWhatIsWritten(items[1..]);
      if items[0].tag.Empty? {
        var comma := if |items| == 1 then "" else ",";
        assert tail == comma + more;
        EmptyItem(items[0].before, items[0].after, comma, more);
      } else {
        FirstItem(items[0], tail);
      }
    }
  }

  lemma {:induction false} PrintedMeaning(items: seq<Item>, t: string)
    ensures t in Printed(items) <==>
            exists i :: 0 <= i < |items| && !items[i].tag.Empty? && t == PrintTag(items[i].tag)
  {
    if items != [] {
      PrintedMeaning(items[1..], t);
      if i :| 0 <= i < |items| && !items[i].tag.Empty? && t == PrintTag(items[i].tag) {
        assert i > 0 ==> items[1..][i - 1] == items[i];
      }
      if i :| 0 <= i < |items[1..]| && !items[1..][i].tag.Empty? && t == PrintTag(items[1..][i].tag) {
        assert items[i + 1] == items[1..][i];
      }
    }
  }

  /** The weak comparison of section 8.8.3.2: opaque parts are compared, weakness is not. */
  lemma WeakComparison(t: Tag, stored: Tag)
    requires t.EntityTag? && stored.EntityTag? && '"' !in t.content && '"' !in stored.content
    ensures Hits(PrintTag(t), PrintTag(stored)) <==> t.content == stored.content
  {
    Stripped(t);
    Stripped(stored);
    QuotedDiffer(t.content, stored.content);
  }

  lemma QuotedDiffer(a: string, b: string)
    ensures Quoted(a) == Quoted(b) <==> a == b
  {
    assert Quoted(a)[1..|a| + 1] == a && Quoted(b)[1..|b| + 1] == b;
  }

  lemma Stripped(t: Tag)
    requires t.EntityTag?
    ensures TrimPrefix(PrintTag(t), "W/") == Quoted(t.content) && PrintTag(t) != "*" && PrintTag(t) != ""
  {
    if t.weak {
      assert PrintTag(t)[2..] == Quoted(t.content);
    } else {
      assert PrintTag(t)[0] == '"';
    }
  }

  /** For well-formed lists and a well-formed stored tag, or none, a line hits exactly when some element is the star
    * or has the stored tag's opaque part. */
  lemma HitsExactly(items: seq<Item>, stored: Tag)
    requires forall i :: 0 <= i < |items| ==> WellFormed(items[i])
    requires !stored.Star? && (stored.EntityTag? ==> '"' !in stored.content)
    ensures HitsOneOf(Tags(Print(items)), PrintTag(stored)) <==>
            exists i :: 0 <= i < |items| && ItemHits(items[i].tag, stored)
  {
    ReadsWhatIsWritten(items);
    var tags := Printed(items);
    if k :| 0 <= k < |tags| && Hits(tags[k], PrintTag(stored)) {
      PrintedMeaning(items, tags[k]);
      var i :| 0 <= i < |items| && !items[i].tag.Empty? && tags[k] == PrintTag(items[i].tag);
      assert WellFormed(items[i]);
      ItemHitsIsHits(items[i].tag, stored);
    }
    if i :| 0 <= i < |items| && ItemHits(items[i].tag, stored) {
      PrintedMeaning(items, PrintTag(items[i].tag));
      assert WellFormed(items[i]);
      ItemHitsIsHits(items[i].tag, stored);
    }
  }

  ghost predicate ItemHits(t: Tag, stored: Tag) {
    t.Star? || (t.EntityTag? && stored.EntityTag? && t.content == stored.content)
  }

  lemma ItemHitsIsHits(t: Tag, stored: Tag)
    requires !t.Empty? && !stored.Star? && (stored.EntityTag? ==> '"' !in stored.content)
    requires t.EntityTag? ==> '"' !in t.content
    ensures ItemHits(t, stored) <==> Hits(PrintTag(t), PrintTag(stored))
  {
    if t.EntityTag? {
      Stripped(t);
      if stored.EntityTag? {
        Stripped(stored);
        WeakComparison(t, stored);
      }
    }
  }
}
