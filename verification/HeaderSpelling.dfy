/** What the cleanup does to header fields as they are spelled: the case of letters does not matter, lists are
  * separated by commas with blanks around their members. */
module HeaderSpelling {
  import opened Text
  import opened HeaderMaps
  import opened Headers
  import opened HeaderCleanup

  // ---------------------------------------------------------------- canonical keys

  predicate IsLower(c: char) {
    'a' <= c <= 'z'
  }

  predicate IsUpper(c: char) {
    'A' <= c <= 'Z'
  }

  /** At i a letter is a capital exactly if it begins the key or follows a dash. */
  ghost predicate WellCasedAt(key: string, upper: bool, i: nat)
    requires i < |key|
  {
    if (if i == 0 then upper else key[i - 1] == '-') then !IsLower(key[i]) else !IsUpper(key[i])
  }

  ghost predicate WellCased(key: string, upper: bool) {
    forall i :: 0 <= i < |key| ==> WellCasedAt(key, upper, i)
  }

  lemma {:induction false} RecasedMeaning(key: string, upper: bool)
    ensures SameLetters(Recased(key, upper), key) && WellCased(Recased(key, upper), upper)
  {
    if key != "" {
      var r, rest := Recased(key, upper), Recased(key[1..], key[0] == '-');
      RecasedMeaning(key[1..], key[0] == '-');
      assert r[1..] == rest;
      forall i | 0 <= i < |key| ensures SameLetter(r[i], key[i]) && WellCasedAt(r, upper, i) {
        if i > 0 {
          assert r[i] == rest[i - 1] && SameLetter(rest[i - 1], key[1..][i - 1]);
          assert WellCasedAt(rest, key[0] == '-', i - 1);
        }
      }
    }
  }

  lemma CasingDetermines(a: string, b: string, upper: bool)
    requires SameLetters(a, b) && WellCased(a, upper) && WellCased(b, upper)
    ensures a == b
  {
    forall i | 0 <= i < |a| ensures a[..i] == b[..i] ==> a[i] == b[i] {
      assert SameLetter(a[i], b[i]) && WellCasedAt(a, upper, i) && WellCasedAt(b, upper, i);
      if i > 0 && a[..i] == b[..i] {
        assert a[i - 1] == a[..i][i - 1] && b[i - 1] == b[..i][i - 1];
      }
    }
    SamePrefixes(a, b, |a|);
  }

  lemma {:induction false} SamePrefixes(a: string, b: string, n: nat)
    requires n <= |a| == |b| && forall i :: 0 <= i < |a| && a[..i] == b[..i] ==> a[i] == b[i]
    ensures a[..n] == b[..n]
    ensures n == |a| ==> a == b
  {
    if n > 0 {
      SamePrefixes(a, b, n - 1);
      assert a[..n] == a[..n - 1] + [a[n - 1]] && b[..n] == b[..n - 1] + [b[n - 1]];
    }
    assert n == |a| ==> a[..n] == a && b[..n] == b;
  }

  lemma TokenSpelling(a: string, b: string)
    requires SameLetters(a, b)
    ensures IsToken(a) <==> IsToken(b)
  {
    forall i | 0 <= i < |a| ensures IsTokenChar(a[i]) <==> IsTokenChar(b[i]) {
      assert SameLetter(a[i], b[i]);
    }
  }

  /** The canonical key is the token in its one proper spelling; what is no token is left alone. */
  lemma CanonicalMeaning(key: string)
    ensures IsToken(key) ==> SameLetters(Canonical(key), key) && WellCased(Canonical(key), true)
    ensures !IsToken(key) ==> Canonical(key) == key
  {
    RecasedMeaning(key, true);
  }

  /** A token is canonical exactly if it is properly spelled. */
  lemma CanonicalExactly(key: string)
    requires IsToken(key)
    ensures IsCanonical(key) <==> WellCased(key, true)
  {
    CanonicalMeaning(key);
    if WellCased(key, true) {
      CasingDetermines(Canonical(key), key, true);
    }
  }

  /** Two keys are taken for one field exactly if they are equal, or tokens with the same letters. */
  lemma SameFieldExactly(a: string, b: string)
    ensures Canonical(a) == Canonical(b) <==> a == b || (IsToken(a) && SameLetters(a, b))
  {
    CanonicalMeaning(a);
    CanonicalMeaning(b);
    if Canonical(a) == Canonical(b) && a != b {
      SameCanonical(a, b);
    }
    if IsToken(a) && SameLetters(a, b) {
      TokenSpelling(a, b);
      SameLettersChain(Canonical(a), a, b);
      SameLettersChain(Canonical(a), b, Canonical(b));
      CasingDetermines(Canonical(a), Canonical(b), true);
    }
  }

  lemma SameCanonical(a: string, b: string)
    requires Canonical(a) == Canonical(b) && a != b
    ensures IsToken(a) && SameLetters(a, b)
  {
    CanonicalMeaning(a);
    CanonicalMeaning(b);
    RecasedTwice(a, true);
    RecasedTwice(b, true);
    SameLettersChain(a, Canonical(a), b);
  }

  lemma SameLettersChain(a: string, b: string, c: string)
    requires (SameLetters(a, b) || SameLetters(b, a)) && (SameLetters(b, c) || SameLetters(c, b))
    ensures SameLetters(a, c)
  {
    forall i | 0 <= i < |a| ensures SameLetter(a[i], c[i]) {
      assert SameLetter(a[i], b[i]) || SameLetter(b[i], a[i]);
      assert SameLetter(b[i], c[i]) || SameLetter(c[i], b[i]);
    }
  }

  // ---------------------------------------------------------------- the fields that never pass

  /** The fields of section 7.6.1 of RFC 9110, and those of its section 11.7 that concern the next hop alone. */
  const FIXED: seq<string> := [
    "connection", "proxy-connection", "keep-alive", "te", "trailer", "transfer-encoding", "upgrade",
    "proxy-authenticate", "proxy-authentication-info", "proxy-authorization"]

  ghost predicate SpellsAt(proper: string, word: string, i: nat)
    requires i < |proper| == |word|
  {
    && (IsLower(proper[i]) || IsUpper(proper[i]) || proper[i] == '-')
    && SameLetter(proper[i], word[i]) && WellCasedAt(proper, true, i)
  }

  /** proper is the word, made of letters and dashes, in its proper spelling. */
  ghost predicate Spells(proper: string, word: string) {
    |proper| == |word| && forall i :: 0 <= i < |proper| ==> SpellsAt(proper, word, i)
  }

  lemma SpellsMeaning(proper: string, word: string)
    requires Spells(proper, word)
    ensures SameLetters(proper, word) && WellCased(proper, true) && IsToken(proper)
  {
    forall i | 0 <= i < |proper|
      ensures SameLetter(proper[i], word[i]) && WellCasedAt(proper, true, i) && IsTokenChar(proper[i])
    {
      assert SpellsAt(proper, word, i);
    }
  }

  /** The canonical key of a word in any spelling. */
  lemma ProperSpelling(key: string, proper: string, word: string)
    requires Spells(proper, word)
    ensures SameLetters(key, word) <==> Canonical(key) == proper
  {
    SpellsMeaning(proper, word);
    CanonicalExactly(proper);
    SameFieldExactly(key, proper);
    if SameLetters(key, word) {
      SameLettersChain(key, word, proper);
      TokenSpelling(key, proper);
    }
    if Canonical(key) == proper {
      assert SameLetters(proper, proper);
      SameLettersChain(key, proper, word);
    }
  }

  lemma ShortSpelled()
    ensures Spells("Connection", "connection") && Spells("Te", "te") && Spells("Trailer", "trailer")
    ensures Spells("Upgrade", "upgrade")
  {
  }

  lemma KeepAliveSpelled()
    ensures Spells("Keep-Alive", "keep-alive") && Spells("X-Cache", "x-cache")
  {
  }

  lemma EncodingSpelled()
    ensures Spells("Transfer-Encoding", "transfer-encoding")
  {
  }

  lemma ProxySpelled()
    ensures Spells("Proxy-Connection", "proxy-connection")
  {
  }

  lemma AuthenticateSpelled()
    ensures Spells("Proxy-Authenticate", "proxy-authenticate")
  {
  }

  ghost predicate SpellsFrom(proper: string, word: string, lo: nat, hi: nat) {
    hi <= |proper| == |word| && forall i :: lo <= i < hi ==> SpellsAt(proper, word, i)
  }

  lemma InfoBegins()
    ensures SpellsFrom("Proxy-Authentication-Info", "proxy-authentication-info", 0, 9)
  {
  }

  lemma InfoGoesOn()
    ensures SpellsFrom("Proxy-Authentication-Info", "proxy-authentication-info", 9, 17)
  {
  }

  lemma InfoEnds()
    ensures SpellsFrom("Proxy-Authentication-Info", "proxy-authentication-info", 17, 25)
  {
  }

  lemma InParts(proper: string, word: string, a: nat, b: nat)
    requires SpellsFrom(proper, word, 0, a) && SpellsFrom(proper, word, a, b)
    requires SpellsFrom(proper, word, b, |proper|)
    ensures Spells(proper, word)
  {
  }

  lemma InfoSpelled()
    ensures Spells("Proxy-Authentication-Info", "proxy-authentication-info")
  {
    InfoBegins();
    InfoGoesOn();
    InfoEnds();
    InParts("Proxy-Authentication-Info", "proxy-authentication-info", 9, 17);
  }

  lemma AuthorizationSpelled()
    ensures Spells("Proxy-Authorization", "proxy-authorization")
  {
  }

  lemma FixedSpelled(i: nat)
    requires i < |FIXED|
    ensures |FIXED| == |HOP_BY_HOP| && Spells(HOP_BY_HOP[i], FIXED[i])
  {
    match i {
      case 1 => ProxySpelled();
      case 2 => KeepAliveSpelled();
      case 5 => EncodingSpelled();
      case 7 => AuthenticateSpelled();
      case 8 => InfoSpelled();
      case 9 => AuthorizationSpelled();
      case _ => ShortSpelled();
    }
  }

  ghost predicate IsFixed(key: string) {
    exists i :: 0 <= i < |FIXED| && SameLetters(key, FIXED[i])
  }

  /** The list of the code has these fields and no others, in any spelling. */
  lemma FixedExactly(key: string)
    ensures Canonical(key) in HOP_BY_HOP <==> IsFixed(key)
  {
    assert |FIXED| == |HOP_BY_HOP|;
    forall i | 0 <= i < |FIXED| ensures SameLetters(key, FIXED[i]) <==> Canonical(key) == HOP_BY_HOP[i] {
      FixedSpelled(i);
      ProperSpelling(key, HOP_BY_HOP[i], FIXED[i]);
    }
  }

  // ---------------------------------------------------------------- the fields that others name

  /** A member of a list as it is written. */
  datatype Member = Member(before: string, name: string, after: string)

  ghost predicate Written(m: Member) {
    && Spaces(m.before) && Spaces(m.after) && Trimmed(m.name)
    && ',' !in m.before && ',' !in m.name && ',' !in m.after
  }

  ghost predicate AllWritten(list: seq<Member>) {
    list != [] && forall i :: 0 <= i < |list| ==> Written(list[i])
  }

  function PrintMembers(list: seq<Member>): (parts: seq<string>)
    ensures |parts| == |list|
    ensures forall i :: 0 <= i < |list| ==> parts[i] == list[i].before + (list[i].name + list[i].after)
  {
    if list == [] then []
    else [list[0].before + (list[0].name + list[0].after)] + PrintMembers(list[1..])
  }

  function PrintList(list: seq<Member>): string {
    Join(PrintMembers(list), ',')
  }

  /** Some member is the key, up to the case of letters if it is a token; empty members name nothing. */
  ghost predicate ListNames(list: seq<Member>, key: string) {
    exists i :: 0 <= i < |list| && list[i].name != ""
      && (list[i].name == key || (IsToken(key) && SameLetters(list[i].name, key)))
  }

  lemma NoCommas(list: seq<Member>)
    requires AllWritten(list)
    ensures forall i :: 0 <= i < |list| ==> ',' !in PrintMembers(list)[i]
  {
  }

  lemma PartOfMember(m: Member, key: string)
    requires Written(m)
    ensures PartNames(m.before + (m.name + m.after), Canonical(key)) <==>
            m.name != "" && (m.name == key || (IsToken(key) && SameLetters(m.name, key)))
  {
    TrimPadded(m.before, m.name, m.after);
    SameFieldExactly(m.name, key);
    if SameLetters(m.name, key) {
      TokenSpelling(m.name, key);
    }
  }

  /** A list names the field of a key exactly if some member is that key. */
  lemma NamesExactly(list: seq<Member>, key: string)
    requires AllWritten(list)
    ensures Names(PrintList(list), Canonical(key)) <==> ListNames(list, key)
  {
    NoCommas(list);
    var parts := PrintMembers(list);
    SplitOfJoin(parts, ',');
    forall i | 0 <= i < |list|
      ensures PartNames(parts[i], Canonical(key)) <==>
              list[i].name != "" && (list[i].name == key || (IsToken(key) && SameLetters(list[i].name, key)))
    {
      PartOfMember(list[i], key);
    }
  }

  lemma MemberOf(part: string) returns (m: Member)
    requires ',' !in part
    ensures Written(m) && part == m.before + (m.name + m.after)
  {
    var b, a := TrimParts(part);
    m := Member(b, TrimSpace(part), a);
  }

  lemma MembersCons(m: Member, rest: seq<Member>)
    ensures PrintMembers([m] + rest) == [m.before + (m.name + m.after)] + PrintMembers(rest)
  {
    assert ([m] + rest)[1..] == rest;
  }

  lemma {:induction false} MembersOf(parts: seq<string>) returns (list: seq<Member>)
    requires forall i :: 0 <= i < |parts| ==> ',' !in parts[i]
    ensures PrintMembers(list) == parts && forall i :: 0 <= i < |list| ==> Written(list[i])
  {
    if parts == [] {
      list := [];
    } else {
      var m := MemberOf(parts[0]);
      var rest := MembersOf(parts[1..]);
      MembersCons(m, rest);
      list := [m] + rest;
    }
  }

  /** Every value is a list. */
  lemma EveryValue(v: string) returns (list: seq<Member>)
    ensures AllWritten(list) && PrintList(list) == v
  {
    JoinOfSplit(v, ',');
    list := MembersOf(Split(v, ','));
    assert |list| == |Split(v, ',')|;
  }

  // ---------------------------------------------------------------- what is left after the cleanup

  predicate Naming(key: string) {
    SameLetters(key, "connection") || SameLetters(key, "trailer")
  }

  lemma NamingIsCanonical(key: string)
    ensures Naming(key) <==> Canonical(key) == CONNECTION || Canonical(key) == TRAILER
  {
    ShortSpelled();
    ProperSpelling(key, "Connection", "connection");
    ProperSpelling(key, "Trailer", "trailer");
  }

  ghost predicate NamedIn(h: Header, k: string) {
    exists j, list :: j in h && Naming(j) && AllWritten(list) && PrintList(list) in h[j] && ListNames(list, k)
  }

  ghost predicate Spelled(h: Header, k: string) {
    exists j :: j in h && (j == k || (IsToken(k) && SameLetters(j, k)))
  }

  lemma NamedExactly(h: Header, k: string)
    requires IsCanonical(k)
    ensures NamedIn(h, k) <==>
            exists j, v :: j in h && (Canonical(j) == CONNECTION || Canonical(j) == TRAILER) && v in h[j] && Names(v, k)
  {
    if j, list :| j in h && Naming(j) && AllWritten(list) && PrintList(list) in h[j] && ListNames(list, k) {
      NamingIsCanonical(j);
      NamesExactly(list, k);
    }
    if j, v :| j in h && (Canonical(j) == CONNECTION || Canonical(j) == TRAILER) && v in h[j] && Names(v, k) {
      var list := EveryValue(v);
      NamingIsCanonical(j);
      NamesExactly(list, k);
    }
  }

  lemma SpelledExactly(h: Header, k: string)
    requires IsCanonical(k)
    ensures Spelled(h, k) <==> HasField(h, k)
  {
    forall j | j in h ensures Canonical(j) == k <==> j == k || (IsToken(k) && SameLetters(j, k)) {
      SameFieldExactly(j, k);
      if SameLetters(j, k) {
        TokenSpelling(j, k);
      }
    }
  }

  lemma XCacheExactly(k: string)
    requires IsCanonical(k)
    ensures k == X_CACHE <==> SameLetters(k, "x-cache")
  {
    KeepAliveSpelled();
    ProperSpelling(k, "X-Cache", "x-cache");
  }

  /** Exactly which keys are left: those that are properly spelled and stand for a field of the header that concerns
    * no single connection, is not named by a Connection or Trailer field in any of its lists, has not the prefix of
    * runtime trailers and, on the write side, is not the cache's own mark. */
  lemma LeftExactly(h: Header, order: seq<string>, dropXCache: bool, r: Header, k: string)
    requires IterationOrder(h, order) && Cleaned(h, order, dropXCache, r)
    ensures k in r <==>
            && (IsToken(k) ==> WellCased(k, true)) && Spelled(h, k)
            && !IsFixed(k) && !NamedIn(h, k) && !(|k| >= 8 && k[..8] == "Trailer:")
            && !(dropXCache && SameLetters(k, "x-cache"))
  {
    CleanedExactly(h, order, dropXCache, r, k);
    CanonicalMeaning(k);
    if IsToken(k) {
      CanonicalExactly(k);
    }
    if k in r {
      CleanedIsClean(h, order, dropXCache, r);
      assert !DirtyKey(k);
    }
    if IsCanonical(k) {
      FixedExactly(k);
      NamedExactly(h, k);
      SpelledExactly(h, k);
      XCacheExactly(k);
    }
  }
}
