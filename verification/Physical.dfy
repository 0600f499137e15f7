/** How a view's keys are named inside the engine: persist/internal/localadapter/store.go, line 81. */
module Physical {
  import opened Record
  import opened Numerals

  const COLON: Byte := 58

  /** "gac2:" */
  const SCHEME: seq<Byte> := [103, 97, 99, 50, COLON]

  function ToBytes(s: string): (b: seq<Byte>)
    ensures |b| == |s| && forall i :: 0 <= i < |s| ==> b[i] == s[i] as int % 256
  {
    if s == "" then [] else [s[0] as int % 256] + ToBytes(s[1..])
  }

  function Length(n: nat): seq<Byte> {
    ToBytes(FormatUint(n, 10))
  }

  function Prefix(namespace: seq<Byte>): seq<Byte> {
    SCHEME + (Length(|namespace|) + ([COLON] + (namespace + [COLON])))
  }

  function PhysicalKey(namespace: seq<Byte>, key: seq<Byte>): seq<Byte> {
    Prefix(namespace) + key
  }

  predicate HasPrefix(s: seq<Byte>, prefix: seq<Byte>) {
    |prefix| <= |s| && s[..|prefix|] == prefix
  }

  lemma NumeralBytes(n: nat)
    ensures COLON !in Length(n)
  {
    NumeralChars(n, 10);
    var s := FormatUint(n, 10);
    forall i | 0 <= i < |s| ensures Length(n)[i] != COLON {
      assert s[i] in s;
    }
  }

  lemma NumeralBytesDiffer(s: string, t: string)
    requires forall c :: c in s || c in t ==> IsNumeralChar(c)
    requires ToBytes(s) == ToBytes(t)
    ensures s == t
  {
    forall i | 0 <= i < |s| ensures s[i] == t[i] {
      assert ToBytes(s)[i] == ToBytes(t)[i];
      assert s[i] in s && t[i] in t;
    }
  }

  lemma LengthsDiffer(n: nat, m: nat)
    requires Length(n) == Length(m)
    ensures n == m
  {
    NumeralChars(n, 10);
    NumeralChars(m, 10);
    NumeralBytesDiffer(FormatUint(n, 10), FormatUint(m, 10));
    NumeralsDiffer(n, m, 10);
  }

  /** What precedes the first colon is determined by the whole. */
  lemma {:induction false} FirstColon(a: seq<Byte>, x: seq<Byte>, b: seq<Byte>, y: seq<Byte>)
    requires COLON !in a && COLON !in b && a + ([COLON] + x) == b + ([COLON] + y)
    ensures a == b && x == y
  {
    var l, r := a + ([COLON] + x), b + ([COLON] + y);
    assert l[|a|] == COLON && r[|b|] == COLON;
    assert |a| == |b|;
    SameLength(a, [COLON] + x, b, [COLON] + y);
    SameLength([COLON], x, [COLON], y);
  }

  lemma SameLength(a: seq<Byte>, x: seq<Byte>, b: seq<Byte>, y: seq<Byte>)
    requires |a| == |b| && a + x == b + y
    ensures a == b && x == y
  {
    assert (a + x)[..|a|] == a && (b + y)[..|a|] == b;
    assert (a + x)[|a|..] == x && (b + y)[|a|..] == y;
  }

  /** Two pairs never share a physical key, whatever bytes they are made of. */
  lemma PhysicalInjective(ns1: seq<Byte>, key1: seq<Byte>, ns2: seq<Byte>, key2: seq<Byte>)
    requires PhysicalKey(ns1, key1) == PhysicalKey(ns2, key2)
    ensures ns1 == ns2 && key1 == key2
  {
    Regroup(ns1, key1);
    Regroup(ns2, key2);
    var x1, x2 := ns1 + ([COLON] + key1), ns2 + ([COLON] + key2);
    SameLength(SCHEME, Length(|ns1|) + ([COLON] + x1), SCHEME, Length(|ns2|) + ([COLON] + x2));
    NumeralBytes(|ns1|);
    NumeralBytes(|ns2|);
    FirstColon(Length(|ns1|), x1, Length(|ns2|), x2);
    LengthsDiffer(|ns1|, |ns2|);
    SameLength(ns1, [COLON] + key1, ns2, [COLON] + key2);
    SameLength([COLON], key1, [COLON], key2);
  }

  lemma Regroup(ns: seq<Byte>, key: seq<Byte>)
    ensures PhysicalKey(ns, key) == SCHEME + (Length(|ns|) + ([COLON] + (ns + ([COLON] + key))))
  {
  }

  /** The prefix test of Stats counts exactly the view's own keys. */
  lemma PrefixTest(ns: seq<Byte>, other: seq<Byte>, key: seq<Byte>)
    ensures HasPrefix(PhysicalKey(other, key), Prefix(ns)) <==> ns == other
  {
    var p := PhysicalKey(other, key);
    if HasPrefix(p, Prefix(ns)) {
      var rest := p[|Prefix(ns)|..];
      assert p == PhysicalKey(ns, rest);
      PhysicalInjective(ns, rest, other, key);
    }
  }
}
