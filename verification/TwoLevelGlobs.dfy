/** How the two levels read the same pattern: Redis with its own globs behind the escaped key prefix, the local cache
  * with the translated regular expression. */
module TwoLevelGlobs {
  import opened Wrappers
  import opened Glob
  import opened GlobRegexp
  import opened GlobEscape
  import opened RedisGlob
  import opened TwoLevelProtocol
  import opened TwoLevelCoherence
  import opened TwoLevelPatternGap

  /** No bracket of the pattern opens a class, not even one that is not closed; escaped brackets do not count. */
  predicate BracketFree(glob: string) {
    if glob == "" then true
    else if glob[0] == '\\' then |glob| == 1 || BracketFree(glob[2..])
    else glob[0] != '[' && BracketFree(glob[1..])
  }

  lemma {:induction false} BracketFreeIsClassFree(glob: string)
    requires BracketFree(glob)
    ensures ClassFree(glob)
    decreases |glob|
  {
    if glob != "" {
      if glob[0] != '\\' {
        BracketFreeIsClassFree(glob[1..]);
      } else if |glob| > 1 {
        BracketFreeIsClassFree(glob[2..]);
      }
    }
  }

  lemma FirstAtom(glob: string)
    requires glob != "" && glob[0] != '\\'
    ensures Atoms(glob) != [] && Atoms(glob)[1..] == Atoms(glob[1..])
    ensures Atoms(glob)[0] == if glob[0] == '*' then AnyRun else if glob[0] == '?' then AnyOne else Lit(glob[0])
  {
  }

  /** Without brackets the two kinds of globs are the same. */
  lemma {:induction false} SameGlobs(glob: string, s: string)
    requires BracketFree(glob)
    ensures RedisMatches(glob, s) <==> GlobMatches(glob, s)
    decreases |glob| + |s|
  {
    if glob == "" {
      assert Atoms(glob) == [];
    } else if glob[0] == '\\' {
      var n := if |glob| == 1 then 1 else 2;
      assert |glob| == 1 ==> glob[1..] == "" && Atoms("") == [];
      LiteralFirst(glob, if n == 1 then '\\' else glob[1], glob[n..], s);
      if s != "" {
        SameGlobs(glob[n..], s[1..]);
      }
    } else {
      FirstAtom(glob);
      if s != "" {
        SameGlobs(glob[1..], s[1..]);
        if glob[0] == '*' {
          SameGlobs(glob, s[1..]);
        }
      }
      if glob[0] == '*' {
        SameGlobs(glob[1..], s);
      }
    }
  }

  // ---------------------------------------------------------------- the matchers of the two levels

  function RegexpOf(glob: string): string {
    "^" + Print(Atoms(glob)) + "$"
  }

  /** Redis scans for the pattern behind the escaped prefix of the keys; the L1 of n is a memory store. What it does
    * with a pattern that has a class is left open. */
  ghost predicate UsesGlobs(cfg: Config, keyPrefix: string, n: NodeId) {
    && (forall p, k :: cfg.remoteMatch(p, k) <==> RedisMatches(Escaped(keyPrefix) + p, keyPrefix + k))
    && (forall p, k :: ClassFree(p) ==> (cfg.localMatch(n, p, k) <==> MatcherAccepts(RegexpOf(p), k)))
  }

  /** Such configurations exist, for any hash, any prefix and any reading of classes. */
  lemma GlobsCanBeUsed(nodes: set<NodeId>, shardOf: Key -> Shard, keyPrefix: string, classes: (Pattern, Key) -> bool,
                       n: NodeId)
    returns (cfg: Config)
    ensures cfg.nodes == nodes && cfg.shardOf == shardOf && UsesGlobs(cfg, keyPrefix, n)
  {
    cfg := Config(nodes, shardOf, (p, k) => RedisMatches(Escaped(keyPrefix) + p, keyPrefix + k),
                  (m, p, k) => if ClassFree(p) then MatcherAccepts(RegexpOf(p), k) else classes(p, k));
  }

  lemma RemoteMatch(cfg: Config, keyPrefix: string, n: NodeId, p: Pattern, k: Key)
    requires UsesGlobs(cfg, keyPrefix, n)
    ensures cfg.remoteMatch(p, k) <==> RedisMatches(p, k)
  {
    RedisHonoursLiterals();
    PrefixIsLiteral(RedisMatches, keyPrefix, p, keyPrefix + k);
    assert (keyPrefix + k)[..|keyPrefix|] == keyPrefix && (keyPrefix + k)[|keyPrefix|..] == k;
  }

  /** For a pattern without brackets the local cache accepts no key that Redis does not, and every key that Redis does
    * unless a wildcard meets a newline. */
  lemma LevelsAgree(cfg: Config, keyPrefix: string, n: NodeId, p: Pattern, k: Key)
    requires UsesGlobs(cfg, keyPrefix, n) && BracketFree(p)
    ensures cfg.localMatch(n, p, k) ==> cfg.remoteMatch(p, k)
    ensures NEWLINE !in k || NoWildcard(Atoms(p)) ==> (cfg.localMatch(n, p, k) <==> cfg.remoteMatch(p, k))
  {
    BracketFreeIsClassFree(p);
    RemoteMatch(cfg, keyPrefix, n, p, k);
    SameGlobs(p, k);
    TranslationMeaning(p, RegexpOf(p), k);
    if NoWildcard(Atoms(p)) {
      ExactOnEveryKey(p, RegexpOf(p));
    }
  }

  /** A pattern without brackets is safe for every key if and only if it has no wildcard. */
  lemma SafeForEveryKey(cfg: Config, keyPrefix: string, n: NodeId, p: Pattern)
    requires UsesGlobs(cfg, keyPrefix, n) && BracketFree(p)
    ensures (forall k :: cfg.remoteMatch(p, k) ==> cfg.localMatch(n, p, k)) <==> NoWildcard(Atoms(p))
  {
    ExactOnEveryKey(p, RegexpOf(p));
    BracketFreeIsClassFree(p);
    forall k
      ensures cfg.remoteMatch(p, k) <==> GlobMatches(p, k)
      ensures cfg.localMatch(n, p, k) <==> MatcherAccepts(RegexpOf(p), k)
      ensures MatcherAccepts(RegexpOf(p), k) ==> GlobMatches(p, k)
    {
      RemoteMatch(cfg, keyPrefix, n, p, k);
      SameGlobs(p, k);
      TranslationMeaning(p, RegexpOf(p), k);
    }
  }

  /** What a caller can check: if no pattern has a bracket that is not escaped, then for every key without a newline an
    * entry of L1 that differs from Redis is covered by unfinished business, and in the end there is none. */
  lemma BracketFreeIsConsistent(cfg: Config, keyPrefix: string, states: seq<System>, actions: seq<Action>, n: NodeId,
                                k: Key)
    requires Run(cfg, states, actions) && n in cfg.nodes && UsesGlobs(cfg, keyPrefix, n)
    requires NEWLINE !in k && OnlyPatterns(states[|actions|], BracketFree)
    ensures CoherentL1(cfg, states[|actions|], n, k)
    ensures Drained(states[|actions|]) ==> Consistent(states[|actions|], n, k)
  {
    forall p | BracketFree(p) && cfg.remoteMatch(p, k) ensures cfg.localMatch(n, p, k) {
      LevelsAgree(cfg, keyPrefix, n, p, k);
    }
    CoherentExactly(cfg, n, k, BracketFree);
    DrainedExactly(cfg, n, k, BracketFree);
  }

  // ---------------------------------------------------------------- inputs for which the levels come apart

  /** Redis takes a bracket that is not closed for a class, the translation takes it for itself. */
  lemma UnclosedBracket()
    ensures ClassFree("a[b") && RedisMatches("a[b", "ab") && !GlobMatches("a[b", "ab")
  {
    var g, b := "a[b", "[b";
    assert g[1..] == b && b[1..] == "b" && "ab"[1..] == "b" && "b"[1..] == "";
    assert Atoms("b") == [Lit('b')];
    assert Atoms(b) == [Lit('[')] + Atoms("b");
    assert Atoms(g) == [Lit('a')] + Atoms(b);
    assert RedisMatches(b, "b");
  }

  /** DeletePattern("a[b") removes the key "ab" from Redis and leaves it in L1, with nothing left to do. */
  lemma UnclosedBracketLeavesOld(cfg: Config, keyPrefix: string, n: NodeId)
    returns (states: seq<System>, actions: seq<Action>, s: System)
    requires n in cfg.nodes && UsesGlobs(cfg, keyPrefix, n)
    ensures Run(cfg, states, actions) && s == states[|actions|] && Drained(s)
    ensures "ab" in s.nodes(n).l1 && "ab" !in s.redis && OnlyPatterns(s, (p: Pattern) => p == "a[b")
  {
    UnclosedBracket();
    RemoteMatch(cfg, keyPrefix, n, "a[b", "ab");
    TranslationMeaning("a[b", RegexpOf("a[b"), "ab");
    states, actions, s := GapLeavesOld(cfg, n, "ab", "a[b");
  }

  /** DeletePattern("*") leaves a key that is a newline. */
  lemma NewlineLeavesOld(cfg: Config, keyPrefix: string, n: NodeId)
    returns (states: seq<System>, actions: seq<Action>, s: System)
    requires n in cfg.nodes && UsesGlobs(cfg, keyPrefix, n)
    ensures Run(cfg, states, actions) && s == states[|actions|] && Drained(s)
    ensures "\n" in s.nodes(n).l1 && "\n" !in s.redis && OnlyPatterns(s, (p: Pattern) => p == "*")
  {
    StarMissesNewline();
    assert Atoms("*") == [AnyRun] && Print([AnyRun]) == ".*" && RegexpOf("*") == "^.*$";
    assert ClassFree("*") && BracketFree("*");
    SameGlobs("*", "\n");
    RemoteMatch(cfg, keyPrefix, n, "*", "\n");
    states, actions, s := GapLeavesOld(cfg, n, "\n", "*");
  }
}
