/** Hierarchical scope matching (src/scope_match.rs), and exactly which grants make it
    transitive. */
module ScopeMatch {
  import opened Segments

  datatype Options = Options(
    separator: char,
    wildcard: string,
    wildcardMatchesMultiSegment: bool,
    allowUniversalWildcard: bool,
    superScopes: seq<string>,
    allowSuperScopesForExactOnly: bool,
    exactOnlyScopes: seq<string>,
    exactOnlyScopePatterns: seq<string>)

  const DEFAULT_OPTIONS: Options := Options('.', "*", true, false, [], false, [], [])

  predicate EndsWith(s: string, suffix: string) {
    |suffix| <= |s| && s[|s| - |suffix|..] == suffix
  }

  /** Whole-segment comparison, where a wildcard segment stands for any one segment. */
  predicate SegmentsMatch(granted: seq<string>, required: seq<string>, wildcard: string) {
    && |granted| == |required|
    && forall i :: 0 <= i < |granted| ==> granted[i] == wildcard || granted[i] == required[i]
  }

  predicate MatchesHierarchy(o: Options, granted: string, required: string) {
    if granted == required then true
    else if granted == "" || required == "" || o.wildcard == "" then false
    else if granted == o.wildcard then o.allowUniversalWildcard
    else if EndsWith(granted, o.wildcard) then
      var prefix := granted[..|granted| - |o.wildcard|];
      if prefix == "" then o.allowUniversalWildcard
      else if o.wildcardMatchesMultiSegment then prefix <= required
      else prefix < required && o.separator !in required[|prefix|..]
    else SegmentsMatch(Parts(granted, o.separator), Parts(required, o.separator), o.wildcard)
  }

  predicate IsExactOnlyRequirement(o: Options, required: string) {
    || required in o.exactOnlyScopes
    || exists i :: 0 <= i < |o.exactOnlyScopePatterns| && MatchesHierarchy(o, o.exactOnlyScopePatterns[i], required)
  }

  predicate MatchesWithExactOnly(o: Options, granted: string, required: string, exactOnly: bool) {
    if granted == required then true
    else if exactOnly then o.allowSuperScopesForExactOnly && granted in o.superScopes
    else granted in o.superScopes || MatchesHierarchy(o, granted, required)
  }

  predicate Matches(o: Options, granted: string, required: string) {
    MatchesWithExactOnly(o, granted, required, IsExactOnlyRequirement(o, required))
  }

  predicate HasScope(o: Options, granted: seq<string>, required: string) {
    var exactOnly := IsExactOnlyRequirement(o, required);
    exists i :: 0 <= i < |granted| && MatchesWithExactOnly(o, granted[i], required, exactOnly)
  }

  /** One scope covers another under the default options. */
  predicate Covers(granted: string, required: string) {
    Matches(DEFAULT_OPTIONS, granted, required)
  }

  // ----- Which grants are transitive --------------------------------------------------------

  predicate IsTrailing(granted: string) {
    |granted| > 1 && granted[|granted| - 1] == '*'
  }

  /** A trailing wildcard whose prefix itself ends with a wildcard or contains a whole
      wildcard segment: the two rules then read the same text differently. */
  predicate IsAmbiguous(granted: string) {
    IsTrailing(granted) &&
    var prefix := granted[..|granted| - 1];
    var parts := Parts(prefix, '.');
    prefix[|prefix| - 1] == '*' || exists i :: 0 <= i < |parts| - 1 && parts[i] == "*"
  }

  ghost predicate IsTransitiveFrom(granted: string) {
    forall middle, required :: Covers(granted, middle) && Covers(middle, required) ==> Covers(granted, required)
  }

  /** The three ways to cover, told apart. */
  lemma CoversMeans(granted: string, required: string)
    ensures Covers(granted, required) <==>
            || granted == required
            || (IsTrailing(granted) && granted[..|granted| - 1] <= required)
            || (granted != "" && granted[|granted| - 1] != '*' && required != ""
                && SegmentsMatch(Parts(granted, '.'), Parts(required, '.'), "*"))
  {
    if granted != "" {
      var n := |granted| - 1;
      assert granted == granted[..n] + [granted[n]];
      assert granted[n..] == [granted[n]];
    }
  }

  /** Splitting keeps the last character, unless it is a separator. */
  lemma LastPartEndsAlike(s: string)
    requires s != ""
    ensures var last := Parts(s, '.')[|Parts(s, '.')| - 1];
            (s[|s| - 1] == '*' <==> last != "" && last[|last| - 1] == '*')
  {
  }

  lemma SegmentMatchIsTransitive(granted: string, middle: string, required: string)
    requires granted != "" && granted[|granted| - 1] != '*' && middle != "" && required != ""
    requires SegmentsMatch(Parts(granted, '.'), Parts(middle, '.'), "*")
    requires Covers(middle, required)
    ensures Covers(granted, required)
  {
    var gs, ms := Parts(granted, '.'), Parts(middle, '.');
    LastPartEndsAlike(granted);
    LastPartEndsAlike(middle);
    assert gs[|gs| - 1] == ms[|ms| - 1];
    CoversMeans(middle, required);
    CoversMeans(granted, required);
  }

  lemma PrefixSurvivesSegments(prefix: string, middle: string, required: string)
    requires prefix != "" && prefix[|prefix| - 1] != '*' && prefix <= middle
    requires forall i :: 0 <= i < |Parts(prefix, '.')| - 1 ==> Parts(prefix, '.')[i] != "*"
    requires SegmentsMatch(Parts(middle, '.'), Parts(required, '.'), "*")
    ensures prefix <= required
  {
    var ps, ms, rs := Parts(prefix, '.'), Parts(middle, '.'), Parts(required, '.');
    var k := |ps| - 1;
    PrefixLeads(prefix, middle, '.');
    LastPartEndsAlike(prefix);
    forall i | 0 <= i < k
      ensures ps[..k][i] == rs[..k][i]
    {
      assert ps[..k][i] == ms[..k][i];
    }
    assert ps[..k] == rs[..k];
    LeadingIsPrefix(prefix, required, '.');
  }

  lemma TrailingIsTransitive(granted: string, middle: string, required: string)
    requires IsTrailing(granted) && !IsAmbiguous(granted)
    requires granted[..|granted| - 1] <= middle && Covers(middle, required)
    ensures granted[..|granted| - 1] <= required
  {
    var prefix := granted[..|granted| - 1];
    CoversMeans(middle, required);
    if middle != required && !IsTrailing(middle) {
      PrefixSurvivesSegments(prefix, middle, required);
    }
  }

  lemma UnambiguousIsTransitive(granted: string, middle: string, required: string)
    requires !IsAmbiguous(granted) && Covers(granted, middle) && Covers(middle, required)
    ensures Covers(granted, required)
  {
    CoversMeans(granted, middle);
    if granted != middle {
      if IsTrailing(granted) {
        TrailingIsTransitive(granted, middle, required);
        CoversMeans(granted, required);
      } else if middle != required {
        CoversMeans(middle, required);
        SegmentMatchIsTransitive(granted, middle, required);
      }
    }
  }

  /** "a**" covers "a*", which covers "ax"; but "a**" does not. */
  lemma DoubledWildcardFails(granted: string)
    requires IsTrailing(granted) && |granted| > 2 && granted[|granted| - 2] == '*'
    ensures !IsTransitiveFrom(granted)
  {
    var middle := granted[..|granted| - 1];
    var required := middle[..|middle| - 1] + "x";
    CoversMeans(granted, middle);
    CoversMeans(middle, required);
    CoversMeans(granted, required);
    assert required[|middle| - 1] != middle[|middle| - 1];
    assert Covers(granted, middle) && Covers(middle, required) && !Covers(granted, required);
  }

  /** "**" covers "*.x", which covers "y.x"; but "**" does not. */
  lemma BareDoubledWildcardFails()
    ensures !IsTransitiveFrom("**")
  {
    var middle, required := "*" + ".x", "y" + ".x";
    TwoParts("*");
    TwoParts("y");
    CoversMeans("**", middle);
    CoversMeans(middle, required);
    CoversMeans("**", required);
    assert "**"[..1] == "*" && "**"[1] == '*' && required[0] == 'y' && "**"[0] == '*';
    assert Covers("**", middle) && Covers(middle, required) && !Covers("**", required);
  }

  lemma TwoParts(first: string)
    requires Lacks(first, '.')
    ensures Parts(first + ".x", '.') == [first, "x"]
  {
    PartsOfWord(first, '.');
    PartsOfExtension(first, "x", '.');
    assert first + ".x" == first + ['.'] + "x";
  }

  /** "a.*.c*" covers "a.*.cx", which covers "a.y.cx"; but "a.*.c*" does not. */
  lemma InteriorWildcardFails(granted: string, i: nat)
    requires IsTrailing(granted)
    requires var parts := Parts(granted[..|granted| - 1], '.'); i < |parts| - 1 && parts[i] == "*"
    ensures !IsTransitiveFrom(granted)
  {
    var prefix := granted[..|granted| - 1];
    var middle := prefix + "x";
    var ps, ms := Parts(prefix, '.'), Parts(middle, '.');
    assert middle[..|prefix|] == prefix;
    var rs := ms[i := "y"];
    var required := Joined(rs, '.');
    PartsLackSeparator(middle, '.');
    PartsOfJoined(rs, '.');
    assert rs[i] == "y" && ms[i] == ps[i] == "*";
    CoversMeans(granted, middle);
    CoversMeans(middle, required);
    CoversMeans(granted, required);
    if prefix <= required {
      PrefixPartsAgree(prefix, required, '.', i);
    }
    assert Covers(granted, middle) && Covers(middle, required) && !Covers(granted, required);
  }

  /** Covering is transitive from a grant exactly when the grant is not ambiguous. */
  lemma TransitiveExactly(granted: string)
    ensures IsTransitiveFrom(granted) <==> !IsAmbiguous(granted)
  {
    if IsAmbiguous(granted) {
      var prefix := granted[..|granted| - 1];
      var parts := Parts(prefix, '.');
      if prefix[|prefix| - 1] != '*' {
        var i :| 0 <= i < |parts| - 1 && parts[i] == "*";
        InteriorWildcardFails(granted, i);
      } else if |granted| > 2 {
        DoubledWildcardFails(granted);
      } else {
        assert granted == "**";
        BareDoubledWildcardFails();
      }
    } else {
      forall middle, required | Covers(granted, middle) && Covers(middle, required)
        ensures Covers(granted, required)
      {
        UnambiguousIsTransitive(granted, middle, required);
      }
    }
  }

  /** In particular, wildcards that appear only at the end cause no surprise. */
  lemma FinalWildcardsAreTransitive(granted: string, middle: string, required: string)
    requires forall i :: 0 <= i < |granted| - 1 ==> granted[i] != '*'
    requires Covers(granted, middle) && Covers(middle, required)
    ensures Covers(granted, required)
  {
    FinalWildcardIsUnambiguous(granted);
    UnambiguousIsTransitive(granted, middle, required);
  }

  lemma FinalWildcardIsUnambiguous(granted: string)
    requires forall i :: 0 <= i < |granted| - 1 ==> granted[i] != '*'
    ensures !IsAmbiguous(granted)
  {
    if IsTrailing(granted) {
      var parts := Parts(granted[..|granted| - 1], '.');
      PartsLackAbsent(granted[..|granted| - 1], '.', '*');
      forall i | 0 <= i < |parts|
        ensures parts[i] != "*"
      {
        assert Lacks(parts[i], '*');
        assert |parts[i]| == 1 ==> parts[i][0] != '*';
      }
    }
  }

  lemma {:induction false} PartsLackAbsent(value: string, sep: char, c: char)
    requires Lacks(value, c)
    ensures AllLack(Parts(value, sep), c)
  {
    if value != "" {
      PartsLackAbsent(value[..|value| - 1], sep, c);
    }
  }

  // ----- Any options ---------------------------------------------------------------------------

  /** `granted` is `prefix` followed by the wildcard. */
  predicate IsPrefixGrant(o: Options, granted: string, prefix: string) {
    o.wildcard != "" && granted == prefix + o.wildcard
  }

  /** The hierarchy, for any options: an equal scope; everything, where the bare wildcard may
      mean that; whatever extends a prefix, or extends it by one segment; or, of a grant
      without a final wildcard, the same number of segments, each equal or a wildcard. */
  lemma HierarchyMeans(o: Options, granted: string, required: string)
    ensures MatchesHierarchy(o, granted, required) <==>
            || granted == required
            || (granted != "" && required != "" && o.wildcard != ""
                && if exists prefix :: IsPrefixGrant(o, granted, prefix) then
                     exists prefix :: IsPrefixGrant(o, granted, prefix) &&
                                 if prefix == "" then o.allowUniversalWildcard
                                 else
                                   && prefix <= required
                                   && (!o.wildcardMatchesMultiSegment ==>
                                         prefix != required && o.separator !in required[|prefix|..])
                   else SegmentsMatch(Parts(granted, o.separator), Parts(required, o.separator), o.wildcard))
  {
    var n := |granted| - |o.wildcard|;
    if EndsWith(granted, o.wildcard) && o.wildcard != "" {
      assert IsPrefixGrant(o, granted, granted[..n]);
    }
    forall prefix | IsPrefixGrant(o, granted, prefix)
      ensures EndsWith(granted, o.wildcard) && prefix == granted[..n]
    {
      assert granted[|prefix|..] == o.wildcard;
    }
  }

  /** A requirement that only an equal scope satisfies: listed, or under a listed pattern. */
  predicate IsProtected(o: Options, required: string) {
    || required in o.exactOnlyScopes
    || exists pattern :: pattern in o.exactOnlyScopePatterns && MatchesHierarchy(o, pattern, required)
  }

  lemma ProtectedExactly(o: Options, required: string)
    ensures IsExactOnlyRequirement(o, required) <==> IsProtected(o, required)
  {
    if i :| 0 <= i < |o.exactOnlyScopePatterns| && MatchesHierarchy(o, o.exactOnlyScopePatterns[i], required) {
      assert o.exactOnlyScopePatterns[i] in o.exactOnlyScopePatterns;
    }
  }

  /** Which scopes satisfy a requirement: itself; for a protected one, otherwise only a
      super-scope where those are allowed; for any other, a super-scope, or one above it in
      the hierarchy. */
  lemma SatisfiedExactly(o: Options, granted: seq<string>, required: string)
    ensures HasScope(o, granted, required) <==>
            || required in granted
            || ((IsProtected(o, required) ==> o.allowSuperScopesForExactOnly)
                && exists s :: s in granted && s in o.superScopes)
            || (!IsProtected(o, required) && exists s :: s in granted && MatchesHierarchy(o, s, required))
  {
    hide MatchesHierarchy, IsExactOnlyRequirement, IsProtected;
    ProtectedExactly(o, required);
    var exactOnly := IsExactOnlyRequirement(o, required);
    forall i | 0 <= i < |granted| && MatchesWithExactOnly(o, granted[i], required, exactOnly)
      ensures granted[i] in granted
    {
    }
    forall s | s in granted && MatchesWithExactOnly(o, s, required, exactOnly)
      ensures HasScope(o, granted, required)
    {
      var i :| 0 <= i < |granted| && granted[i] == s;
    }
  }

  // ----- Exact-only requirements ----------------------------------------------------------

  /** A requirement under an unambiguous exact-only pattern stays exact-only however it
      is narrowed, so no wildcard grant ever reaches anything below it. */
  lemma ExactOnlySubtreesAreSealed(o: Options, pattern: string, middle: string, required: string, granted: seq<string>)
    requires o.separator == '.' && o.wildcard == "*" && o.wildcardMatchesMultiSegment && !o.allowUniversalWildcard
    requires pattern in o.exactOnlyScopePatterns && !IsAmbiguous(pattern)
    requires MatchesHierarchy(o, pattern, middle) && MatchesHierarchy(o, middle, required)
    requires HasScope(o, granted, required)
    ensures required in granted || (o.allowSuperScopesForExactOnly && exists s :: s in granted && s in o.superScopes)
  {
    SameHierarchy(o, pattern, middle);
    SameHierarchy(o, middle, required);
    SameHierarchy(o, pattern, required);
    UnambiguousIsTransitive(pattern, middle, required);
    assert IsExactOnlyRequirement(o, required);
    var i :| 0 <= i < |granted| && MatchesWithExactOnly(o, granted[i], required, true);
    assert granted[i] in granted;
  }

  lemma SameHierarchy(o: Options, granted: string, required: string)
    requires o.separator == '.' && o.wildcard == "*" && o.wildcardMatchesMultiSegment && !o.allowUniversalWildcard
    ensures MatchesHierarchy(o, granted, required) == Covers(granted, required)
  {
  }
}
