/** Scope claims of access tokens (src/token_decode.rs): the space-separated string
    of section 3.3 of RFC 6749 and the older array form. */
module ScopeClaims {
  import opened Common
  import opened Dedupe
  import opened Segments
  import opened Text
  import opened TextOrder

  const MAX_SCOPES: nat := 256
  const MAX_SCOPE_LENGTH: nat := 512
  const MAX_CLAIM_LENGTH: nat := 16 * 1024

  datatype ClaimFormat = Standard | LegacyArray
  datatype LegacyPolicy = Accept | Reject
  datatype ScopeError = TokenCreation | InvalidAccessToken

  /** The two claims a token may carry. */
  datatype Claims = Claims(scope: Option<string>, scopes: Option<seq<string>>)

  predicate ScopeChar(c: char) {
    var n := c as int;
    n == 0x21 || 0x23 <= n <= 0x5b || 0x5d <= n <= 0x7e
  }

  predicate ValidScope(scope: string) {
    scope != "" && Utf8Length(scope) <= MAX_SCOPE_LENGTH && forall i :: 0 <= i < |scope| ==> ScopeChar(scope[i])
  }

  function TotalLength(scopes: seq<string>): nat {
    if scopes == [] then 0 else TotalLength(scopes[..|scopes| - 1]) + Utf8Length(scopes[|scopes| - 1])
  }

  predicate ValidScopes(scopes: seq<string>) {
    && |scopes| <= MAX_SCOPES
    && (forall i :: 0 <= i < |scopes| ==> ValidScope(scopes[i]))
    && TotalLength(scopes) + Max(|scopes| - 1, 0) <= MAX_CLAIM_LENGTH
  }

  function IssuedClaims(scopes: seq<string>, format: ClaimFormat): Result<Claims, ScopeError> {
    if !ValidScopes(scopes) then Failure(TokenCreation)
    else match format
      case Standard => Success(Claims(if scopes == [] then None else Some(Joined(scopes, ' ')), None))
      case LegacyArray => Success(Claims(None, Some(scopes)))
  }

  function ParsedStandard(value: string): Result<seq<string>, ScopeError> {
    if value == "" || Utf8Length(value) > MAX_CLAIM_LENGTH then Failure(InvalidAccessToken)
    else if !ValidScopes(Parts(value, ' ')) then Failure(InvalidAccessToken)
    else Success(Deduped(Parts(value, ' ')))
  }

  function ParsedLegacy(scopes: seq<string>): Result<seq<string>, ScopeError> {
    if !ValidScopes(scopes) then Failure(InvalidAccessToken) else Success(Deduped(scopes))
  }

  function ParsedScopes(claims: Claims, policy: LegacyPolicy): Result<seq<string>, ScopeError> {
    match claims
    case Claims(None, None) => Success([])
    case Claims(Some(value), None) => ParsedStandard(value)
    case Claims(None, Some(scopes)) =>
      if policy == Reject then Failure(InvalidAccessToken) else ParsedLegacy(scopes)
    case Claims(Some(value), Some(scopes)) =>
      var standard :- ParsedStandard(value);
      if policy == Reject then Failure(InvalidAccessToken)
      else
        var legacy :- ParsedLegacy(scopes);
        if Canonical(standard) != Canonical(legacy) then Failure(InvalidAccessToken) else Success(standard)
  }

  // ----- Lengths ----------------------------------------------------------------------------

  lemma {:induction false} Utf8LengthOfExtension(s: string, t: string)
    ensures Utf8Length(s + t) == Utf8Length(s) + Utf8Length(t)
  {
    if s == "" {
      assert s + t == t;
    } else {
      Utf8LengthOfExtension(s[1..], t);
      assert (s + t)[1..] == s[1..] + t;
    }
  }

  /** The bound on the sum of the parts is the bound on the joined string. */
  lemma {:induction false} JoinedLength(scopes: seq<string>)
    ensures Utf8Length(Joined(scopes, ' ')) == TotalLength(scopes) + Max(|scopes| - 1, 0)
  {
    if scopes == [] {
    } else if |scopes| == 1 {
      assert TotalLength(scopes[..0]) == 0;
    } else {
      var init, last := scopes[..|scopes| - 1], scopes[|scopes| - 1];
      JoinedLength(init);
      Utf8LengthOfExtension(Joined(init, ' '), " ");
      Utf8LengthOfExtension(Joined(init, ' ') + " ", last);
      assert Utf8Length(" ") == 1 + Utf8Length(" "[1..]);
    }
  }

  // ----- De-duplication keeps a list issuable ---------------------------------------------

  lemma {:induction false} DedupedIsShorter(scopes: seq<string>)
    ensures |Deduped(scopes)| <= |scopes| && TotalLength(Deduped(scopes)) <= TotalLength(scopes)
  {
    if scopes != [] {
      var init, last := Deduped(scopes[..|scopes| - 1]), scopes[|scopes| - 1];
      DedupedIsShorter(scopes[..|scopes| - 1]);
      assert (init + [last])[..|init|] == init;
    }
  }

  lemma DedupedIsValid(scopes: seq<string>)
    requires ValidScopes(scopes)
    ensures ValidScopes(Deduped(scopes))
  {
    DedupedIsShorter(scopes);
    DedupedIsFirstOccurrences(scopes);
    forall i | 0 <= i < |Deduped(scopes)|
      ensures ValidScope(Deduped(scopes)[i])
    {
      assert Deduped(scopes)[i] in scopes;
    }
  }

  // ----- Theorems ---------------------------------------------------------------------------

  /** What the issuer encodes the parser returns, without its repetitions, in both
      formats; only the array form depends on the parser's policy. */
  lemma IssuedClaimsRoundTrip(scopes: seq<string>, format: ClaimFormat, policy: LegacyPolicy)
    requires IssuedClaims(scopes, format).Success?
    requires format == LegacyArray ==> policy == Accept
    ensures ParsedScopes(IssuedClaims(scopes, format).value, policy) == Success(Deduped(scopes))
    ensures NoDuplicates(scopes) ==> ParsedScopes(IssuedClaims(scopes, format).value, policy) == Success(scopes)
  {
    if scopes != [] && format == Standard {
      forall i | 0 <= i < |scopes|
        ensures Lacks(scopes[i], ' ')
      {
        assert ValidScope(scopes[i]);
      }
      PartsOfJoined(scopes, ' ');
      JoinedLength(scopes);
    }
    if NoDuplicates(scopes) {
      DedupedIsIdentityOnDistinct(scopes);
    }
  }

  ghost predicate Encodes(value: string, scopes: seq<string>) {
    scopes != [] && ValidScopes(scopes) && Joined(scopes, ' ') == value
  }

  /** The parser accepts exactly the strings the issuer can produce. */
  lemma StandardClaimsAreExactlyIssued(value: string)
    ensures ParsedStandard(value).Success? <==> exists scopes :: Encodes(value, scopes)
    ensures forall scopes :: Encodes(value, scopes) ==> ParsedStandard(value) == Success(Deduped(scopes))
  {
    if ParsedStandard(value).Success? {
      JoinedOfParts(value, ' ');
      assert Encodes(value, Parts(value, ' '));
    }
    forall scopes | Encodes(value, scopes)
      ensures ParsedStandard(value) == Success(Deduped(scopes))
    {
      IssuedClaimsRoundTrip(scopes, Standard, Accept);
    }
  }

  /** A token with two well-formed claims is accepted exactly when they denote the
      same set, and then means the list of the standard one. */
  lemma TwoClaimsMustAgree(value: string, scopes: seq<string>)
    requires ParsedStandard(value).Success? && ParsedLegacy(scopes).Success?
    ensures var both := ParsedScopes(Claims(Some(value), Some(scopes)), Accept);
            && (both.Success? <==> SameValues(Parts(value, ' '), scopes))
            && (both.Success? ==> both == ParsedStandard(value))
    ensures ParsedScopes(Claims(Some(value), Some(scopes)), Reject) == Failure(InvalidAccessToken)
  {
    DedupedIsFirstOccurrences(Parts(value, ' '));
    DedupedIsFirstOccurrences(scopes);
    CanonicalIsSetIdentity(Deduped(Parts(value, ' ')), Deduped(scopes));
  }

  /** Which lists the issuer encodes: few enough, of short and printable scopes without a
      quote or a backslash, that fit the claim when joined. */
  lemma IssuableExactly(scopes: seq<string>, format: ClaimFormat)
    ensures IssuedClaims(scopes, format).Success? <==>
            && |scopes| <= 256 && Utf8Length(Joined(scopes, ' ')) <= 16384
            && forall s :: s in scopes ==>
                             1 <= Utf8Length(s) <= 512
                             && forall c :: c in s ==> ' ' < c <= '~' && c != '"' && c != '\\'
  {
    JoinedLength(scopes);
    forall s | s in scopes
      ensures ValidScope(s) <==>
                1 <= Utf8Length(s) <= 512 && forall c :: c in s ==> ' ' < c <= '~' && c != '"' && c != '\\'
    {
      ScopeIsExact(s);
    }
    assert ValidScopes(scopes) ==> forall s :: s in scopes ==> ValidScope(s);
  }

  lemma ScopeIsExact(s: string)
    ensures ValidScope(s) <==>
              1 <= Utf8Length(s) <= 512 && forall c :: c in s ==> ' ' < c <= '~' && c != '"' && c != '\\'
  {
    assert forall c :: ScopeChar(c) <==> ' ' < c <= '~' && c != '"' && c != '\\';
    assert forall i :: 0 <= i < |s| ==> s[i] in s;
  }

  /** Any two claims: each that is present must be well-formed, the array form must be
      allowed, and both must denote the same set; the standard one gives the order. */
  lemma ParsedExactly(claims: Claims, policy: LegacyPolicy)
    ensures var parsed := ParsedScopes(claims, policy);
            && (parsed.Success? <==>
                  && (claims.scope.Some? ==> exists scopes :: Encodes(claims.scope.value, scopes))
                  && (claims.scopes.Some? ==> policy == Accept && ValidScopes(claims.scopes.value))
                  && (claims.scope.Some? && claims.scopes.Some? ==>
                        SameValues(Parts(claims.scope.value, ' '), claims.scopes.value)))
            && (parsed.Failure? ==> parsed.error == InvalidAccessToken)
            && (parsed.Success? ==>
                  parsed.value == if claims.scope.Some? then Deduped(Parts(claims.scope.value, ' '))
                                  else if claims.scopes.Some? then Deduped(claims.scopes.value) else [])
  {
    hide ValidScopes, Encodes;
    if claims.scope.Some? {
      StandardClaimsAreExactlyIssued(claims.scope.value);
      if claims.scopes.Some? && ParsedStandard(claims.scope.value).Success? && ParsedLegacy(claims.scopes.value).Success? {
        TwoClaimsMustAgree(claims.scope.value, claims.scopes.value);
      }
    }
  }

  lemma ParsedScopesAreValid(claims: Claims, policy: LegacyPolicy)
    requires ParsedScopes(claims, policy).Success?
    ensures NoDuplicates(ParsedScopes(claims, policy).value) && ValidScopes(ParsedScopes(claims, policy).value)
  {
    if claims.scope.Some? {
      DedupedIsValid(Parts(claims.scope.value, ' '));
      DedupedIsFirstOccurrences(Parts(claims.scope.value, ' '));
    } else if claims.scopes.Some? {
      DedupedIsValid(claims.scopes.value);
      DedupedIsFirstOccurrences(claims.scopes.value);
    }
  }

  /** Whatever a token says is duplicate-free, and can be issued again unchanged. */
  lemma ParsedScopesCanBeReissued(claims: Claims, policy: LegacyPolicy, format: ClaimFormat)
    requires ParsedScopes(claims, policy).Success?
    ensures var scopes := ParsedScopes(claims, policy).value;
            && NoDuplicates(scopes)
            && IssuedClaims(scopes, format).Success?
            && ParsedScopes(IssuedClaims(scopes, format).value, Accept) == Success(scopes)
  {
    ParsedScopesAreValid(claims, policy);
    hide ParsedScopes, ValidScopes;
    IssuedClaimsRoundTrip(ParsedScopes(claims, policy).value, format, Accept);
  }
}
