/** Session assurance and the recent-MFA policy (src/assurance.rs). */
module Assurance {
  import opened Common
  import opened Text
  import opened Dedupe

  const MAX_ASSURANCE_METHODS: nat := 16
  const MAX_ASSURANCE_METHOD_LENGTH: nat := 64
  const MAX_ASSURANCE_CONTEXT_LENGTH: nat := 256

  datatype MfaAcceptance = Unsatisfied | Satisfied

  datatype SessionAssurance = SessionAssurance(
    authenticatedAt: Time,
    methods: seq<string>,
    acr: Option<string>,
    context: Option<string>,
    mfa: MfaAcceptance)

  datatype MfaFactor = Totp

  datatype MfaState = MfaState(satisfied: bool, factors: seq<MfaFactor>)

  datatype AuthMethod =
    | Password | EmailCode | SmsCode | TotpStepUp | ServiceToken | Oidc | MicrosoftOidc

  datatype ActiveScope = ActiveScope(
    tenantId: Option<string>, organizationId: Option<string>, catalogId: Option<string>)

  datatype SessionContext = SessionContext(
    authMethod: AuthMethod,
    mfa: MfaState,
    assurance: Option<SessionAssurance>,
    activeScope: Option<ActiveScope>)

  datatype AssuranceInputError =
    | TooManyMethods
    | InvalidMethod
    | MethodsNotNormalized
    | InvalidContext(field: string)

  function NormalizeMethod(method_: string): string {
    Lower(Trim(method_))
  }

  predicate AcceptableMethod(normal: string) {
    normal != "" && Utf8Length(normal) <= MAX_ASSURANCE_METHOD_LENGTH
  }

  /** Reference for the loop below: the first offending entry decides the error. */
  function NormalizedMethods(methods: seq<string>): Result<seq<string>, AssuranceInputError> {
    if methods == [] then Success([])
    else
      var out :- NormalizedMethods(methods[..|methods| - 1]);
      if |methods| > MAX_ASSURANCE_METHODS then Failure(TooManyMethods)
      else
        var normal := NormalizeMethod(methods[|methods| - 1]);
        if !AcceptableMethod(normal) then Failure(InvalidMethod)
        else Success(if normal in out then out else out + [normal])
  }

  method NormalizeMethods(methods: seq<string>)
    returns (result: Result<seq<string>, AssuranceInputError>)
    ensures result == NormalizedMethods(methods)
  {
    hide AcceptableMethod, NormalizeMethod;
    var normalized: seq<string> := [];
    var seen: set<string> := {};
    var count := 0;
    for i := 0 to |methods|
      invariant count == i
      invariant NormalizedMethods(methods[..i]) == Success(normalized)
      invariant forall m :: m in seen <==> m in normalized
    {
      assert methods[..i + 1][..i] == methods[..i];
      count := count + 1;
      if count > MAX_ASSURANCE_METHODS {
        PrefixErrorDecides(methods, i + 1);
        return Failure(TooManyMethods);
      }
      var normal := NormalizeMethod(methods[i]);
      if !AcceptableMethod(normal) {
        PrefixErrorDecides(methods, i + 1);
        return Failure(InvalidMethod);
      }
      if normal !in seen {
        seen := seen + {normal};
        normalized := normalized + [normal];
      }
    }
    assert methods[..|methods|] == methods;
    return Success(normalized);
  }

  lemma {:induction false} PrefixErrorDecides(methods: seq<string>, k: nat)
    requires k <= |methods|
    requires NormalizedMethods(methods[..k]).Failure?
    ensures NormalizedMethods(methods) == NormalizedMethods(methods[..k])
  {
    if k < |methods| {
      assert methods[..|methods| - 1][..k] == methods[..k];
      PrefixErrorDecides(methods[..|methods| - 1], k);
    } else {
      assert methods[..k] == methods;
    }
  }

  predicate AcceptableContext(value: Option<string>) {
    value.Some? ==> Trim(value.value) != "" && Utf8Length(value.value) <= MAX_ASSURANCE_CONTEXT_LENGTH
  }

  /** `SessionAssurance::new`. */
  function NewAssurance(
    authenticatedAt: Time, methods: seq<string>, acr: Option<string>, context: Option<string>, mfa: MfaAcceptance)
    : Result<SessionAssurance, AssuranceInputError>
  {
    var normal :- NormalizedMethods(methods);
    if !AcceptableContext(acr) then Failure(InvalidContext("acr"))
    else if !AcceptableContext(context) then Failure(InvalidContext("context"))
    else Success(SessionAssurance(authenticatedAt, normal, acr, context, mfa))
  }

  /** `SessionAssurance::validate`; `None` is acceptance. */
  function Validate(a: SessionAssurance): Option<AssuranceInputError> {
    if |a.methods| > MAX_ASSURANCE_METHODS then Some(TooManyMethods)
    else match NormalizedMethods(a.methods)
      case Failure(e) => Some(e)
      case Success(normal) =>
        if normal != a.methods then Some(MethodsNotNormalized)
        else if !AcceptableContext(a.acr) then Some(InvalidContext("acr"))
        else if !AcceptableContext(a.context) then Some(InvalidContext("context"))
        else None
  }

  predicate NormalMethod(m: string) {
    AcceptableMethod(m) && NormalizeMethod(m) == m
  }

  lemma NormalizingIsIdempotent(m: string)
    ensures NormalizeMethod(NormalizeMethod(m)) == NormalizeMethod(m)
  {
    var trimmed := Trim(m);
    TrimTrims(m);
    assert Trimmed(Lower(trimmed));
    assert Trim(Lower(trimmed)) == Lower(trimmed);
    LowerIsIdempotent(trimmed);
  }

  /** An accepted list comes out distinct, normal and within bounds. */
  lemma {:induction false} NormalizedShape(methods: seq<string>)
    requires NormalizedMethods(methods).Success?
    ensures |methods| <= MAX_ASSURANCE_METHODS
    ensures |NormalizedMethods(methods).value| <= |methods|
    ensures NoDuplicates(NormalizedMethods(methods).value)
    ensures forall m :: m in NormalizedMethods(methods).value ==> NormalMethod(m)
  {
    if methods != [] {
      NormalizedShape(methods[..|methods| - 1]);
      NormalizingIsIdempotent(methods[|methods| - 1]);
    }
  }

  /** Which lists are accepted, and what becomes of their entries. */
  lemma {:induction false} NormalizedExactly(methods: seq<string>)
    ensures NormalizedMethods(methods).Success? <==>
              |methods| <= 16 && forall m :: m in methods ==> 1 <= Utf8Length(Trim(m)) <= 64
    ensures NormalizedMethods(methods).Success? ==>
              forall n :: n in NormalizedMethods(methods).value <==> exists m :: m in methods && n == NormalizeMethod(m)
  {
    if methods != [] {
      var init, last := methods[..|methods| - 1], methods[|methods| - 1];
      assert methods == init + [last];
      NormalizedExactly(init);
      LowerIsIdempotent(Trim(last));
      NothingIsEmpty(Trim(last));
    }
  }

  lemma NothingIsEmpty(s: string)
    ensures Utf8Length(s) >= 1 <==> s != ""
  {
  }

  /** Two spellings are one method exactly when they differ in case and surrounding white
      space only. */
  lemma SpellingsOfOneMethod(m: string, n: string)
    ensures NormalizeMethod(m) == NormalizeMethod(n) <==> SameButCase(Trim(m), Trim(n))
    ensures SameButCase(NormalizeMethod(m), Trim(m))
  {
    LoweredAreEqualExactly(Trim(m), Trim(n));
  }

  /** Evidence is accepted exactly when its methods are and its context is visible and
      short; it is kept as given, but for the normalization of its methods. */
  lemma ConstructedExactly(
    authenticatedAt: Time, methods: seq<string>, acr: Option<string>, context: Option<string>, mfa: MfaAcceptance)
    ensures var a := NewAssurance(authenticatedAt, methods, acr, context, mfa);
            && (a.Success? <==>
                  && |methods| <= 16 && (forall m :: m in methods ==> 1 <= Utf8Length(Trim(m)) <= 64)
                  && (acr.Some? ==> Trim(acr.value) != "" && Utf8Length(acr.value) <= 256)
                  && (context.Some? ==> Trim(context.value) != "" && Utf8Length(context.value) <= 256))
            && (a.Success? ==>
                  && a.value.authenticatedAt == authenticatedAt && a.value.acr == acr && a.value.context == context
                  && a.value.mfa == mfa && NoDuplicates(a.value.methods)
                  && forall n :: n in a.value.methods <==> exists m :: m in methods && n == NormalizeMethod(m))
  {
    NormalizedExactly(methods);
    if NormalizedMethods(methods).Success? {
      NormalizedShape(methods);
    }
  }

  lemma {:induction false} NormalListIsFixed(methods: seq<string>)
    requires |methods| <= MAX_ASSURANCE_METHODS && NoDuplicates(methods)
    requires forall m :: m in methods ==> NormalMethod(m)
    ensures NormalizedMethods(methods) == Success(methods)
  {
    if methods != [] {
      var init, last := methods[..|methods| - 1], methods[|methods| - 1];
      assert methods == init + [last];
      NormalListIsFixed(init);
      assert last in methods && NormalMethod(last);
      assert last !in init;
    }
  }

  /** Validation accepts exactly what construction can produce. */
  lemma ValidateAcceptsExactlyConstructed(a: SessionAssurance)
    ensures Validate(a).None? <==>
            exists methods ::
              NewAssurance(a.authenticatedAt, methods, a.acr, a.context, a.mfa) == Success(a)
  {
    if Validate(a).None? {
      assert NewAssurance(a.authenticatedAt, a.methods, a.acr, a.context, a.mfa) == Success(a);
    }
    if methods :| NewAssurance(a.authenticatedAt, methods, a.acr, a.context, a.mfa) == Success(a) {
      NormalizedShape(methods);
      NormalListIsFixed(a.methods);
    }
  }

  /** `SessionAssurance::mfa_state`. */
  function MfaStateOf(a: SessionAssurance): MfaState {
    MfaState(a.mfa == Satisfied, [])
  }

  /** `SessionContext::with_assurance`. */
  function WithAssurance(session: SessionContext, a: SessionAssurance): SessionContext {
    session.(mfa := MfaStateOf(a), assurance := Some(a))
  }

  /** Assurance, when present, is valid and the compatibility MFA view agrees with it. */
  predicate AlignedSession(session: SessionContext) {
    session.assurance.Some? ==>
      Validate(session.assurance.value).None? && session.mfa == MfaStateOf(session.assurance.value)
  }

  /** The assurance claims carried by an access token. */
  datatype AssuranceClaims = AssuranceClaims(
    authTime: Option<int>, amr: Option<seq<string>>, acr: Option<string>)

  function ClaimsOf(session: SessionContext): AssuranceClaims {
    match session.assurance
    case None => AssuranceClaims(None, None, None)
    case Some(a) => AssuranceClaims(Some(UnixTimestamp(a.authenticatedAt)), Some(a.methods), a.acr)
  }

  datatype AssuranceMatchMode = All | Any

  datatype RecentMfaPolicy = RecentMfaPolicy(
    maximumAge: Duration,
    clockSkew: Duration,
    allowedAmr: seq<string>,
    allowedAcr: seq<string>,
    matchMode: AssuranceMatchMode)

  datatype AssuranceDenialCode =
    | AssuranceRequired
    | MfaRequired
    | AssuranceMethodNotAllowed
    | InvalidAuthenticationTime
    | AuthenticationTooOld
    | AssurancePolicyError

  predicate AllowlistsMatch(policy: RecentMfaPolicy, a: SessionAssurance) {
    var amrMatches := exists m :: m in a.methods && m in policy.allowedAmr;
    var acrMatches := a.acr.Some? && a.acr.value in policy.allowedAcr;
    match policy.matchMode
    case All => (policy.allowedAmr == [] || amrMatches) && (policy.allowedAcr == [] || acrMatches)
    case Any =>
      || (policy.allowedAmr == [] && policy.allowedAcr == [])
      || (policy.allowedAmr != [] && amrMatches)
      || (policy.allowedAcr != [] && acrMatches)
  }

  /** The comparison of token claims with the session's own assurance. */
  predicate ClaimsMatch(claims: AssuranceClaims, a: SessionAssurance, tokenTime: Time) {
    tokenTime == a.authenticatedAt && claims.amr == Some(a.methods) && claims.acr == a.acr
  }

  /** `RecentMfaPolicy::evaluate_at`: the accepted time and how long it satisfies. */
  function EvaluateAt(policy: RecentMfaPolicy, session: SessionContext, claims: AssuranceClaims, now: Time)
    : Result<(Time, Time), AssuranceDenialCode>
  {
    if policy.maximumAge < 0 || policy.clockSkew < 0 then Failure(AssurancePolicyError)
    else if session.assurance.None? then Failure(AssuranceRequired)
    else
      var a := session.assurance.value;
      if Validate(a).Some? then Failure(AssuranceRequired)
      else if a.mfa != Satisfied || !session.mfa.satisfied then Failure(MfaRequired)
      else if !AllowlistsMatch(policy, a) then Failure(AssuranceMethodNotAllowed)
      else if claims.authTime.None? then Failure(AssuranceRequired)
      else match FromUnixTimestamp(claims.authTime.value)
        case None => Failure(InvalidAuthenticationTime)
        case Some(tokenTime) =>
          if !ClaimsMatch(claims, a, tokenTime) then Failure(AssuranceRequired)
          else match CheckedAdd(now, policy.clockSkew)
            case None => Failure(AssurancePolicyError)
            case Some(latest) =>
              if tokenTime > latest then Failure(InvalidAuthenticationTime)
              else match CheckedAdd(now, -policy.maximumAge)
                case None => Failure(AssurancePolicyError)
                case Some(oldest) =>
                  if tokenTime < oldest then Failure(AuthenticationTooOld)
                  else match CheckedAdd(tokenTime, policy.maximumAge)
                    case None => Failure(AssurancePolicyError)
                    case Some(until) => Success((tokenTime, until))
  }

  predicate WholeSecond(t: int) {
    t % NANOS_PER_SECOND == 0
  }

  /** Seconds-precision claims reproduce the session's instant exactly when that
      instant is a whole second. */
  lemma MirroredTimeRoundTrips(t: Time)
    ensures FromUnixTimestamp(UnixTimestamp(t)).Some?
    ensures FromUnixTimestamp(UnixTimestamp(t)) == Some(t) <==> WholeSecond(t)
  {
    assert Representable(t);
    FlooringStaysInRange(t);
  }

  lemma FlooringStaysInRange(t: int)
    requires Representable(t)
    ensures Representable(UnixTimestamp(t) * NANOS_PER_SECOND)
    ensures UnixTimestamp(t) * NANOS_PER_SECOND == t <==> WholeSecond(t)
  {
  }

  /** The allowlists that are set, by the mode: all of them must be met, or one of them. */
  predicate Allows(policy: RecentMfaPolicy, a: SessionAssurance) {
    var byMethod := exists i :: 0 <= i < |a.methods| && a.methods[i] in policy.allowedAmr;
    var byContext := exists i :: 0 <= i < |policy.allowedAcr| && Some(policy.allowedAcr[i]) == a.acr;
    match policy.matchMode
    case All => (policy.allowedAmr != [] ==> byMethod) && (policy.allowedAcr != [] ==> byContext)
    case Any => policy.allowedAmr != [] || policy.allowedAcr != [] ==> byMethod || byContext
  }

  lemma AllowlistsAreExact(policy: RecentMfaPolicy, a: SessionAssurance)
    ensures AllowlistsMatch(policy, a) <==> Allows(policy, a)
  {
    if m :| m in a.methods && m in policy.allowedAmr {
      var i :| 0 <= i < |a.methods| && a.methods[i] == m;
    }
    if a.acr.Some? && a.acr.value in policy.allowedAcr {
      var i :| 0 <= i < |policy.allowedAcr| && policy.allowedAcr[i] == a.acr.value;
    }
  }

  /** The authentication time is recent, and every instant it is compared with is in range. */
  predicate Recent(policy: RecentMfaPolicy, at: Time, now: Time) {
    && policy.maximumAge >= 0 && policy.clockSkew >= 0
    && now - policy.maximumAge <= at <= now + policy.clockSkew
    && Representable(now - policy.maximumAge) && Representable(now + policy.clockSkew)
    && Representable(at + policy.maximumAge)
  }

  /** For any token claims: they are accepted exactly when the session has valid assurance
      that satisfies MFA, the allowlists and recency, and when they say of it just what the
      session does, to the nanosecond; it then holds for the maximum age. */
  lemma AcceptedExactly(policy: RecentMfaPolicy, session: SessionContext, claims: AssuranceClaims, now: Time)
    ensures EvaluateAt(policy, session, claims, now).Success? <==>
            && session.assurance.Some? && Validate(session.assurance.value).None?
            && session.assurance.value.mfa == Satisfied && session.mfa.satisfied
            && Allows(policy, session.assurance.value)
            && Recent(policy, session.assurance.value.authenticatedAt, now)
            && claims.authTime.Some?
            && claims.authTime.value * NANOS_PER_SECOND == session.assurance.value.authenticatedAt
            && claims.amr == Some(session.assurance.value.methods) && claims.acr == session.assurance.value.acr
    ensures EvaluateAt(policy, session, claims, now).Success? ==>
              var at := session.assurance.value.authenticatedAt;
              EvaluateAt(policy, session, claims, now).value == (at, at + policy.maximumAge)
  {
    hide AllowlistsMatch, Allows, Validate;
    if session.assurance.Some? {
      AllowlistsAreExact(policy, session.assurance.value);
      assert Representable(session.assurance.value.authenticatedAt);
    }
  }

  /** MFA accepted by the host, allowlists met, and an authentication time that is
      recent and, since token claims carry seconds, whole. */
  predicate RecentlyAssured(policy: RecentMfaPolicy, session: SessionContext, now: Time) {
    && session.assurance.Some?
    && var a := session.assurance.value;
       && a.mfa == Satisfied && Allows(policy, a)
       && WholeSecond(a.authenticatedAt) && Recent(policy, a.authenticatedAt, now)
  }

  /** For claims that mirror an aligned session, the policy answers by age,
      allowlists and MFA alone -- provided the session authenticated on a whole
      second. Otherwise it never accepts. */
  lemma MirroredSessionAcceptedExactly(policy: RecentMfaPolicy, session: SessionContext, now: Time)
    requires AlignedSession(session)
    ensures EvaluateAt(policy, session, ClaimsOf(session), now).Success? <==> RecentlyAssured(policy, session, now)
  {
    hide AllowlistsMatch, Allows, Validate, EvaluateAt;
    AcceptedExactly(policy, session, ClaimsOf(session), now);
    if session.assurance.Some? {
      MirroredTimeRoundTrips(session.assurance.value.authenticatedAt);
    }
  }
}
