/** Short-lived access tokens delegated from an active session (src/service.rs,
    src/principal_reference.rs): two authoritative reads with anything in between. */
module Delegation {
  import opened Common
  import opened Assurance
  import opened Dedupe
  import opened Text
  import ScopeClaims
  import ScopeMatch

  const MAX_SESSION_VERSION_LENGTH: nat := 256
  const MAX_BINDING_LENGTH: nat := 1024

  datatype GrantKind = UserSession | Sessionless | SessionBoundDelegation

  datatype Actor = Actor(sub: string, amr: seq<string>)
  datatype Confirmation = Confirmation(x5t: Option<string>, jkt: Option<string>)
  datatype Operation = Operation(name: string, documentHash: string)
  datatype Binding = Binding(
    actor: Actor, resourceType: string, resourceId: string, correlationId: string, operation: Operation)

  datatype TokenMetadata = TokenMetadata(
    jti: Option<string>,
    tenantId: Option<string>,
    organizationId: Option<string>,
    familyId: Option<string>,
    grantKind: Option<GrantKind>,
    sessionVersion: Option<string>,
    actor: Option<Actor>,
    assurance: AssuranceClaims,
    cnf: Option<Confirmation>,
    resourceType: Option<string>,
    resourceId: Option<string>,
    correlationId: Option<string>,
    operation: Option<Operation>,
    expiresAt: Option<Time>)

  datatype User = User(
    userId: string,
    sessionId: string,
    roles: seq<string>,
    scopes: seq<string>,
    session: SessionContext,
    claims: TokenMetadata)

  datatype ApiToken = ApiToken(
    principalKind: string,
    subject: string,
    tokenId: string,
    audience: Option<string>,
    resourceType: Option<string>,
    resourceId: Option<string>,
    expiresAt: Time)

  datatype Principal = UserPrincipal(user: User) | ApiTokenPrincipal(token: ApiToken)

  datatype ReferenceKind = UserSessionKind | ApiTokenKind(principalKind: string)

  datatype Reference = Reference(
    kind: ReferenceKind,
    subject: string,
    sessionId: Option<string>,
    tokenId: Option<string>,
    familyId: Option<string>,
    grantKind: Option<GrantKind>,
    sessionVersion: Option<string>,
    tenantId: Option<string>,
    audience: Option<string>,
    resourceType: Option<string>,
    resourceId: Option<string>,
    actorSubject: Option<string>,
    expiresAt: Option<Time>,
    correlationId: Option<string>,
    operation: Option<Operation>)

  datatype DelegationError =
    | Forbidden | InvalidConfiguration | AccessTokenExpired | TokenCreation | ResolverRefused

  datatype Config = Config(
    accessTokenTtl: Duration,
    maxAccessTokenTtl: Duration,
    maxDelegationTtl: Duration,
    scopeFormat: ScopeClaims.ClaimFormat,
    legacyScopes: ScopeClaims.LegacyPolicy,
    matcher: ScopeMatch.Options)

  /** The part of `AuthConfig::validate` that matters here. */
  predicate ValidConfig(config: Config) {
    && 0 < config.maxDelegationTtl <= config.maxAccessTokenTtl
    && 0 < config.accessTokenTtl
    && !(config.scopeFormat == ScopeClaims.LegacyArray && config.legacyScopes == ScopeClaims.Reject)
  }

  // ----- References ---------------------------------------------------------------------------

  /** Grants that neither manage nor delegate a session. */
  predicate Restricted(kind: Option<GrantKind>) {
    kind == Some(Sessionless) || kind == Some(SessionBoundDelegation)
  }

  /** `AuthPrincipal::reference`. */
  function ReferenceOf(principal: Principal): Reference {
    match principal
    case UserPrincipal(user) =>
      var c := user.claims;
      Reference(UserSessionKind, user.userId, Some(user.sessionId), c.jti, c.familyId, c.grantKind, c.sessionVersion,
                c.tenantId, None, c.resourceType, c.resourceId,
                if c.actor.Some? then Some(c.actor.value.sub) else None, c.expiresAt, c.correlationId, c.operation)
    case ApiTokenPrincipal(t) =>
      Reference(ApiTokenKind(t.principalKind), t.subject, None, Some(t.tokenId), None, None, None, None, t.audience,
                t.resourceType, t.resourceId, None, Some(t.expiresAt), None, None)
  }

  /** `PrincipalReference::matches`. */
  predicate RefersTo(reference: Reference, principal: Principal) {
    var current := ReferenceOf(principal);
    match (reference.kind, current.kind)
    case (UserSessionKind, UserSessionKind) =>
      && reference.subject == current.subject
      && reference.sessionId == current.sessionId
      && reference.familyId == current.familyId
      && reference.tenantId == current.tenantId
      && !Restricted(current.grantKind)
      && if reference.grantKind == Some(SessionBoundDelegation) then
           reference.sessionVersion == current.sessionVersion
         else
           && !Restricted(reference.grantKind)
           && (reference.sessionVersion.Some? ==> current.sessionVersion == reference.sessionVersion)
           && reference.resourceType == current.resourceType
           && reference.resourceId == current.resourceId
           && reference.actorSubject == current.actorSubject
           && reference.operation == current.operation
    case (ApiTokenKind(expected), ApiTokenKind(kind)) =>
      && expected == kind
      && reference.subject == current.subject
      && reference.tokenId == current.tokenId
      && reference.audience == current.audience
      && reference.resourceType == current.resourceType
      && reference.resourceId == current.resourceId
    case _ => false
  }

  /** The reference taken of one user refers to another exactly when the other acts in the
      same session of the same tenant, at the version referred to if there is one, with the
      same resource, actor and operation; the reference of a delegated token instead needs
      the parent session at exactly its version, whatever that session is bound to. */
  lemma UserRefersExactly(earlier: User, later: User)
    ensures var a, b := earlier.claims, later.claims;
            RefersTo(ReferenceOf(UserPrincipal(earlier)), UserPrincipal(later)) <==>
              && earlier.userId == later.userId && earlier.sessionId == later.sessionId
              && a.familyId == b.familyId && a.tenantId == b.tenantId
              && a.grantKind != Some(Sessionless)
              && b.grantKind != Some(Sessionless) && b.grantKind != Some(SessionBoundDelegation)
              && if a.grantKind == Some(SessionBoundDelegation) then a.sessionVersion == b.sessionVersion
                 else
                   && (a.sessionVersion == None || a.sessionVersion == b.sessionVersion)
                   && a.resourceType == b.resourceType && a.resourceId == b.resourceId && a.operation == b.operation
                   && a.actor.Some? == b.actor.Some? && (a.actor.Some? ==> a.actor.value.sub == b.actor.value.sub)
  {
    var r, current := ReferenceOf(UserPrincipal(earlier)), ReferenceOf(UserPrincipal(later));
    var a, b := earlier.claims, later.claims;
    assert r.actorSubject == current.actorSubject <==>
           a.actor.Some? == b.actor.Some? && (a.actor.Some? ==> a.actor.value.sub == b.actor.value.sub);
    assert r.sessionId == current.sessionId <==> earlier.sessionId == later.sessionId;
  }

  /** An API token is referred to by its kind, subject, identity, audience and resource, and
      never by the reference of a user. */
  lemma TokenRefersExactly(earlier: ApiToken, later: ApiToken, user: User)
    ensures RefersTo(ReferenceOf(ApiTokenPrincipal(earlier)), ApiTokenPrincipal(later)) <==>
              earlier.(expiresAt := later.expiresAt) == later
    ensures !RefersTo(ReferenceOf(UserPrincipal(user)), ApiTokenPrincipal(later))
    ensures !RefersTo(ReferenceOf(ApiTokenPrincipal(earlier)), UserPrincipal(user))
  {
  }

  // ----- Authoritative reads ------------------------------------------------------------------

  /** A session as the host stores it. */
  datatype SessionRecord = SessionRecord(
    user: User, version: string, absoluteExpiresAt: Time, idleExpiresAt: Option<Time>, revoked: bool)

  datatype VerifiedSession = VerifiedSession(
    reference: Reference,
    user: User,
    version: string,
    absoluteExpiresAt: Time,
    idleExpiresAt: Option<Time>)

  function EffectiveExpiry(absoluteExpiresAt: Time, idleExpiresAt: Option<Time>): (t: Time)
    ensures t <= absoluteExpiresAt && (idleExpiresAt.Some? ==> t <= idleExpiresAt.value)
    ensures t == absoluteExpiresAt || Some(t) == idleExpiresAt
  {
    if idleExpiresAt.Some? && idleExpiresAt.value <= absoluteExpiresAt then idleExpiresAt.value else absoluteExpiresAt
  }

  /** `VerifiedActiveUserSession::from_authoritative_record`. */
  function FromAuthoritativeRecord(reference: Reference, record: SessionRecord, at: Time)
    : Result<VerifiedSession, DelegationError>
  {
    var current := ReferenceOf(UserPrincipal(record.user));
    if reference.kind != UserSessionKind then Failure(Forbidden)
    else if Trim(record.version) == "" || Utf8Length(record.version) > MAX_SESSION_VERSION_LENGTH
    then Failure(InvalidConfiguration)
    else if reference.sessionVersion.Some? && reference.sessionVersion.value != record.version then Failure(Forbidden)
    else if reference.subject != current.subject || reference.sessionId != current.sessionId
            || reference.familyId != current.familyId || reference.tenantId != current.tenantId
    then Failure(Forbidden)
    else if EffectiveExpiry(record.absoluteExpiresAt, record.idleExpiresAt) <= at then Failure(AccessTokenExpired)
    else
      var user := record.user.(claims := record.user.claims.(sessionVersion := Some(record.version)));
      Success(VerifiedSession(reference, user, record.version, record.absoluteExpiresAt, record.idleExpiresAt))
  }

  /** One read: what the host's store holds at that moment, if a resolver is configured. */
  datatype Read = NoResolver | Reads(record: Option<SessionRecord>, at: Time)

  /** A conforming resolver refuses absent and revoked sessions and otherwise answers
      for exactly the reference it was given. */
  function Resolve(read: Read, reference: Reference): Result<VerifiedSession, DelegationError> {
    match read
    case NoResolver => Failure(InvalidConfiguration)
    case Reads(None, _) => Failure(ResolverRefused)
    case Reads(Some(record), at) =>
      if record.revoked then Failure(ResolverRefused) else FromAuthoritativeRecord(reference, record, at)
  }

  // ----- Preparation and issuance --------------------------------------------------------------

  datatype Request = Request(
    reference: Reference,
    roles: seq<string>,
    scopes: seq<string>,
    binding: Binding,
    ttl: Option<Duration>,
    cnf: Option<Confirmation>,
    fixedAudience: Option<string>)

  predicate ValidBindingValue(value: string) {
    Trim(value) != "" && Utf8Length(value) <= MAX_BINDING_LENGTH
  }

  /** `validate_session_bound_access_token_only_request`; `None` is acceptance. */
  function RequestFault(request: Request, config: Config): Option<DelegationError> {
    var b := request.binding;
    if request.ttl.Some? && !(0 < request.ttl.value <= config.maxAccessTokenTtl) then Some(InvalidConfiguration)
    else if request.reference.kind != UserSessionKind || Restricted(request.reference.grantKind) then Some(Forbidden)
    else if !ValidBindingValue(b.actor.sub) then Some(InvalidConfiguration)
    else if request.cnf.Some? && request.cnf.value.x5t.None? && request.cnf.value.jkt.None?
    then Some(InvalidConfiguration)
    else if !ValidBindingValue(b.resourceType) || !ValidBindingValue(b.resourceId) || !ValidBindingValue(b.correlationId)
            || !ValidBindingValue(b.operation.name) || !ValidBindingValue(b.operation.documentHash)
    then Some(InvalidConfiguration)
    else None
  }

  predicate CoversAll(o: ScopeMatch.Options, held: seq<string>, wanted: seq<string>) {
    forall i :: 0 <= i < |wanted| ==> ScopeMatch.HasScope(o, held, wanted[i])
  }

  predicate KeepsBindings(held: TokenMetadata, request: Request) {
    && (held.actor.Some? ==> held.actor.value == request.binding.actor)
    && (held.cnf.Some? ==> request.cnf == held.cnf)
    && (held.resourceType.Some? ==> held.resourceType.value == request.binding.resourceType)
    && (held.resourceId.Some? ==> held.resourceId.value == request.binding.resourceId)
  }

  /** `validate_session_bound_current_authority`. */
  predicate HasAuthority(o: ScopeMatch.Options, current: User, request: Request) {
    && Within(request.roles, current.roles)
    && CoversAll(o, current.scopes, request.scopes)
    && KeepsBindings(current.claims, request)
  }

  /** A principal and the reference it was resolved from. */
  datatype Resolved = Resolved(reference: Reference, principal: Principal)

  /** `prepare_session_bound_access_token_only`, around its one read. */
  function Prepare(config: Config, source: Resolved, roles: seq<string>, scopes: seq<string>, binding: Binding, first: Read)
    : Result<Request, DelegationError>
  {
    if !source.principal.UserPrincipal? then Failure(Forbidden)
    else if source.reference.kind != UserSessionKind || Restricted(source.reference.grantKind)
            || Restricted(source.principal.user.claims.grantKind)
    then Failure(Forbidden)
    else
      var verified :- Resolve(first, source.reference);
      if verified.reference != source.reference then Failure(Forbidden)
      else
        var prepared := source.reference.(grantKind := Some(UserSession), sessionVersion := Some(verified.version));
        var request := Request(prepared, Deduped(roles), Deduped(scopes), binding, None, None, None);
        if RequestFault(request, config).Some? then Failure(RequestFault(request, config).value)
        else if !HasAuthority(config.matcher, verified.user, request) then Failure(Forbidden)
        else Success(request)
  }

  datatype Grant = Grant(user: User, expiresAt: Time, exp: int, scopeClaims: ScopeClaims.Claims)

  /** The earliest of the requested expiry, the ceiling, and the session's own expiry. */
  function GrantExpiry(config: Config, request: Request, verified: VerifiedSession, now: Time)
    : Result<Time, DelegationError>
  {
    var ttl := if request.ttl.Some? then request.ttl.value else config.accessTokenTtl;
    var requested, ceiling := CheckedAdd(now, ttl), CheckedAdd(now, config.maxDelegationTtl);
    if requested.None? || ceiling.None? then Failure(InvalidConfiguration)
    else
      var shorter := if requested.value <= ceiling.value then requested.value else ceiling.value;
      var limit := EffectiveExpiry(verified.absoluteExpiresAt, verified.idleExpiresAt);
      var expiry := if shorter <= limit then shorter else limit;
      if UnixTimestamp(expiry) <= UnixTimestamp(now) then Failure(AccessTokenExpired) else Success(expiry)
  }

  function GrantedUser(request: Request, verified: VerifiedSession, expiry: Time, jti: string): User {
    var current := verified.user;
    var b := request.binding;
    User(current.userId, current.sessionId, request.roles, request.scopes, current.session,
         TokenMetadata(Some(jti), current.claims.tenantId, current.claims.organizationId, current.claims.familyId,
                       Some(SessionBoundDelegation), Some(verified.version), Some(b.actor), ClaimsOf(current.session),
                       request.cnf, Some(b.resourceType), Some(b.resourceId), Some(b.correlationId), Some(b.operation),
                       FromUnixTimestamp(UnixTimestamp(expiry))))
  }

  /** `issue_session_bound_access_token_only`, around its one read. */
  function Issue(config: Config, request: Request, second: Read, now: Time, jti: string, signs: bool)
    : Result<Grant, DelegationError>
  {
    if request.fixedAudience.Some? then Failure(Forbidden)
    else if RequestFault(request, config).Some? then Failure(RequestFault(request, config).value)
    else
      var verified :- Resolve(second, request.reference);
      if verified.reference != request.reference then Failure(Forbidden)
      else if !HasAuthority(config.matcher, verified.user, request) then Failure(Forbidden)
      else
        var expiry :- GrantExpiry(config, request, verified, now);
        match ScopeClaims.IssuedClaims(request.scopes, config.scopeFormat)
        case Failure(_) => Failure(TokenCreation)
        case Success(claims) =>
          if !signs then Failure(TokenCreation)
          else Success(Grant(GrantedUser(request, verified, expiry, jti), expiry, UnixTimestamp(expiry), claims))
  }

  // ----- What preparation and the host's record jointly warrant --------------------------------

  /** The request that reaches issuance: prepared, then given a TTL and a confirmation. */
  predicate Finalized(request: Request, prepared: Request) {
    request == prepared.(ttl := request.ttl, cnf := request.cnf)
  }

  predicate SameSession(a: User, b: User) {
    && a.userId == b.userId && a.sessionId == b.sessionId
    && a.claims.familyId == b.claims.familyId && a.claims.tenantId == b.claims.tenantId
  }

  /** The record still is the session that was prepared, at the version that was stamped. */
  predicate StillIs(second: Read, prepared: SessionRecord) {
    && second.Reads? && second.record.Some? && !second.record.value.revoked
    && second.record.value.version == prepared.version
    && SameSession(second.record.value.user, prepared.user)
    && second.at < EffectiveExpiry(second.record.value.absoluteExpiresAt, second.record.value.idleExpiresAt)
  }

  /** A successful preparation was based on a live record, which it stamped. */
  lemma PrepareStamps(config: Config, source: Resolved, roles: seq<string>, scopes: seq<string>, binding: Binding, first: Read)
    requires Prepare(config, source, roles, scopes, binding, first).Success?
    ensures var request := Prepare(config, source, roles, scopes, binding, first).value;
            && first.Reads? && first.record.Some? && StillIs(first, first.record.value)
            && RequestFault(request, config).None? && request.fixedAudience.None?
            && request.roles == Deduped(roles) && request.scopes == Deduped(scopes) && request.binding == binding
            && request.reference.kind == UserSessionKind
            && request.reference.sessionVersion == Some(first.record.value.version)
            && request.reference.subject == first.record.value.user.userId
            && request.reference.sessionId == Some(first.record.value.user.sessionId)
            && request.reference.familyId == first.record.value.user.claims.familyId
            && request.reference.tenantId == first.record.value.user.claims.tenantId
            && Trim(first.record.value.version) != ""
            && Utf8Length(first.record.value.version) <= MAX_SESSION_VERSION_LENGTH
  {
  }

  /** The stamped reference resolves exactly on the session it was stamped from. */
  lemma ResolvesExactlySameSession(reference: Reference, prepared: SessionRecord, second: Read)
    requires reference.kind == UserSessionKind && reference.sessionVersion == Some(prepared.version)
    requires reference.subject == prepared.user.userId && reference.sessionId == Some(prepared.user.sessionId)
    requires reference.familyId == prepared.user.claims.familyId && reference.tenantId == prepared.user.claims.tenantId
    requires Trim(prepared.version) != "" && Utf8Length(prepared.version) <= MAX_SESSION_VERSION_LENGTH
    ensures Resolve(second, reference).Success? <==> StillIs(second, prepared)
    ensures Resolve(second, reference).Success? ==>
              var v := Resolve(second, reference).value;
              var record := second.record.value;
              && v.reference == reference && v.version == prepared.version
              && v.user == record.user.(claims := record.user.claims.(sessionVersion := Some(record.version)))
              && v.absoluteExpiresAt == record.absoluteExpiresAt && v.idleExpiresAt == record.idleExpiresAt
  {
  }

  /** Room for a token between now and every bound on its life, in whole seconds. */
  predicate HasLifetime(config: Config, request: Request, record: SessionRecord, now: Time) {
    var ttl := if request.ttl.Some? then request.ttl.value else config.accessTokenTtl;
    && Representable(now + ttl) && Representable(now + config.maxDelegationTtl)
    && UnixTimestamp(now) < UnixTimestamp(now + ttl)
    && UnixTimestamp(now) < UnixTimestamp(now + config.maxDelegationTtl)
    && UnixTimestamp(now) < UnixTimestamp(record.absoluteExpiresAt)
    && (record.idleExpiresAt.Some? ==> UnixTimestamp(now) < UnixTimestamp(record.idleExpiresAt.value))
  }

  lemma LifetimeIsExact(config: Config, request: Request, v: VerifiedSession, record: SessionRecord, now: Time)
    requires v.absoluteExpiresAt == record.absoluteExpiresAt && v.idleExpiresAt == record.idleExpiresAt
    ensures GrantExpiry(config, request, v, now).Success? <==> HasLifetime(config, request, record, now)
    ensures GrantExpiry(config, request, v, now).Success? ==>
              var expiry := GrantExpiry(config, request, v, now).value;
              var ttl := if request.ttl.Some? then request.ttl.value else config.accessTokenTtl;
              && expiry <= now + ttl && expiry <= now + config.maxDelegationTtl
              && expiry <= record.absoluteExpiresAt
              && (record.idleExpiresAt.Some? ==> expiry <= record.idleExpiresAt.value)
              && (expiry == now + ttl || expiry == now + config.maxDelegationTtl
                  || expiry == record.absoluteExpiresAt || Some(expiry) == record.idleExpiresAt)
              && UnixTimestamp(now) < UnixTimestamp(expiry)
  {
  }

  /** The session of `record` holds these roles, and its scopes cover these. */
  predicate Holds(o: ScopeMatch.Options, record: SessionRecord, roles: seq<string>, scopes: seq<string>) {
    && (forall r :: r in roles ==> r in record.user.roles)
    && (forall scope :: scope in scopes ==> ScopeMatch.HasScope(o, record.user.scopes, scope))
  }

  /** Whatever actor, key or resource the session of `record` is bound to, the delegation
      is bound to the same. */
  predicate AllowsBindings(record: SessionRecord, binding: Binding, cnf: Option<Confirmation>) {
    var held := record.user.claims;
    && (held.actor == None || held.actor == Some(binding.actor))
    && (held.cnf == None || held.cnf == cnf)
    && (held.resourceType == None || held.resourceType == Some(binding.resourceType))
    && (held.resourceId == None || held.resourceId == Some(binding.resourceId))
  }

  /** Visible text of at most 1024 bytes. */
  predicate Legible(value: string) {
    Trim(value) != "" && Utf8Length(value) <= 1024
  }

  predicate ValidBinding(b: Binding) {
    && Legible(b.actor.sub) && Legible(b.resourceType) && Legible(b.resourceId)
    && Legible(b.correlationId) && Legible(b.operation.name) && Legible(b.operation.documentHash)
  }

  /** The TTL and the confirmation that may be set before issuance. */
  predicate ValidTerms(request: Request, config: Config) {
    && (request.ttl.Some? ==> 0 < request.ttl.value <= config.maxAccessTokenTtl)
    && (request.cnf.Some? ==> request.cnf.value.x5t.Some? || request.cnf.value.jkt.Some?)
  }

  /** Any request is accepted exactly for a user's own session, with a legible binding and
      valid terms. */
  lemma FaultlessExactly(request: Request, config: Config)
    ensures RequestFault(request, config).None? <==>
            && ValidTerms(request, config) && ValidBinding(request.binding)
            && request.reference.kind == UserSessionKind
            && request.reference.grantKind != Some(Sessionless)
            && request.reference.grantKind != Some(SessionBoundDelegation)
  {
  }

  lemma GrantsOfDeduped(o: ScopeMatch.Options, record: SessionRecord, roles: seq<string>, scopes: seq<string>)
    ensures Within(Deduped(roles), record.user.roles) && CoversAll(o, record.user.scopes, Deduped(scopes))
            <==> Holds(o, record, roles, scopes)
  {
    DedupedIsFirstOccurrences(roles);
    DedupedIsFirstOccurrences(scopes);
    var kept := Deduped(scopes);
    assert forall scope :: scope in scopes <==> scope in kept;
    assert forall i :: 0 <= i < |kept| ==> kept[i] in kept;
  }

  /** The authority check of the code, of the record that was read. */
  lemma AuthorityIsExact(o: ScopeMatch.Options, read: Read, request: Request, roles: seq<string>, scopes: seq<string>)
    requires request.roles == Deduped(roles) && request.scopes == Deduped(scopes)
    ensures read.Reads? && read.record.Some? ==>
              var record := read.record.value;
              var stamped := record.user.(claims := record.user.claims.(sessionVersion := Some(record.version)));
              HasAuthority(o, stamped, request) <==>
                Holds(o, record, roles, scopes) && AllowsBindings(record, request.binding, request.cnf)
  {
    if read.Reads? && read.record.Some? {
      GrantsOfDeduped(o, read.record.value, roles, scopes);
    }
  }

  /** A user's own session, neither delegated nor without a session. */
  predicate MayDelegate(source: Resolved) {
    && source.principal.UserPrincipal? && source.reference.kind == UserSessionKind
    && source.reference.grantKind != Some(Sessionless) && source.reference.grantKind != Some(SessionBoundDelegation)
    && source.principal.user.claims.grantKind != Some(Sessionless)
    && source.principal.user.claims.grantKind != Some(SessionBoundDelegation)
  }

  /** The record is the live session that `reference` refers to, at its version if it has one. */
  predicate IsLiveSession(reference: Reference, read: Read) {
    && read.Reads? && read.record.Some? && !read.record.value.revoked
    && var record := read.record.value;
       && Trim(record.version) != "" && Utf8Length(record.version) <= MAX_SESSION_VERSION_LENGTH
       && (reference.sessionVersion == None || reference.sessionVersion == Some(record.version))
       && reference.subject == record.user.userId && reference.sessionId == Some(record.user.sessionId)
       && reference.familyId == record.user.claims.familyId && reference.tenantId == record.user.claims.tenantId
       && read.at < record.absoluteExpiresAt && (record.idleExpiresAt.Some? ==> read.at < record.idleExpiresAt.value)
  }

  /** Preparation succeeds exactly for a user's own session that the read shows live, with
      every role, scope and binding asked for. */
  lemma PreparedExactly(config: Config, source: Resolved, roles: seq<string>, scopes: seq<string>, binding: Binding,
                        first: Read)
    ensures Prepare(config, source, roles, scopes, binding, first).Success? <==>
            && MayDelegate(source) && IsLiveSession(source.reference, first) && ValidBinding(binding)
            && Holds(config.matcher, first.record.value, roles, scopes)
            && AllowsBindings(first.record.value, binding, None)
  {
    hide Resolve, HasAuthority, Holds, AllowsBindings, RequestFault, ValidBinding;
    if MayDelegate(source) {
      ResolvesLiveSession(source.reference, first);
    }
    if MayDelegate(source) && Resolve(first, source.reference).Success? {
      var version := Resolve(first, source.reference).value.version;
      var prepared := source.reference.(grantKind := Some(UserSession), sessionVersion := Some(version));
      var request := Request(prepared, Deduped(roles), Deduped(scopes), binding, None, None, None);
      AuthorityIsExact(config.matcher, first, request, roles, scopes);
      FaultlessExactly(request, config);
    }
  }

  lemma ResolvesLiveSession(reference: Reference, read: Read)
    requires reference.kind == UserSessionKind
    ensures Resolve(read, reference).Success? <==> IsLiveSession(reference, read)
    ensures Resolve(read, reference).Success? ==>
              var record, v := read.record.value, Resolve(read, reference).value;
              && v.reference == reference && v.version == record.version
              && v.user == record.user.(claims := record.user.claims.(sessionVersion := Some(record.version)))
  {
  }

  /** A delegated token is issued exactly when the second read still shows the session
      and version stamped at preparation, holding every requested role and scope. */
  lemma IssuedExactly(config: Config, source: Resolved, roles: seq<string>, scopes: seq<string>, binding: Binding,
                      first: Read, request: Request, second: Read, now: Time, jti: string, signs: bool)
    requires var prepared := Prepare(config, source, roles, scopes, binding, first);
             prepared.Success? && Finalized(request, prepared.value)
    ensures Issue(config, request, second, now, jti, signs).Success? <==>
            && ValidTerms(request, config)
            && StillIs(second, first.record.value)
            && Holds(config.matcher, second.record.value, roles, scopes)
            && AllowsBindings(second.record.value, binding, request.cnf)
            && HasLifetime(config, request, second.record.value, now)
            && ScopeClaims.ValidScopes(request.scopes) && signs
  {
    hide HasLifetime, GrantExpiry, Prepare, FromAuthoritativeRecord, ScopeClaims.ValidScopes;
    PrepareStamps(config, source, roles, scopes, binding, first);
    AuthorityIsExact(config.matcher, second, request, roles, scopes);
    FaultlessExactly(request, config);
    FaultlessExactly(Prepare(config, source, roles, scopes, binding, first).value, config);
    ResolvesExactlySameSession(request.reference, first.record.value, second);
    if Resolve(second, request.reference).Success? {
      LifetimeIsExact(config, request, Resolve(second, request.reference).value, second.record.value, now);
    }
  }

  /** The token says who acts, on what, with which key and for which operation. */
  predicate IsBound(claims: TokenMetadata, b: Binding, cnf: Option<Confirmation>) {
    && claims.actor == Some(b.actor) && claims.cnf == cnf
    && claims.resourceType == Some(b.resourceType) && claims.resourceId == Some(b.resourceId)
    && claims.correlationId == Some(b.correlationId) && claims.operation == Some(b.operation)
  }

  /** The earliest of the requested end, the ceiling, and the ends of the session. */
  predicate EndsFirst(t: Time, requested: int, ceiling: int, record: SessionRecord) {
    && t <= requested && t <= ceiling && t <= record.absoluteExpiresAt
    && (record.idleExpiresAt.Some? ==> t <= record.idleExpiresAt.value)
    && (t == requested || t == ceiling || t == record.absoluteExpiresAt || Some(t) == record.idleExpiresAt)
  }

  /** What an issued token carries: the session's identity, the requested grants and
      nothing more, for no longer than any of its bounds. */
  lemma GrantIsBounded(config: Config, source: Resolved, roles: seq<string>, scopes: seq<string>, binding: Binding,
                       first: Read, request: Request, second: Read, now: Time, jti: string, signs: bool)
    requires var prepared := Prepare(config, source, roles, scopes, binding, first);
             prepared.Success? && Finalized(request, prepared.value)
    requires Issue(config, request, second, now, jti, signs).Success? && ValidConfig(config)
    ensures var grant := Issue(config, request, second, now, jti, signs).value;
            var record := second.record.value;
            && SameSession(grant.user, first.record.value.user)
            && grant.user.claims.sessionVersion == Some(record.version)
            && grant.user.session == record.user.session
            && grant.user.claims.assurance == ClaimsOf(record.user.session)
            && grant.user.claims.grantKind == Some(SessionBoundDelegation)
            && grant.user.claims.organizationId == record.user.claims.organizationId
            && IsBound(grant.user.claims, binding, request.cnf)
            && AllowsBindings(record, binding, request.cnf)
            && grant.user.roles == Deduped(roles) && grant.user.scopes == Deduped(scopes)
            && Holds(config.matcher, record, roles, scopes)
            && ScopeClaims.ParsedScopes(grant.scopeClaims, config.legacyScopes) == Success(Deduped(scopes))
            && EndsFirst(grant.expiresAt, now + (if request.ttl.Some? then request.ttl.value else config.accessTokenTtl),
                         now + config.maxDelegationTtl, record)
            && grant.exp == UnixTimestamp(grant.expiresAt) && grant.user.claims.expiresAt == FromUnixTimestamp(grant.exp)
            && UnixTimestamp(now) < grant.exp <= UnixTimestamp(now + config.maxAccessTokenTtl)
  {
    PrepareStamps(config, source, roles, scopes, binding, first);
    ResolvesExactlySameSession(request.reference, first.record.value, second);
    LifetimeIsExact(config, request, Resolve(second, request.reference).value, second.record.value, now);
    AuthorityIsExact(config.matcher, second, request, roles, scopes);
    DedupedIsFirstOccurrences(scopes);
    DedupedIsIdentityOnDistinct(Deduped(scopes));
    ScopeClaims.IssuedClaimsRoundTrip(Deduped(scopes), config.scopeFormat, config.legacyScopes);
  }

  /** The reference of an issued token goes on to refer to its session just as long as that
      is the same session at the version of issuance. */
  lemma TokenFollowsSession(config: Config, request: Request, second: Read, now: Time, jti: string, signs: bool, later: User)
    requires Issue(config, request, second, now, jti, signs).Success?
    ensures var issued := Issue(config, request, second, now, jti, signs).value.user;
            && issued.claims.sessionVersion == Some(second.record.value.version)
            && (RefersTo(ReferenceOf(UserPrincipal(issued)), UserPrincipal(later)) <==>
                  SameSession(later, second.record.value.user)
                  && later.claims.sessionVersion == Some(second.record.value.version)
                  && later.claims.grantKind != Some(Sessionless) && later.claims.grantKind != Some(SessionBoundDelegation))
  {
    UserRefersExactly(Issue(config, request, second, now, jti, signs).value.user, later);
  }

  /** A delegated token cannot be delegated again, whatever it is presented with. */
  lemma DelegationsCannotDelegate(config: Config, request: Request, second: Read, now: Time, jti: string, signs: bool,
                                  reference: Reference, other: Principal, roles: seq<string>, scopes: seq<string>,
                                  binding: Binding, first: Read)
    requires Issue(config, request, second, now, jti, signs).Success?
    ensures var principal := UserPrincipal(Issue(config, request, second, now, jti, signs).value.user);
            && Prepare(config, Resolved(reference, principal), roles, scopes, binding, first) == Failure(Forbidden)
            && Prepare(config, Resolved(ReferenceOf(principal), other), roles, scopes, binding, first) == Failure(Forbidden)
            && !RefersTo(reference, principal)
  {
    GrantIsMarked(config, request, second, now, jti, signs);
    hide Issue;
  }

  lemma GrantIsMarked(config: Config, request: Request, second: Read, now: Time, jti: string, signs: bool)
    requires Issue(config, request, second, now, jti, signs).Success?
    ensures Issue(config, request, second, now, jti, signs).value.user.claims.grantKind == Some(SessionBoundDelegation)
  {
  }

  /** The access a list of scopes gives never widens through delegation, when no held
      scope is ambiguous: whatever the delegated scopes cover, the session's cover. */
  lemma DelegationNeverWidens(held: seq<string>, delegated: seq<string>, required: string)
    requires forall i :: 0 <= i < |held| ==> !ScopeMatch.IsAmbiguous(held[i])
    requires CoversAll(ScopeMatch.DEFAULT_OPTIONS, held, delegated)
    requires ScopeMatch.HasScope(ScopeMatch.DEFAULT_OPTIONS, delegated, required)
    ensures ScopeMatch.HasScope(ScopeMatch.DEFAULT_OPTIONS, held, required)
  {
    var j :| 0 <= j < |delegated| && ScopeMatch.Covers(delegated[j], required);
    assert ScopeMatch.HasScope(ScopeMatch.DEFAULT_OPTIONS, held, delegated[j]);
    var i :| 0 <= i < |held| && ScopeMatch.Covers(held[i], delegated[j]);
    ScopeMatch.UnambiguousIsTransitive(held[i], delegated[j], required);
  }

  ghost predicate NeverWidens(held: seq<string>) {
    forall d: string, required: string ::
      ScopeMatch.HasScope(ScopeMatch.DEFAULT_OPTIONS, held, d) && ScopeMatch.HasScope(ScopeMatch.DEFAULT_OPTIONS, [d], required)
      ==> ScopeMatch.HasScope(ScopeMatch.DEFAULT_OPTIONS, held, required)
  }

  lemma SingleScope(granted: string, required: string)
    ensures ScopeMatch.HasScope(ScopeMatch.DEFAULT_OPTIONS, [granted], required) <==> ScopeMatch.Covers(granted, required)
  {
    assert [granted][0] == granted;
  }

  /** That condition is needed: a session holding one ambiguous scope can delegate
      access it does not have. */
  lemma AmbiguousScopesWiden(granted: string)
    ensures NeverWidens([granted]) <==> !ScopeMatch.IsAmbiguous(granted)
  {
    forall d: string, required: string
      ensures ScopeMatch.HasScope(ScopeMatch.DEFAULT_OPTIONS, [d], required) <==> ScopeMatch.Covers(d, required)
    {
      SingleScope(d, required);
    }
    ScopeMatch.TransitiveExactly(granted);
  }
}
