/** Refresh-token records, the atomic store steps and the preparation of a
    rotation (src/models.rs, src/stores.rs, src/refresh_reuse_grace.rs, src/service.rs). */
module RefreshRecords {
  import opened Common
  import opened Dedupe
  import opened Assurance

  datatype GrantSource = Legacy | StoredUserGrant | HostGrant

  datatype RefreshableMetadata = RefreshableMetadata(
    tenantId: Option<string>,
    organizationId: Option<string>,
    actor: Option<string>,
    correlationId: Option<string>)

  const NoMetadata: RefreshableMetadata := RefreshableMetadata(None, None, None, None)

  datatype ClientMetadata = ClientMetadata(ipAddress: Option<string>, userAgent: Option<string>)

  datatype RefreshToken = RefreshToken(
    id: Id,
    userId: string,
    sessionId: Id,
    familyId: Id,
    grantSource: GrantSource,
    authorizationRoles: seq<string>,
    roles: seq<string>,
    scopes: seq<string>,
    session: SessionContext,
    metadata: Option<RefreshableMetadata>,
    tokenHash: string,
    createdAt: Time,
    expiresAt: Time,
    lastUsedAt: Option<Time>,
    revokedAt: Option<Time>,
    replacedBy: Option<Id>,
    client: ClientMetadata)
  {
    predicate Revoked() {
      revokedAt.Some?
    }

    predicate ExpiredAt(now: Time) {
      expiresAt <= now
    }
  }

  // ----- The store and its atomic steps -------------------------------------

  type Tokens = map<Id, RefreshToken>

  /** Records by id, and the index from token hash to id. */
  datatype Store = Store(tokens: Tokens, byHash: map<string, Id>)

  const EmptyStore: Store := Store(map[], map[])

  /** The index holds exactly the hashes of the stored records. */
  ghost predicate IndexedStore(store: Store) {
    && (forall id :: id in store.tokens ==>
          store.tokens[id].id == id
          && store.tokens[id].tokenHash in store.byHash
          && store.byHash[store.tokens[id].tokenHash] == id)
    && (forall h :: h in store.byHash ==>
          store.byHash[h] in store.tokens && store.tokens[store.byHash[h]].tokenHash == h)
  }

  /** Neither the identity nor the opaque token of `record` was drawn before. */
  predicate Fresh(store: Store, record: RefreshToken) {
    record.id !in store.tokens && record.tokenHash !in store.byHash
  }

  /** `insert_refresh_token`. */
  function Insert(store: Store, record: RefreshToken): Store {
    Store(store.tokens[record.id := record], store.byHash[record.tokenHash := record.id])
  }

  /** `find_refresh_token_by_hash`: revoked records are found too. */
  function FindByHash(store: Store, hash: string): Option<RefreshToken> {
    if hash in store.byHash && store.byHash[hash] in store.tokens
    then Some(store.tokens[store.byHash[hash]])
    else None
  }

  /** `revoke_refresh_token` with the service's `None` replacement: a revoked
      record is left unchanged, decided in the same atomic step. */
  function RevokeOne(store: Store, id: Id, at: Time): Store {
    if id in store.tokens && !store.tokens[id].Revoked()
    then store.(tokens := store.tokens[id := store.tokens[id].(revokedAt := Some(at), replacedBy := None)])
    else store
  }

  /** `revoke_refresh_token_family`. The records in `kept` were revoked before and
      keep their time: all of them in a store that updates only unrevoked rows,
      none of them in the in-memory store. */
  function RevokeFamily(store: Store, family: Id, at: Time, kept: set<Id>): Store {
    store.(tokens :=
      map id | id in store.tokens ::
        if store.tokens[id].familyId == family && !(id in kept && store.tokens[id].Revoked())
        then store.tokens[id].(revokedAt := Some(at))
        else store.tokens[id])
  }

  /** Whether `rotate_refresh_token` finds its current token unrevoked. */
  predicate CanRotate(store: Store, current: Id) {
    current in store.tokens && !store.tokens[current].Revoked()
  }

  /** The committed effect of `rotate_refresh_token`; otherwise nothing changes. */
  function Rotate(store: Store, current: Id, replacement: RefreshToken, at: Time, client: ClientMetadata): Store {
    if CanRotate(store, current)
    then
      var superseded := store.tokens[current].(
        lastUsedAt := Some(at), client := client,
        revokedAt := Some(at), replacedBy := Some(replacement.id));
      Insert(store.(tokens := store.tokens[current := superseded]), replacement)
    else store
  }

  /** `find_live_refresh_tokens_in_family`, expired records included. */
  function LiveInFamily(tokens: Tokens, family: Id): set<Id> {
    set id | id in tokens && tokens[id].familyId == family && !tokens[id].Revoked()
  }

  ghost predicate FamilyLive(tokens: Tokens, family: Id) {
    exists id :: id in tokens && tokens[id].familyId == family && !tokens[id].Revoked()
  }

  /** What a rotation changes: of the current record its last use, its client, its
      revocation and its replacement; and it adds the replacement, found by its hash. */
  lemma RotationIsExact(store: Store, current: Id, replacement: RefreshToken, at: Time, client: ClientMetadata)
    requires Fresh(store, replacement)
    ensures var after, swaps := Rotate(store, current, replacement, at, client),
                                current in store.tokens && store.tokens[current].revokedAt == None;
            && (!swaps ==> after == store)
            && (swaps ==>
                  && FindByHash(after, replacement.tokenHash) == Some(replacement)
                  && after.tokens.Keys == store.tokens.Keys + {replacement.id}
                  && (forall id :: id in store.tokens && id != current ==> after.tokens[id] == store.tokens[id])
                  && (forall hash :: hash in store.byHash ==> hash in after.byHash && after.byHash[hash] == store.byHash[hash])
                  && var superseded := after.tokens[current];
                     && superseded.lastUsedAt == Some(at) && superseded.client == client
                     && superseded.revokedAt == Some(at) && superseded.replacedBy == Some(replacement.id)
                     && store.tokens[current] == superseded.(lastUsedAt := store.tokens[current].lastUsedAt,
                                                             client := store.tokens[current].client,
                                                             revokedAt := None,
                                                             replacedBy := store.tokens[current].replacedBy))
  {
  }

  /** What revoking one record changes: its revocation, and its replacement, if it was live. */
  lemma RevocationIsExact(store: Store, id: Id, at: Time)
    ensures var after := RevokeOne(store, id, at);
            && after.byHash == store.byHash && after.tokens.Keys == store.tokens.Keys
            && (forall other :: other in store.tokens && other != id ==> after.tokens[other] == store.tokens[other])
            && (id in store.tokens ==>
                  var before := store.tokens[id];
                  if before.revokedAt == None
                  then after.tokens[id].revokedAt == Some(at) && after.tokens[id].replacedBy == None
                       && after.tokens[id].(revokedAt := None, replacedBy := before.replacedBy) == before
                  else after.tokens[id] == before)
  {
  }

  /** What revoking a family changes: the revocation time of its records, but for those that
      the store leaves alone because they were revoked before. */
  lemma FamilyRevocationIsExact(store: Store, family: Id, at: Time, kept: set<Id>)
    ensures var after := RevokeFamily(store, family, at, kept);
            && after.byHash == store.byHash && after.tokens.Keys == store.tokens.Keys
            && forall id :: id in store.tokens ==>
                 var before := store.tokens[id];
                 if before.familyId == family && (before.revokedAt == None || id !in kept)
                 then after.tokens[id].revokedAt == Some(at) && after.tokens[id].(revokedAt := before.revokedAt) == before
                 else after.tokens[id] == before
  {
  }

  // ----- Eligibility of a reuse ----------------------------------------------

  /** `superseded_within`. */
  predicate SupersededWithin(token: RefreshToken, now: Time, window: Duration) {
    && token.revokedAt.Some?
    && token.replacedBy.Some?
    && !token.ExpiredAt(now)
    && Abs(now - token.revokedAt.value) < window
  }

  /** `can_replace_newest`. */
  predicate CanReplaceNewest(presented: RefreshToken, newest: RefreshToken, now: Time) {
    && newest.id != presented.id
    && !newest.Revoked()
    && !newest.ExpiredAt(now)
    && newest.familyId == presented.familyId
    && newest.sessionId == presented.sessionId
    && newest.userId == presented.userId
    && newest.grantSource == presented.grantSource
  }

  // ----- Issuing the next record ---------------------------------------------

  datatype StoredUser = StoredUser(id: string, roles: seq<string>, scopes: seq<string>, disabled: bool)

  datatype Grant = Grant(roles: seq<string>, scopes: seq<string>)

  /** The signed-in user of an issued payload, with the claims of its access token. */
  datatype AuthUser = AuthUser(
    userId: string,
    sessionId: Id,
    familyId: Id,
    roles: seq<string>,
    scopes: seq<string>,
    authorizationRoles: seq<string>,
    session: SessionContext,
    metadata: RefreshableMetadata,
    claims: AssuranceClaims)

  /** What hosts and stores outside this crate answer while a record is prepared.
      They may change between any two calls. */
  datatype Answers = Answers(
    user: Option<StoredUser>,
    hostGrant: Option<Grant>,
    additionalRoles: ProviderAnswer,
    signs: bool,
    freshId: Id,
    freshHash: string)

  datatype ProviderAnswer = NoProvider | Provided(roles: seq<string>) | ProviderFails

  datatype RotationError =
    | UserMissing
    | UserDisabled
    | GrantForbidden
    | ProviderFailed
    | IssuanceFailed

  datatype Prepared = Prepared(record: RefreshToken, user: AuthUser, authority: Grant)

  /** The user of a session: de-duplicated grants and claims taken from the session. */
  function SessionUser(
    userId: string, sessionId: Id, familyId: Id, roles: seq<string>, scopes: seq<string>,
    session: SessionContext, metadata: RefreshableMetadata): AuthUser
  {
    AuthUser(userId, sessionId, familyId, Deduped(roles), Deduped(scopes), [], session, metadata, ClaimsOf(session))
  }

  function Kept(xs: seq<string>, ys: seq<string>): (kept: seq<string>)
    ensures forall x :: x in kept <==> x in xs && x in ys
  {
    if xs == [] then []
    else if xs[0] in ys then [xs[0]] + Kept(xs[1..], ys)
    else Kept(xs[1..], ys)
  }

  /** `issue_tokens_only`: the refresh record and the final user. */
  function IssueTokens(
    user: AuthUser, client: ClientMetadata, now: Time, ttl: Duration, grantSource: GrantSource,
    ceiling: Option<seq<string>>, answers: Answers): Result<(RefreshToken, AuthUser), RotationError>
  {
    if answers.additionalRoles.ProviderFails? then Failure(ProviderFailed)
    else
      var additional :=
        if answers.additionalRoles.Provided? then Deduped(answers.additionalRoles.roles) else user.authorizationRoles;
      var authorizationRoles := if ceiling.Some? then Kept(additional, ceiling.value) else additional;
      if !answers.signs || ttl <= 0 || CheckedAdd(now, ttl).None? then Failure(IssuanceFailed)
      else
        var issued := user.(authorizationRoles := authorizationRoles);
        var record := RefreshToken(
          answers.freshId, issued.userId, issued.sessionId, issued.familyId, grantSource,
          issued.authorizationRoles, issued.roles, issued.scopes, issued.session,
          if issued.metadata == NoMetadata then None else Some(issued.metadata),
          answers.freshHash, now, now + ttl, None, None, None, client);
        Success((record, issued))
  }

  /** Tokens are issued exactly when roles, keys and clock serve; the record mirrors the
      user, and keeps of the provider's roles those under the ceiling. */
  lemma IssuesExactly(
    user: AuthUser, client: ClientMetadata, now: Time, ttl: Duration, grantSource: GrantSource,
    ceiling: Option<seq<string>>, answers: Answers)
    ensures var issued := IssueTokens(user, client, now, ttl, grantSource, ceiling, answers);
            && (issued.Success? <==>
                  !answers.additionalRoles.ProviderFails? && answers.signs && ttl > 0 && Representable(now + ttl))
            && (issued.Success? ==>
                  var (record, issuedUser) := issued.value;
                  && issuedUser == user.(authorizationRoles := record.authorizationRoles)
                  && (forall r :: r in record.authorizationRoles <==>
                        && (ceiling.Some? ==> r in ceiling.value)
                        && if answers.additionalRoles.Provided? then r in answers.additionalRoles.roles
                           else r in user.authorizationRoles)
                  && record.userId == user.userId && record.sessionId == user.sessionId
                  && record.familyId == user.familyId && record.grantSource == grantSource
                  && record.roles == user.roles && record.scopes == user.scopes && record.session == user.session
                  && record.metadata == (if user.metadata == NoMetadata then None else Some(user.metadata))
                  && record.id == answers.freshId && record.tokenHash == answers.freshHash && record.client == client
                  && record.createdAt == now && record.expiresAt == now + ttl
                  && record.lastUsedAt == None && record.revokedAt == None && record.replacedBy == None)
  {
    assert Representable(now);
    if answers.additionalRoles.Provided? {
      DedupedIsFirstOccurrences(answers.additionalRoles.roles);
    }
  }

  function CurrentGrant(source: GrantSource, user: StoredUser, hostGrant: Option<Grant>): Result<Grant, RotationError> {
    match source
    case StoredUserGrant => Success(Grant(user.roles, user.scopes))
    case HostGrant => if hostGrant.Some? then Success(hostGrant.value) else Failure(GrantForbidden)
    case Legacy => Failure(GrantForbidden)
  }

  function KeptByNewest(xs: seq<string>, newest: Option<RefreshToken>, pick: RefreshToken -> seq<string>): seq<string> {
    if newest.Some? then Kept(xs, pick(newest.value)) else xs
  }

  /** `prepare_rotation`. */
  function PrepareRotation(
    source: RefreshToken, newest: Option<RefreshToken>, client: ClientMetadata,
    stepUp: Option<SessionAssurance>, now: Time, ttl: Duration, answers: Answers)
    : Result<Prepared, RotationError>
  {
    if answers.user.None? then Failure(UserMissing)
    else if answers.user.value.disabled then Failure(UserDisabled)
    else
      var user := answers.user.value;
      var authority :- CurrentGrant(source.grantSource, user, answers.hostGrant);
      var roles := KeptByNewest(Kept(source.roles, authority.roles), newest, (t: RefreshToken) => t.roles);
      var scopes := KeptByNewest(Kept(source.scopes, authority.scopes), newest, (t: RefreshToken) => t.scopes);
      var ceiling := KeptByNewest(source.authorizationRoles, newest, (t: RefreshToken) => t.authorizationRoles);
      var session := if stepUp.Some? then WithAssurance(source.session, stepUp.value) else source.session;
      var metadata := if source.metadata.Some? then source.metadata.value else NoMetadata;
      var nextUser := SessionUser(user.id, source.sessionId, source.familyId, roles, scopes, session, metadata);
      var issued :- IssueTokens(nextUser, client, now, ttl, source.grantSource, Some(ceiling), answers);
      Success(Prepared(issued.0, issued.1, authority))
  }

  /** What a rotation of `source` needs of the user store, the hosts and the issuer. */
  predicate MayRotate(source: RefreshToken, now: Time, ttl: Duration, answers: Answers) {
    && answers.user.Some? && !answers.user.value.disabled
    && (source.grantSource == StoredUserGrant || (source.grantSource == HostGrant && answers.hostGrant.Some?))
    && !answers.additionalRoles.ProviderFails?
    && answers.signs && ttl > 0 && Representable(now + ttl)
  }

  /** `authority` is what the authority named by `source` grants now. */
  predicate GrantedNow(source: GrantSource, answers: Answers, authority: Grant) {
    match source
    case StoredUserGrant =>
      answers.user.Some? && authority.roles == answers.user.value.roles && authority.scopes == answers.user.value.scopes
    case HostGrant => answers.hostGrant == Some(authority)
    case Legacy => false
  }

  /** A rotation is prepared exactly for an enabled user with a current grant, when
      roles, keys and clock serve; each failure names the first need that is not met. */
  lemma RotatesExactly(
    source: RefreshToken, newest: Option<RefreshToken>, client: ClientMetadata,
    stepUp: Option<SessionAssurance>, now: Time, ttl: Duration, answers: Answers)
    ensures var p := PrepareRotation(source, newest, client, stepUp, now, ttl, answers);
            && (p.Success? <==> MayRotate(source, now, ttl, answers))
            && (p.Success? ==> GrantedNow(source.grantSource, answers, p.value.authority))
            && (p == Failure(UserMissing) <==> answers.user.None?)
            && (p == Failure(UserDisabled) <==> answers.user.Some? && answers.user.value.disabled)
            && (p == Failure(GrantForbidden) <==>
                  && answers.user.Some? && !answers.user.value.disabled
                  && (source.grantSource == Legacy || (source.grantSource == HostGrant && answers.hostGrant.None?)))
  {
    assert Representable(now);
  }

  /** Every grant of `next` is also held by `bound`. */
  ghost predicate Narrower(next: RefreshToken, bound: RefreshToken) {
    && Within(next.roles, bound.roles)
    && Within(next.scopes, bound.scopes)
    && Within(next.authorizationRoles, bound.authorizationRoles)
  }

  function NextSession(source: RefreshToken, stepUp: Option<SessionAssurance>): SessionContext {
    if stepUp.Some? then WithAssurance(source.session, stepUp.value) else source.session
  }

  /** What the protocol relies on in a prepared record: it continues the session
      of `source`, is bounded by `source`, by `superseded` (the record it will
      replace) and by the authority just read, and is live. */
  ghost predicate Continues(
    p: Prepared, source: RefreshToken, superseded: RefreshToken, stepUp: Option<SessionAssurance>, now: Time, ttl: Duration)
  {
    var next := p.record;
    && next.familyId == source.familyId
    && next.sessionId == source.sessionId
    && next.grantSource == source.grantSource
    && next.session == NextSession(source, stepUp)
    && Narrower(next, source)
    && Narrower(next, superseded)
    && Within(next.roles, p.authority.roles)
    && Within(next.scopes, p.authority.scopes)
    && next.createdAt == now && next.expiresAt == now + ttl && ttl > 0
    && next.revokedAt == None && next.replacedBy == None
    && p.user.userId == next.userId && p.user.sessionId == next.sessionId
    && p.user.roles == next.roles && p.user.scopes == next.scopes
    && p.user.authorizationRoles == next.authorizationRoles
    && p.user.session == next.session
    && p.user.claims == ClaimsOf(next.session)
  }

  /** A prepared rotation never exceeds the source, the record it replaces or
      current authority, and mirrors the source session. */
  lemma PreparedContinues(
    source: RefreshToken, newest: Option<RefreshToken>, client: ClientMetadata,
    stepUp: Option<SessionAssurance>, now: Time, ttl: Duration, answers: Answers)
    requires PrepareRotation(source, newest, client, stepUp, now, ttl, answers).Success?
    ensures var p := PrepareRotation(source, newest, client, stepUp, now, ttl, answers).value;
            && Continues(p, source, if newest.Some? then newest.value else source, stepUp, now, ttl)
            && p.record.id == answers.freshId && p.record.tokenHash == answers.freshHash
            && p.record.userId == answers.user.value.id && p.record.client == client
            && p.record.metadata == (if source.metadata == Some(NoMetadata) then None else source.metadata)
            && p.record.lastUsedAt == None && source.grantSource != Legacy
  {
    var authority := CurrentGrant(source.grantSource, answers.user.value, answers.hostGrant).value;
    var roles := KeptByNewest(Kept(source.roles, authority.roles), newest, (t: RefreshToken) => t.roles);
    var scopes := KeptByNewest(Kept(source.scopes, authority.scopes), newest, (t: RefreshToken) => t.scopes);
    DedupedIsFirstOccurrences(roles);
    DedupedIsFirstOccurrences(scopes);
  }

  /** Exactly which grants survive a rotation: no role or scope is dropped that
      source, newest and current authority all still hold. */
  lemma PreparedKeepsExactly(
    source: RefreshToken, newest: Option<RefreshToken>, client: ClientMetadata,
    stepUp: Option<SessionAssurance>, now: Time, ttl: Duration, answers: Answers)
    requires PrepareRotation(source, newest, client, stepUp, now, ttl, answers).Success?
    ensures var p := PrepareRotation(source, newest, client, stepUp, now, ttl, answers).value;
            && GrantedNow(source.grantSource, answers, p.authority)
            && NoDuplicates(p.record.roles) && NoDuplicates(p.record.scopes)
            && (forall r :: r in p.record.roles <==>
                  r in source.roles && r in p.authority.roles && (newest.Some? ==> r in newest.value.roles))
            && (forall r :: r in p.record.scopes <==>
                  r in source.scopes && r in p.authority.scopes && (newest.Some? ==> r in newest.value.scopes))
            && (forall r :: r in p.record.authorizationRoles <==>
                  && answers.additionalRoles.Provided? && r in answers.additionalRoles.roles
                  && r in source.authorizationRoles && (newest.Some? ==> r in newest.value.authorizationRoles))
  {
    var authority := CurrentGrant(source.grantSource, answers.user.value, answers.hostGrant).value;
    var roles := KeptByNewest(Kept(source.roles, authority.roles), newest, (t: RefreshToken) => t.roles);
    var scopes := KeptByNewest(Kept(source.scopes, authority.scopes), newest, (t: RefreshToken) => t.scopes);
    DedupedIsFirstOccurrences(roles);
    DedupedIsFirstOccurrences(scopes);
    if answers.additionalRoles.Provided? {
      DedupedIsFirstOccurrences(answers.additionalRoles.roles);
    }
  }
}
