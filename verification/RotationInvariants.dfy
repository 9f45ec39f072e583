/** What every step of the rotation protocol keeps. */
module RotationInvariants {
  import opened Common
  import opened Assurance
  import opened RefreshRecords
  import opened RotationProtocol

  // ----- The family chain ----------------------------------------------------

  /** `a` was rotated into `b`, which holds no grant that `a` lacked. */
  ghost predicate Linked(tokens: Tokens, a: Id, b: Id) {
    && a in tokens && b in tokens
    && tokens[a].Revoked() && tokens[a].replacedBy == Some(b)
    && Narrower(tokens[b], tokens[a])
  }

  /** `chain` runs through records of `family` along `replacedBy`, to the one
      record that has no replacement. */
  ghost predicate Chained(tokens: Tokens, family: Id, chain: seq<Id>) {
    && |chain| > 0
    && NoDuplicates(chain)
    && (forall i :: 0 <= i < |chain| ==> chain[i] in tokens && tokens[chain[i]].familyId == family)
    && (forall i, j :: 0 <= i < j < |chain| && j == i + 1 ==> Linked(tokens, chain[i], chain[j]))
    && tokens[chain[|chain| - 1]].replacedBy == None
  }

  /** Every family is one chain, and every record is on its family's chain. */
  ghost predicate AllChained(tokens: Tokens, chains: map<Id, seq<Id>>) {
    && (forall f :: f in chains ==> Chained(tokens, f, chains[f]))
    && (forall id :: id in tokens ==> tokens[id].familyId in chains && id in chains[tokens[id].familyId])
  }

  /** A live record is the end of its chain. */
  lemma LiveIsLast(tokens: Tokens, chains: map<Id, seq<Id>>, id: Id)
    requires AllChained(tokens, chains)
    requires id in tokens && (tokens[id].Revoked() ==> tokens[id].replacedBy == None)
    ensures var chain := chains[tokens[id].familyId];
            chain[|chain| - 1] == id
  {
    var chain := chains[tokens[id].familyId];
    forall k | 0 <= k < |chain| - 1
      ensures tokens[chain[k]].Revoked() && tokens[chain[k]].replacedBy.Some?
    {
      assert Linked(tokens, chain[k], chain[k + 1]);
    }
  }

  /** Hence a family has at most one live record, and none once a record was
      revoked without a replacement. */
  lemma AtMostOneLive(tokens: Tokens, chains: map<Id, seq<Id>>, a: Id, b: Id)
    requires AllChained(tokens, chains)
    requires a in tokens && b in tokens && tokens[a].familyId == tokens[b].familyId
    requires !tokens[a].Revoked()
    requires tokens[b].Revoked() ==> tokens[b].replacedBy == None
    ensures a == b
  {
    LiveIsLast(tokens, chains, a);
    LiveIsLast(tokens, chains, b);
  }

  // ----- Agreement inside a family --------------------------------------------

  ghost predicate SameSession(cfg: Config, a: RefreshToken, b: RefreshToken) {
    && a.sessionId == b.sessionId
    && a.grantSource == b.grantSource
    && (cfg.honestUsers ==> a.userId == b.userId)
  }

  ghost predicate Uniform(cfg: Config, tokens: Tokens) {
    forall a, b :: a in tokens && b in tokens && tokens[a].familyId == tokens[b].familyId ==>
      SameSession(cfg, tokens[a], tokens[b])
  }

  // ----- What the log says about the store ------------------------------------

  /** The commit `e` is still visible in the store. Its instant is the superseded
      record's revocation time for as long as the family lives. */
  ghost predicate Witnessed(cfg: Config, tokens: Tokens, e: Event) {
    match e
    case LoggedIn(id, family, user) =>
      && id in tokens && tokens[id].familyId == family && tokens[id].session == user.session
      && user.claims == ClaimsOf(user.session)
    case Rotated(source, superseded, replacement, family, at, authority, stepUp, user) =>
      && source in tokens && superseded in tokens && replacement in tokens
      && tokens[source].familyId == tokens[superseded].familyId == tokens[replacement].familyId == family
      && tokens[superseded].Revoked() && tokens[superseded].replacedBy == Some(replacement)
      && (FamilyLive(tokens, family) ==> tokens[superseded].revokedAt == Some(at))
      && Narrower(tokens[replacement], tokens[source])
      && Narrower(tokens[replacement], tokens[superseded])
      && Within(tokens[replacement].roles, authority.roles)
      && Within(tokens[replacement].scopes, authority.scopes)
      && tokens[replacement].session == NextSession(tokens[source], stepUp)
      && tokens[replacement].session == user.session
      && user.claims == ClaimsOf(user.session)
      && (cfg.grace.None? ==> source == superseded)
      && !tokens[source].ExpiredAt(at) && !tokens[superseded].ExpiredAt(at)
      && tokens[replacement].createdAt == at && tokens[replacement].expiresAt == at + cfg.refreshTtl
  }

  /** Position `i` of the log is a rotation of the record `superseded`. */
  predicate Supersedes(log: seq<Event>, i: nat, superseded: Id) {
    i < |log| && log[i].Rotated? && log[i].superseded == superseded
  }

  /** Position `i` is a rotation that presented a record superseded by an earlier
      one, less than the window away on the committing call's clock. */
  ghost predicate InsideWindow(cfg: Config, tokens: Tokens, log: seq<Event>, i: nat)
    requires i < |log| && log[i].Rotated?
  {
    && cfg.grace.Some?
    && log[i].source in tokens && !tokens[log[i].source].ExpiredAt(log[i].at)
    && exists j :: 0 <= j < i && Supersedes(log, j, log[i].source) && Abs(log[i].at - log[j].at) < cfg.grace.value
  }

  ghost predicate LogHolds(cfg: Config, tokens: Tokens, log: seq<Event>) {
    && (forall i :: 0 <= i < |log| ==> Witnessed(cfg, tokens, log[i]))
    && (forall i, j, x :: 0 <= i < j && Supersedes(log, i, x) ==> !Supersedes(log, j, x))
    && (forall i :: 0 <= i < |log| && log[i].Rotated? && log[i].source != log[i].superseded ==>
          InsideWindow(cfg, tokens, log, i))
    && (forall id :: id in tokens && tokens[id].replacedBy.Some? ==> exists i :: Supersedes(log, i, id))
  }

  /** Where a family's assurance can come from: its login, or a step-up in it. */
  predicate Supplies(e: Event, family: Id, assurance: Option<SessionAssurance>) {
    match e
    case LoggedIn(_, f, user) => f == family && user.session.assurance == assurance
    case Rotated(_, _, _, f, _, _, stepUp, _) => f == family && stepUp.Some? && stepUp == assurance
  }

  ghost predicate Supplied(token: RefreshToken, log: seq<Event>) {
    exists i :: 0 <= i < |log| && Supplies(log[i], token.familyId, token.session.assurance)
  }

  ghost predicate AssuranceHolds(tokens: Tokens, log: seq<Event>) {
    forall id :: id in tokens ==> AlignedSession(tokens[id].session) && Supplied(tokens[id], log)
  }

  // ----- What a stale snapshot is still good for ------------------------------

  /** The fields of a record that no store step writes. */
  predicate SameDefinition(a: RefreshToken, b: RefreshToken) {
    b == a.(lastUsedAt := b.lastUsedAt, client := b.client, revokedAt := b.revokedAt, replacedBy := b.replacedBy)
  }

  /** `r` was read from the store some time ago. */
  ghost predicate Snapshot(tokens: Tokens, r: RefreshToken) {
    r.id in tokens && SameDefinition(r, tokens[r.id])
  }

  /** `r` was read as revoked: it still is, and if its family lives, its
      revocation is the one that was read. */
  ghost predicate RevokedSnapshot(tokens: Tokens, r: RefreshToken) {
    && Snapshot(tokens, r)
    && r.Revoked() && tokens[r.id].Revoked()
    && tokens[r.id].replacedBy == r.replacedBy
    && (FamilyLive(tokens, r.familyId) ==> tokens[r.id].revokedAt == r.revokedAt)
  }

  ghost predicate PreparedFor(
    cfg: Config, p: Prepared, source: RefreshToken, superseded: RefreshToken, stepUp: Option<SessionAssurance>, at: Time)
  {
    && Continues(p, source, superseded, stepUp, at, cfg.refreshTtl)
    && (cfg.honestUsers ==> p.record.userId == source.userId)
  }

  ghost predicate WellPlaced(cfg: Config, tokens: Tokens, call: Call) {
    match call.pc
    case Begun => true
    case LookingUp(_) => true
    case Expiring(existing, now) =>
      Snapshot(tokens, existing) && existing.tokenHash == call.hash && existing.ExpiredAt(now) && !existing.Revoked()
    case Preparing(existing, now) =>
      Snapshot(tokens, existing) && existing.tokenHash == call.hash && !existing.ExpiredAt(now) && !existing.Revoked()
    case Rotating(existing, next, now) =>
      && Snapshot(tokens, existing) && existing.tokenHash == call.hash && !existing.ExpiredAt(now)
      && PreparedFor(cfg, next, existing, existing, call.stepUp, now)
    case Rereading(existing, _) =>
      cfg.grace.Some? && Snapshot(tokens, existing) && existing.tokenHash == call.hash && tokens[existing.id].Revoked()
    case Reusing(presented, _, _) =>
      cfg.grace.Some? && RevokedSnapshot(tokens, presented) && presented.tokenHash == call.hash
    case FindingLive(presented, _, _, at) =>
      && cfg.grace.Some? && RevokedSnapshot(tokens, presented) && presented.tokenHash == call.hash
      && SupersededWithin(presented, at, cfg.grace.value)
    case ReusePreparing(presented, newest, _, _, at) =>
      && cfg.grace.Some? && RevokedSnapshot(tokens, presented) && presented.tokenHash == call.hash
      && SupersededWithin(presented, at, cfg.grace.value)
      && Snapshot(tokens, newest) && CanReplaceNewest(presented, newest, at)
    case ReuseRotating(presented, newest, next, _, _, at) =>
      && cfg.grace.Some? && RevokedSnapshot(tokens, presented) && presented.tokenHash == call.hash
      && SupersededWithin(presented, at, cfg.grace.value)
      && Snapshot(tokens, newest) && CanReplaceNewest(presented, newest, at)
      && PreparedFor(cfg, next, presented, newest, call.stepUp, at)
    case Condemning(family, presentedId, _, _) =>
      IsPresented(tokens, presentedId, call.hash) && tokens[presentedId].familyId == family
    case SignOutBegun(_) => true
    case SigningOutFamily(family) => HasPresentedMember(tokens, call.hash, family)
    case SigningOutOne(id) => IsPresented(tokens, id, call.hash)
    case Answered(Replay(presented, _)) => IsPresented(tokens, presented, call.hash)
    case Answered(_) => true
  }

  ghost predicate HasPresentedMember(tokens: Tokens, hash: string, family: Id) {
    exists id :: IsPresented(tokens, id, hash) && tokens[id].familyId == family
  }

  /** The record of the token that a call presented. */
  predicate IsPresented(tokens: Tokens, id: Id, hash: string) {
    id in tokens && tokens[id].tokenHash == hash
  }

  ghost predicate StepUpsValid(call: Call) {
    call.stepUp.Some? ==> Validate(call.stepUp.value).None?
  }

  ghost predicate CallsHold(cfg: Config, tokens: Tokens, calls: map<CallId, Call>) {
    forall c :: c in calls ==> WellPlaced(cfg, tokens, calls[c]) && StepUpsValid(calls[c])
  }

  ghost predicate StoreHolds(cfg: Config, store: Store, chains: map<Id, seq<Id>>, log: seq<Event>) {
    && IndexedStore(store)
    && AllChained(store.tokens, chains)
    && Uniform(cfg, store.tokens)
    && LogHolds(cfg, store.tokens, log)
    && AssuranceHolds(store.tokens, log)
  }

  ghost predicate Inv(cfg: Config, s: State) {
    StoreHolds(cfg, s.store, s.chains, s.log) && CallsHold(cfg, s.store.tokens, s.calls)
  }

  // ----- How the store may evolve ----------------------------------------------

  ghost predicate KeepsRecord(a: RefreshToken, b: RefreshToken) {
    SameDefinition(a, b) && (a.Revoked() ==> b.Revoked() && b.replacedBy == a.replacedBy)
  }

  /** The relation between the store before and after any step: records are never
      lost, redefined or un-revoked; a family that is dead stays dead; and while
      a family lives, its revoked records are frozen. */
  ghost predicate Evolves(before: Tokens, after: Tokens) {
    && (forall id :: id in before ==> id in after && KeepsRecord(before[id], after[id]))
    && (forall id :: id in before && before[id].Revoked() && FamilyLive(after, before[id].familyId) ==>
          after[id].revokedAt == before[id].revokedAt)
    && (forall id :: id in before && FamilyLive(after, before[id].familyId) ==> FamilyLive(before, before[id].familyId))
  }

  lemma StandingStillEvolves(tokens: Tokens)
    ensures Evolves(tokens, tokens)
  {
  }

  lemma EvolutionKeepsPlace(cfg: Config, before: Tokens, after: Tokens, call: Call)
    requires Evolves(before, after) && WellPlaced(cfg, before, call)
    ensures WellPlaced(cfg, after, call)
  {
  }

  lemma EvolutionKeepsCalls(cfg: Config, before: Tokens, after: Tokens, calls: map<CallId, Call>)
    requires Evolves(before, after) && CallsHold(cfg, before, calls)
    ensures CallsHold(cfg, after, calls)
  {
    forall c | c in calls
      ensures WellPlaced(cfg, after, calls[c])
    {
      EvolutionKeepsPlace(cfg, before, after, calls[c]);
    }
  }

  lemma EvolutionKeepsWitness(cfg: Config, before: Tokens, after: Tokens, e: Event)
    requires Evolves(before, after) && Witnessed(cfg, before, e)
    ensures Witnessed(cfg, after, e)
  {
  }

  lemma EvolutionKeepsAssurance(before: Tokens, after: Tokens, log: seq<Event>)
    requires Evolves(before, after) && AssuranceHolds(before, log) && after.Keys == before.Keys
    ensures AssuranceHolds(after, log)
  {
  }

  /** The log survives a step that commits nothing. */
  lemma EvolutionKeepsLog(cfg: Config, before: Tokens, after: Tokens, log: seq<Event>)
    requires Evolves(before, after) && LogHolds(cfg, before, log)
    requires forall id :: id in after && after[id].replacedBy.Some? ==>
               id in before && before[id].replacedBy.Some?
    ensures LogHolds(cfg, after, log)
  {
    forall i | 0 <= i < |log|
      ensures Witnessed(cfg, after, log[i])
    {
      EvolutionKeepsWitness(cfg, before, after, log[i]);
    }
  }

  // ----- Revocation -------------------------------------------------------------

  /** A revocation marks unrevoked records, or all of a family, and links nothing. */
  ghost predicate OnlyRevokes(before: Tokens, after: Tokens) {
    && after.Keys == before.Keys
    && (forall id :: id in before ==>
          KeepsRecord(before[id], after[id]) && (before[id].replacedBy.None? ==> after[id].replacedBy.None?))
    && Evolves(before, after)
  }

  lemma RevokeOneOnlyRevokes(store: Store, id: Id, at: Time)
    requires IndexedStore(store)
    ensures OnlyRevokes(store.tokens, RevokeOne(store, id, at).tokens)
    ensures IndexedStore(RevokeOne(store, id, at))
  {
    var before, after := store.tokens, RevokeOne(store, id, at).tokens;
    if id in before && !before[id].Revoked() {
      forall x | x in before && FamilyLive(after, before[x].familyId)
        ensures FamilyLive(before, before[x].familyId)
      {
        var y :| y in after && after[y].familyId == before[x].familyId && !after[y].Revoked();
        assert y in before && !before[y].Revoked();
      }
    }
  }

  lemma RevokeFamilyOnlyRevokes(store: Store, family: Id, at: Time, kept: set<Id>)
    requires IndexedStore(store)
    ensures OnlyRevokes(store.tokens, RevokeFamily(store, family, at, kept).tokens)
    ensures IndexedStore(RevokeFamily(store, family, at, kept))
    ensures !FamilyLive(RevokeFamily(store, family, at, kept).tokens, family)
  {
    var before, after := store.tokens, RevokeFamily(store, family, at, kept).tokens;
    forall x | x in before && FamilyLive(after, before[x].familyId)
      ensures before[x].familyId != family && FamilyLive(before, before[x].familyId)
    {
      var y :| y in after && after[y].familyId == before[x].familyId && !after[y].Revoked();
      assert y in before && !before[y].Revoked();
    }
  }

  lemma RevokingKeepsChains(before: Tokens, after: Tokens, chains: map<Id, seq<Id>>)
    requires OnlyRevokes(before, after) && AllChained(before, chains)
    ensures AllChained(after, chains)
  {
    forall f | f in chains
      ensures Chained(after, f, chains[f])
    {
      var chain := chains[f];
      assert Chained(before, f, chain);
      forall i, j | 0 <= i < j < |chain| && j == i + 1
        ensures Linked(after, chain[i], chain[j])
      {
        assert Linked(before, chain[i], chain[j]);
      }
    }
  }

  lemma RevokingKeepsStore(cfg: Config, store: Store, store': Store, chains: map<Id, seq<Id>>, log: seq<Event>)
    requires StoreHolds(cfg, store, chains, log)
    requires OnlyRevokes(store.tokens, store'.tokens) && IndexedStore(store')
    ensures StoreHolds(cfg, store', chains, log)
  {
    RevokingKeepsChains(store.tokens, store'.tokens, chains);
    EvolutionKeepsLog(cfg, store.tokens, store'.tokens, log);
    EvolutionKeepsAssurance(store.tokens, store'.tokens, log);
  }

  // ----- Rotation ---------------------------------------------------------------

  /** The one transition that adds a record to a family: `current` is superseded
      at `at` by the live record `next`. */
  ghost predicate Rotates(before: Tokens, after: Tokens, current: Id, next: RefreshToken, at: Time) {
    && current in before && !before[current].Revoked() && next.id !in before
    && after.Keys == before.Keys + {next.id}
    && after[next.id] == next
    && SameDefinition(before[current], after[current])
    && after[current].revokedAt == Some(at) && after[current].replacedBy == Some(next.id)
    && (forall id :: id in before && id != current ==> after[id] == before[id])
    && next.familyId == before[current].familyId && !next.Revoked() && next.replacedBy == None
  }

  lemma RotateRotates(store: Store, current: Id, next: RefreshToken, at: Time, client: ClientMetadata)
    requires IndexedStore(store) && CanRotate(store, current) && Fresh(store, next)
    requires next.familyId == store.tokens[current].familyId && !next.Revoked() && next.replacedBy == None
    ensures Rotates(store.tokens, Rotate(store, current, next, at, client).tokens, current, next, at)
    ensures IndexedStore(Rotate(store, current, next, at, client))
  {
  }

  lemma RotatingEvolves(before: Tokens, after: Tokens, current: Id, next: RefreshToken, at: Time)
    requires Rotates(before, after, current, next, at)
    ensures Evolves(before, after)
    ensures FamilyLive(after, next.familyId)
  {
    forall x | x in before && FamilyLive(after, before[x].familyId)
      ensures FamilyLive(before, before[x].familyId)
    {
      var y :| y in after && after[y].familyId == before[x].familyId && !after[y].Revoked();
      if y == next.id {
        assert before[current].familyId == before[x].familyId;
      } else {
        assert y in before && !before[y].Revoked();
      }
    }
  }

  lemma RotatingKeepsOtherChain(
    before: Tokens, after: Tokens, current: Id, next: RefreshToken, at: Time, family: Id, chain: seq<Id>)
    requires Rotates(before, after, current, next, at) && Chained(before, family, chain)
    requires family != next.familyId
    ensures Chained(after, family, chain)
  {
    forall i, j | 0 <= i < j < |chain| && j == i + 1
      ensures Linked(after, chain[i], chain[j])
    {
      assert Linked(before, chain[i], chain[j]);
    }
  }

  lemma RotatingExtendsChain(
    before: Tokens, after: Tokens, current: Id, next: RefreshToken, at: Time, chain: seq<Id>)
    requires Rotates(before, after, current, next, at) && Chained(before, next.familyId, chain)
    requires chain[|chain| - 1] == current && Narrower(next, before[current])
    ensures Chained(after, next.familyId, chain + [next.id])
  {
    var longer := chain + [next.id];
    forall i, j | 0 <= i < j < |longer| && j == i + 1
      ensures Linked(after, longer[i], longer[j])
    {
      if j < |chain| {
        assert Linked(before, chain[i], chain[j]);
        assert chain[i] != current;
      }
    }
  }

  lemma RotatingKeepsAllChains(
    before: Tokens, after: Tokens, current: Id, next: RefreshToken, at: Time, chains: map<Id, seq<Id>>)
    requires Rotates(before, after, current, next, at) && next.familyId in chains
    requires forall f :: f in chains ==> Chained(before, f, chains[f])
    requires var chain := chains[next.familyId]; |chain| > 0 && chain[|chain| - 1] == current
    requires Narrower(next, before[current])
    ensures var chains' := chains[next.familyId := chains[next.familyId] + [next.id]];
            forall f :: f in chains' ==> Chained(after, f, chains'[f])
  {
    RotatingExtendsChain(before, after, current, next, at, chains[next.familyId]);
    forall g | g in chains && g != next.familyId
      ensures Chained(after, g, chains[g])
    {
      RotatingKeepsOtherChain(before, after, current, next, at, g, chains[g]);
    }
  }

  lemma RotatingKeepsChains(
    before: Tokens, after: Tokens, current: Id, next: RefreshToken, at: Time, chains: map<Id, seq<Id>>)
    requires Rotates(before, after, current, next, at) && AllChained(before, chains)
    requires Narrower(next, before[current])
    ensures next.familyId in chains
    ensures AllChained(after, chains[next.familyId := chains[next.familyId] + [next.id]])
  {
    assert before[current].familyId == next.familyId;
    LiveIsLast(before, chains, current);
    RotatingKeepsAllChains(before, after, current, next, at, chains);
    RotatingKeepsCoverage(before, after, current, next, at, chains);
  }

  lemma RotatingKeepsCoverage(
    before: Tokens, after: Tokens, current: Id, next: RefreshToken, at: Time, chains: map<Id, seq<Id>>)
    requires Rotates(before, after, current, next, at) && next.familyId in chains
    requires forall id :: id in before ==> before[id].familyId in chains && id in chains[before[id].familyId]
    ensures var chains' := chains[next.familyId := chains[next.familyId] + [next.id]];
            forall id :: id in after ==> after[id].familyId in chains' && id in chains'[after[id].familyId]
  {
    var longer := chains[next.familyId] + [next.id];
    assert longer[|longer| - 1] == next.id;
    forall id | id in after && id != next.id
      ensures id in before && before[id].familyId == after[id].familyId
    {
    }
  }

  lemma RotatingKeepsUniform(
    cfg: Config, before: Tokens, after: Tokens, current: Id, next: RefreshToken, at: Time)
    requires Rotates(before, after, current, next, at) && Uniform(cfg, before)
    requires SameSession(cfg, next, before[current])
    ensures Uniform(cfg, after)
  {
    forall a | a in after && after[a].familyId == next.familyId
      ensures SameSession(cfg, after[a], next)
    {
      if a != next.id {
        assert SameSession(cfg, before[a], before[current]);
      }
    }
  }

  /** The event of a commit is witnessed by the store it leaves. */
  ghost predicate Commits(
    cfg: Config, before: Tokens, after: Tokens, log: seq<Event>, e: Event, current: Id, next: RefreshToken)
  {
    && e.Rotated? && e.superseded == current && e.replacement == next.id
    && Rotates(before, after, current, next, e.at)
    && Witnessed(cfg, after, e)
    && e.source in before
    && (e.source != e.superseded ==>
          && cfg.grace.Some? && !before[e.source].ExpiredAt(e.at)
          && exists j :: 0 <= j < |log| && Supersedes(log, j, e.source) && Abs(e.at - log[j].at) < cfg.grace.value)
  }

  lemma LongerLogKeepsWindow(cfg: Config, before: Tokens, after: Tokens, log: seq<Event>, e: Event, i: nat)
    requires Evolves(before, after)
    requires i < |log| && log[i].Rotated? && InsideWindow(cfg, before, log, i)
    ensures InsideWindow(cfg, after, log + [e], i)
  {
    var log' := log + [e];
    var j :| 0 <= j < i && Supersedes(log, j, log[i].source) && Abs(log[i].at - log[j].at) < cfg.grace.value;
    assert log'[i] == log[i] && log'[j] == log[j] && Supersedes(log', j, log'[i].source);
  }

  lemma CommitIsInsideWindow(
    cfg: Config, before: Tokens, after: Tokens, log: seq<Event>, e: Event, current: Id, next: RefreshToken)
    requires Commits(cfg, before, after, log, e, current, next) && e.source != e.superseded
    ensures InsideWindow(cfg, after, log + [e], |log|)
  {
    var log' := log + [e];
    var j :| 0 <= j < |log| && Supersedes(log, j, e.source) && Abs(e.at - log[j].at) < cfg.grace.value;
    assert log'[|log|] == e && log'[j] == log[j] && Supersedes(log', j, e.source);
  }

  lemma PrefixSupersedes(log: seq<Event>, e: Event, i: nat, x: Id)
    ensures i < |log| ==> (Supersedes(log + [e], i, x) <==> Supersedes(log, i, x))
  {
  }

  lemma CommittingKeepsLog(
    cfg: Config, before: Tokens, after: Tokens, log: seq<Event>, e: Event, current: Id, next: RefreshToken)
    requires LogHolds(cfg, before, log) && Commits(cfg, before, after, log, e, current, next)
    ensures LogHolds(cfg, after, log + [e])
  {
    RotatingEvolves(before, after, current, next, e.at);
    var log' := log + [e];
    forall i | 0 <= i < |log'|
      ensures Witnessed(cfg, after, log'[i])
    {
      if i < |log| {
        EvolutionKeepsWitness(cfg, before, after, log[i]);
      }
    }
    forall i, j, x | 0 <= i < j && Supersedes(log', i, x)
      ensures !Supersedes(log', j, x)
    {
      PrefixSupersedes(log, e, i, x);
      PrefixSupersedes(log, e, j, x);
      if j == |log| {
        assert Witnessed(cfg, before, log[i]);
      }
    }
    forall i | 0 <= i < |log'| && log'[i].Rotated? && log'[i].source != log'[i].superseded
      ensures InsideWindow(cfg, after, log', i)
    {
      if i < |log| {
        LongerLogKeepsWindow(cfg, before, after, log, e, i);
      } else {
        CommitIsInsideWindow(cfg, before, after, log, e, current, next);
      }
    }
    forall id | id in after && after[id].replacedBy.Some?
      ensures exists i :: Supersedes(log', i, id)
    {
      if id == current {
        assert Supersedes(log', |log|, id);
      } else {
        var i :| Supersedes(log, i, id);
        assert Supersedes(log', i, id);
      }
    }
  }

  lemma LongerLogSupplies(token: RefreshToken, log: seq<Event>, e: Event)
    requires Supplied(token, log)
    ensures Supplied(token, log + [e])
  {
    var i :| 0 <= i < |log| && Supplies(log[i], token.familyId, token.session.assurance);
    assert (log + [e])[i] == log[i];
  }

  lemma CommittingKeepsAssurance(
    cfg: Config, before: Tokens, after: Tokens, log: seq<Event>, e: Event, current: Id, next: RefreshToken)
    requires AssuranceHolds(before, log) && Commits(cfg, before, after, log, e, current, next)
    requires e.stepUp.Some? ==> Validate(e.stepUp.value).None?
    ensures AssuranceHolds(after, log + [e])
  {
    RotatingEvolves(before, after, current, next, e.at);
    var log' := log + [e];
    assert log'[|log|] == e;
    assert after[e.source].session == before[e.source].session;
    forall id | id in after
      ensures AlignedSession(after[id].session) && Supplied(after[id], log')
    {
      if id == next.id {
        if e.stepUp.Some? {
          assert Supplies(log'[|log|], next.familyId, next.session.assurance);
        } else {
          LongerLogSupplies(before[e.source], log, e);
        }
      } else {
        LongerLogSupplies(before[id], log, e);
      }
    }
  }

  lemma CommittingKeepsStore(
    cfg: Config, store: Store, store': Store, chains: map<Id, seq<Id>>, log: seq<Event>, e: Event, next: RefreshToken)
    requires StoreHolds(cfg, store, chains, log) && IndexedStore(store')
    requires e.Rotated? && Commits(cfg, store.tokens, store'.tokens, log, e, e.superseded, next)
    requires e.stepUp.Some? ==> Validate(e.stepUp.value).None?
    requires SameSession(cfg, next, store.tokens[e.superseded])
    ensures StoreHolds(cfg, store', Extended(chains, Some(e)), log + [e])
  {
    assert SameDefinition(store.tokens[e.superseded], store'.tokens[e.superseded]);
    RotatingKeepsChains(store.tokens, store'.tokens, e.superseded, next, e.at, chains);
    RotatingKeepsUniform(cfg, store.tokens, store'.tokens, e.superseded, next, e.at);
    CommittingKeepsLog(cfg, store.tokens, store'.tokens, log, e, e.superseded, next);
    CommittingKeepsAssurance(cfg, store.tokens, store'.tokens, log, e, e.superseded, next);
  }
}
