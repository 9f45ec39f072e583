/** What rotation with reuse grace guarantees over whole runs, whatever the
    interleaving of calls, sign-outs, administrators and clocks. */
module RotationTheorems {
  import opened Common
  import opened Assurance
  import opened RefreshRecords
  import opened RotationProtocol
  import opened RotationInvariants
  import opened RotationSteps

  // ----- Two states of one run ---------------------------------------------------

  lemma EvolutionComposes(a: Tokens, b: Tokens, c: Tokens)
    requires Evolves(a, b) && Evolves(b, c)
    ensures Evolves(a, c)
  {
    forall id | id in a
      ensures KeepsRecord(a[id], c[id])
    {
      assert KeepsRecord(a[id], b[id]) && KeepsRecord(b[id], c[id]);
    }
    forall id | id in a && FamilyLive(c, a[id].familyId)
      ensures FamilyLive(a, a[id].familyId)
      ensures a[id].Revoked() ==> c[id].revokedAt == a[id].revokedAt
    {
      assert b[id].familyId == a[id].familyId;
    }
  }

  lemma StepEvolves(cfg: Config, run: seq<State>, steps: seq<Step>, k: nat)
    requires IsRun(cfg, run, steps) && k + 1 < |run|
    ensures Evolves(run[k].store.tokens, run[k + 1].store.tokens)
  {
    RunKeepsInv(cfg, run, steps, k);
    StepKeepsInv(cfg, run[k], steps[k]);
  }

  lemma {:induction false} RunEvolves(cfg: Config, run: seq<State>, steps: seq<Step>, j: nat, k: nat)
    requires IsRun(cfg, run, steps) && j <= k < |run|
    ensures Evolves(run[j].store.tokens, run[k].store.tokens)
    decreases k
  {
    hide *;
    if j == k {
      StandingStillEvolves(run[j].store.tokens);
    } else {
      RunEvolves(cfg, run, steps, j, k - 1);
      StepEvolves(cfg, run, steps, k - 1);
      EvolutionComposes(run[j].store.tokens, run[k - 1].store.tokens, run[k].store.tokens);
    }
  }

  /** Sign-out and replay revocation are final: a family without a live token
      never has one again, whatever calls are in flight. */
  lemma DeadFamiliesStayDead(cfg: Config, run: seq<State>, steps: seq<Step>, j: nat, k: nat, id: Id)
    requires IsRun(cfg, run, steps) && j <= k < |run|
    requires id in run[j].store.tokens && !FamilyLive(run[j].store.tokens, run[j].store.tokens[id].familyId)
    ensures id in run[k].store.tokens && !FamilyLive(run[k].store.tokens, run[j].store.tokens[id].familyId)
  {
    RunEvolves(cfg, run, steps, j, k);
  }

  /** While a family lives, a revoked record keeps its revocation time and its
      replacement; a replacement is kept even afterwards. */
  lemma RevokedRecordsAreFrozen(cfg: Config, run: seq<State>, steps: seq<Step>, j: nat, k: nat, id: Id)
    requires IsRun(cfg, run, steps) && j <= k < |run|
    requires id in run[j].store.tokens && run[j].store.tokens[id].Revoked()
    ensures id in run[k].store.tokens && run[k].store.tokens[id].Revoked()
    ensures run[k].store.tokens[id].replacedBy == run[j].store.tokens[id].replacedBy
    ensures FamilyLive(run[k].store.tokens, run[j].store.tokens[id].familyId) ==>
              run[k].store.tokens[id].revokedAt == run[j].store.tokens[id].revokedAt
  {
    RunEvolves(cfg, run, steps, j, k);
    assert KeepsRecord(run[j].store.tokens[id], run[k].store.tokens[id]);
  }

  // ----- One linear chain ----------------------------------------------------------

  predicate LogsIn(e: Event, id: Id, family: Id) {
    e.LoggedIn? && e.id == id && e.family == family
  }

  /** Every chain starts with the record of a login. */
  ghost predicate ChainsStartAtLogin(chains: map<Id, seq<Id>>, log: seq<Event>) {
    forall f :: f in chains ==>
      |chains[f]| > 0 && exists i :: 0 <= i < |log| && LogsIn(log[i], chains[f][0], f)
  }

  lemma ExtensionStartsAtLogin(chains: map<Id, seq<Id>>, log: seq<Event>, e: Event)
    requires ChainsStartAtLogin(chains, log) && (e.Rotated? ==> e.family in chains)
    ensures ChainsStartAtLogin(Extended(chains, Some(e)), log + [e])
  {
    var chains', log' := Extended(chains, Some(e)), log + [e];
    forall f | f in chains'
      ensures |chains'[f]| > 0 && exists i :: 0 <= i < |log'| && LogsIn(log'[i], chains'[f][0], f)
    {
      if e.LoggedIn? && f == e.family {
        assert LogsIn(log'[|log|], chains'[f][0], f);
      } else {
        var i :| 0 <= i < |log| && LogsIn(log[i], chains[f][0], f);
        assert log'[i] == log[i] && chains'[f][0] == chains[f][0];
      }
    }
  }

  lemma CommitExtendsKnownFamily(cfg: Config, s: State, call: Call, ch: Choices)
    requires AllChained(s.store.tokens, s.chains) && WellPlaced(cfg, s.store.tokens, call)
    requires Next(cfg, s, call, ch).event.Some?
    ensures Next(cfg, s, call, ch).event.value.family in s.chains
  {
    OnlySwapsCommit(cfg, s, call, ch);
  }

  predicate StepAppends(s: State, s': State, e: Event) {
    s'.chains == Extended(s.chains, Some(e)) && s'.log == s.log + [e] && (e.Rotated? ==> e.family in s.chains)
  }

  /** The event, if any, that a step appends. */
  lemma StepExtends(cfg: Config, s: State, step: Step)
    requires AllChained(s.store.tokens, s.chains) && CallsHold(cfg, s.store.tokens, s.calls)
    requires Enabled(cfg, s, step)
    ensures var s' := Apply(cfg, s, step);
            (s'.chains == s.chains && s'.log == s.log) || exists e :: StepAppends(s, s', e)
  {
    var s' := Apply(cfg, s, step);
    if step.Advance? {
      var call := s.calls[step.call];
      var o := Next(cfg, s, call, step.choices);
      if o.event.Some? {
        CommitExtendsKnownFamily(cfg, s, call, step.choices);
        assert StepAppends(s, s', o.event.value);
      }
    } else if step.Login? {
      var issued := IssueTokens(step.user, step.client, step.at, cfg.refreshTtl, step.source, None, step.answers).value;
      assert StepAppends(s, s', LoggedIn(issued.0.id, issued.0.familyId, issued.1));
    }
  }

  lemma StepStartsAtLogin(cfg: Config, run: seq<State>, steps: seq<Step>, k: nat)
    requires IsRun(cfg, run, steps) && k + 1 < |run| && ChainsStartAtLogin(run[k].chains, run[k].log)
    ensures ChainsStartAtLogin(run[k + 1].chains, run[k + 1].log)
  {
    hide ChainsStartAtLogin, AllChained, Uniform, LogHolds, AssuranceHolds, CallsHold, IndexedStore, Enabled, Apply;
    RunKeepsInv(cfg, run, steps, k);
    var s := run[k];
    StepExtends(cfg, s, steps[k]);
    if run[k + 1].log != s.log {
      var e :| StepAppends(s, run[k + 1], e);
      ExtensionStartsAtLogin(s.chains, s.log, e);
    }
  }

  lemma {:induction false} RunStartsAtLogin(cfg: Config, run: seq<State>, steps: seq<Step>, k: nat)
    requires IsRun(cfg, run, steps) && k < |run|
    ensures ChainsStartAtLogin(run[k].chains, run[k].log)
  {
    if k > 0 {
      RunStartsAtLogin(cfg, run, steps, k - 1);
      StepStartsAtLogin(cfg, run, steps, k - 1);
    }
  }

  /** `chain` lists exactly the records of the family of `member`, along
      `replacedBy` from a login; only its last record can be live, and none is
      once `member` was revoked without being replaced. */
  ghost predicate IsWholeFamily(tokens: Tokens, log: seq<Event>, member: Id, chain: seq<Id>)
    requires member in tokens
  {
    var family := tokens[member].familyId;
    && Chained(tokens, family, chain)
    && (forall id :: id in tokens && tokens[id].familyId == family ==> id in chain)
    && (exists i :: 0 <= i < |log| && LogsIn(log[i], chain[0], family))
    && (forall id :: id in tokens && tokens[id].familyId == family && !tokens[id].Revoked() ==>
          id == chain[|chain| - 1])
    && (tokens[member].Revoked() && tokens[member].replacedBy.None? ==> !FamilyLive(tokens, family))
  }

  lemma ChainIsWholeFamily(tokens: Tokens, chains: map<Id, seq<Id>>, log: seq<Event>, member: Id)
    requires AllChained(tokens, chains) && ChainsStartAtLogin(chains, log) && member in tokens
    ensures IsWholeFamily(tokens, log, member, chains[tokens[member].familyId])
  {
    var family := tokens[member].familyId;
    forall id | id in tokens && tokens[id].familyId == family && !tokens[id].Revoked()
      ensures id == chains[family][|chains[family]| - 1]
      ensures tokens[member].Revoked() ==> tokens[member].replacedBy.Some?
    {
      LiveIsLast(tokens, chains, id);
      if tokens[member].Revoked() && tokens[member].replacedBy.None? {
        LiveIsLast(tokens, chains, member);
      }
    }
  }

  /** In every reachable state the records of each family form one chain from the
      login record, and at most its last record is live. */
  lemma FamilyIsOneChain(cfg: Config, run: seq<State>, steps: seq<Step>, k: nat, member: Id)
    requires IsRun(cfg, run, steps) && k < |run| && member in run[k].store.tokens
    ensures exists chain :: IsWholeFamily(run[k].store.tokens, run[k].log, member, chain)
  {
    RunKeepsInv(cfg, run, steps, k);
    RunStartsAtLogin(cfg, run, steps, k);
    ChainIsWholeFamily(run[k].store.tokens, run[k].chains, run[k].log, member);
  }

  // ----- Grants never widen ----------------------------------------------------------

  lemma {:induction false} ChainNarrows(tokens: Tokens, family: Id, chain: seq<Id>, a: nat, b: nat)
    requires Chained(tokens, family, chain) && a <= b < |chain|
    ensures Narrower(tokens[chain[b]], tokens[chain[a]])
    decreases b
  {
    if a < b {
      ChainNarrows(tokens, family, chain, a, b - 1);
      assert Linked(tokens, chain[b - 1], chain[b]);
    }
  }

  ghost predicate BoundedByLogin(tokens: Tokens, log: seq<Event>, id: Id, i: nat)
    requires id in tokens
  {
    && i < |log| && log[i].LoggedIn? && log[i].family == tokens[id].familyId
    && log[i].id in tokens && Narrower(tokens[id], tokens[log[i].id])
  }

  lemma ChainIsBounded(tokens: Tokens, chains: map<Id, seq<Id>>, log: seq<Event>, id: Id)
    requires AllChained(tokens, chains) && ChainsStartAtLogin(chains, log) && id in tokens
    ensures exists i :: BoundedByLogin(tokens, log, id, i)
  {
    var f := tokens[id].familyId;
    var chain := chains[f];
    var n :| 0 <= n < |chain| && chain[n] == id;
    ChainNarrows(tokens, f, chain, 0, n);
    var i :| 0 <= i < |log| && LogsIn(log[i], chain[0], f);
    assert BoundedByLogin(tokens, log, id, i);
  }

  /** Every record is bounded by the record of its family's login. */
  lemma GrantsNeverWiden(cfg: Config, run: seq<State>, steps: seq<Step>, k: nat, id: Id)
    requires IsRun(cfg, run, steps) && k < |run| && id in run[k].store.tokens
    ensures exists i :: BoundedByLogin(run[k].store.tokens, run[k].log, id, i)
  {
    RunKeepsInv(cfg, run, steps, k);
    RunStartsAtLogin(cfg, run, steps, k);
    ChainIsBounded(run[k].store.tokens, run[k].chains, run[k].log, id);
  }

  /** Each committed rotation, for as long as the run goes on: the new record is
      within the record it replaced, within the one that was presented, and within
      the authority that the committing call had read when it prepared. */
  lemma EachRotationNarrows(cfg: Config, run: seq<State>, steps: seq<Step>, k: nat, i: nat)
    requires IsRun(cfg, run, steps) && k < |run| && i < |run[k].log| && run[k].log[i].Rotated?
    ensures var e, tokens := run[k].log[i], run[k].store.tokens;
            && e.source in tokens && e.superseded in tokens && e.replacement in tokens
            && tokens[e.superseded].replacedBy == Some(e.replacement)
            && Narrower(tokens[e.replacement], tokens[e.superseded])
            && Narrower(tokens[e.replacement], tokens[e.source])
            && Within(tokens[e.replacement].roles, e.authority.roles)
            && Within(tokens[e.replacement].scopes, e.authority.scopes)
    ensures AuthorityWasRead(run, steps, k, i)
  {
    RunKeepsInv(cfg, run, steps, k);
    assert Witnessed(cfg, run[k].store.tokens, run[k].log[i]);
    EventAuthorityWasRead(cfg, run, steps, k, i);
  }

  /** The record on whose behalf a call prepares a rotation. */
  function Prepares(pc: Pc): Option<RefreshToken> {
    match pc
    case Preparing(existing, _) => Some(existing)
    case ReusePreparing(presented, _, _, _, _) => Some(presented)
    case _ => None
  }

  /** In step `m` call `c` prepared for `source`: its user was enabled, and `authority` was
      the current grant. */
  predicate ReadsAuthority(run: seq<State>, steps: seq<Step>, m: nat, c: CallId, source: Id, authority: Grant) {
    && m < |run| && m < |steps| && steps[m].Advance? && steps[m].call == c && c in run[m].calls
    && var token, answers := Prepares(run[m].calls[c].pc), steps[m].choices.answers;
       && token.Some? && token.value.id == source && answers.user.Some? && !answers.user.value.disabled
       && GrantedNow(token.value.grantSource, answers, authority)
  }

  /** Step `n` of call `c` appended the event at position `i`. */
  predicate AppendsAt(run: seq<State>, steps: seq<Step>, n: nat, c: CallId, i: nat) {
    && n + 1 < |run| && n < |steps| && steps[n].Advance? && steps[n].call == c
    && |run[n].log| == i && |run[n + 1].log| == i + 1
  }

  /** The call that committed a rotation had read the authority that the event names. */
  ghost predicate AuthorityWasRead(run: seq<State>, steps: seq<Step>, k: nat, i: nat)
    requires k < |run| && i < |run[k].log| && run[k].log[i].Rotated?
  {
    exists c: CallId, m: nat, n: nat ::
      && m < n < k && AppendsAt(run, steps, n, c, i)
      && ReadsAuthority(run, steps, m, c, run[k].log[i].source, run[k].log[i].authority)
  }

  /** The record and the prepared rotation that a call is about to commit. */
  function PendingRotation(pc: Pc): Option<(Id, Grant)> {
    match pc
    case Rotating(existing, next, _) => Some((existing.id, next.authority))
    case ReuseRotating(presented, _, next, _, _, _) => Some((presented.id, next.authority))
    case _ => None
  }

  lemma PreparingReads(cfg: Config, run: seq<State>, steps: seq<Step>, k: nat, c: CallId)
    requires k < |run| && k < |steps| && steps[k].Advance? && steps[k].call == c && c in run[k].calls
    requires PendingRotation(Next(cfg, run[k], run[k].calls[c], steps[k].choices).pc).Some?
    requires !run[k].calls[c].pc.Answered?
    ensures var pending := PendingRotation(Next(cfg, run[k], run[k].calls[c], steps[k].choices).pc).value;
            ReadsAuthority(run, steps, k, c, pending.0, pending.1)
  {
    hide PrepareRotation;
    var call, answers := run[k].calls[c], steps[k].choices.answers;
    if call.pc.Preparing? {
      PreparationReads(call.pc.existing, None, call.client, call.stepUp, call.pc.now, cfg.refreshTtl, answers);
    } else if call.pc.ReusePreparing? {
      PreparationReads(call.pc.presented, Some(call.pc.newest), call.client, call.stepUp, call.pc.at, cfg.refreshTtl, answers);
    }
  }

  lemma PreparationReads(
    source: RefreshToken, newest: Option<RefreshToken>, client: ClientMetadata,
    stepUp: Option<SessionAssurance>, now: Time, ttl: Duration, answers: Answers)
    ensures var p := PrepareRotation(source, newest, client, stepUp, now, ttl, answers);
            p.Success? ==>
              && answers.user.Some? && !answers.user.value.disabled
              && GrantedNow(source.grantSource, answers, p.value.authority)
  {
    RotatesExactly(source, newest, client, stepUp, now, ttl, answers);
  }

  lemma {:induction false} PendingAuthorityWasRead(cfg: Config, run: seq<State>, steps: seq<Step>, k: nat, c: CallId)
    requires IsRun(cfg, run, steps) && k < |run| && c in run[k].calls && PendingRotation(run[k].calls[c].pc).Some?
    ensures var pending := PendingRotation(run[k].calls[c].pc).value;
            exists m: nat :: m < k && ReadsAuthority(run, steps, m, c, pending.0, pending.1)
  {
    hide Next;
    if k > 0 {
      CallMoves(cfg, run, steps, k - 1, c);
      if c in run[k - 1].calls && run[k].calls[c] == run[k - 1].calls[c] {
        PendingAuthorityWasRead(cfg, run, steps, k - 1, c);
      } else {
        PreparingReads(cfg, run, steps, k - 1, c);
      }
    }
  }

  predicate AppendsLogin(log: seq<Event>, longer: seq<Event>) {
    |longer| == |log| + 1 && log <= longer && longer[|log|].LoggedIn?
  }

  /** What one step appends to the log. */
  lemma LogMoves(cfg: Config, run: seq<State>, steps: seq<Step>, k: nat)
    requires IsRun(cfg, run, steps) && k + 1 < |run|
    ensures || run[k + 1].log == run[k].log
            || AppendsLogin(run[k].log, run[k + 1].log)
            || (steps[k].Advance? && steps[k].call in run[k].calls
                && var o := Next(cfg, run[k], run[k].calls[steps[k].call], steps[k].choices);
                   o.event.Some? && run[k + 1].log == run[k].log + [o.event.value])
  {
    assert Enabled(cfg, run[k], steps[k]) && run[k + 1] == Apply(cfg, run[k], steps[k]);
  }

  lemma CommitIsPending(cfg: Config, s: State, call: Call, ch: Choices)
    requires Next(cfg, s, call, ch).event.Some? && Next(cfg, s, call, ch).event.value.Rotated?
    ensures var e := Next(cfg, s, call, ch).event.value; PendingRotation(call.pc) == Some((e.source, e.authority))
  {
  }

  lemma {:induction false} EventAuthorityWasRead(cfg: Config, run: seq<State>, steps: seq<Step>, k: nat, i: nat)
    requires IsRun(cfg, run, steps) && k < |run| && i < |run[k].log| && run[k].log[i].Rotated?
    ensures AuthorityWasRead(run, steps, k, i)
  {
    hide Next, ReadsAuthority;
    if k > 0 {
      LogMoves(cfg, run, steps, k - 1);
      if i < |run[k - 1].log| {
        EventAuthorityWasRead(cfg, run, steps, k - 1, i);
      } else {
        var c := steps[k - 1].call;
        CommitIsPending(cfg, run[k - 1], run[k - 1].calls[c], steps[k - 1].choices);
        PendingAuthorityWasRead(cfg, run, steps, k - 1, c);
        assert AppendsAt(run, steps, k - 1, c, i);
      }
    }
  }

  // ----- Assurance -------------------------------------------------------------------

  /** The assurance of a record is its login's or one supplied by a step-up in its
      family. One rotation carries the assurance of the token that was presented,
      replaced only by the call's own step-up. */
  lemma AssuranceHasAnOrigin(cfg: Config, run: seq<State>, steps: seq<Step>, k: nat, id: Id)
    requires IsRun(cfg, run, steps) && k < |run| && id in run[k].store.tokens
    ensures AlignedSession(run[k].store.tokens[id].session)
    ensures exists i :: 0 <= i < |run[k].log| &&
                        Supplies(run[k].log[i], run[k].store.tokens[id].familyId, run[k].store.tokens[id].session.assurance)
    ensures forall i :: 0 <= i < |run[k].log| && run[k].log[i].Rotated? ==>
                          var e := run[k].log[i];
                          && e.source in run[k].store.tokens && e.replacement in run[k].store.tokens
                          && run[k].store.tokens[e.replacement].session
                             == NextSession(run[k].store.tokens[e.source], e.stepUp)
  {
    RunKeepsInv(cfg, run, steps, k);
    assert Supplied(run[k].store.tokens[id], run[k].log);
    forall i | 0 <= i < |run[k].log| && run[k].log[i].Rotated?
      ensures Witnessed(cfg, run[k].store.tokens, run[k].log[i])
    {
    }
  }

  lemma IssuedUserIsMirrored(cfg: Config, tokens: Tokens, log: seq<Event>, i: nat)
    requires LogHolds(cfg, tokens, log) && AssuranceHolds(tokens, log) && i < |log|
    ensures AlignedSession(log[i].user.session) && log[i].user.claims == ClaimsOf(log[i].user.session)
  {
    assert Witnessed(cfg, tokens, log[i]);
    var id := if log[i].LoggedIn? then log[i].id else log[i].replacement;
    assert AlignedSession(tokens[id].session);
  }

  /** For every payload ever issued, the recent-MFA policy decides by MFA,
      allowlists, age and sub-second precision of the authentication time only:
      the access-token claims never disagree with the session. */
  lemma IssuedClaimsSatisfyPolicy(
    cfg: Config, run: seq<State>, steps: seq<Step>, k: nat, i: nat, policy: RecentMfaPolicy, now: Time)
    requires IsRun(cfg, run, steps) && k < |run| && i < |run[k].log|
    ensures var user := run[k].log[i].user;
            EvaluateAt(policy, user.session, user.claims, now).Success? <==> RecentlyAssured(policy, user.session, now)
  {
    RunKeepsInv(cfg, run, steps, k);
    IssuedUserIsMirrored(cfg, run[k].store.tokens, run[k].log, i);
    MirroredSessionAcceptedExactly(policy, run[k].log[i].user.session, now);
  }

  // ----- One window per token ----------------------------------------------------------

  /** Position `j` is the only rotation that superseded `token`, and every reuse of
      `token` comes later and strictly inside the window around it. */
  ghost predicate OneWindow(cfg: Config, log: seq<Event>, token: Id, j: nat) {
    && Supersedes(log, j, token) && cfg.grace.Some?
    && (forall j': nat :: Supersedes(log, j', token) ==> j' == j)
    && (forall i :: 0 <= i < |log| && Reuses(log[i], token) ==>
          j < i && Abs(log[i].at - log[j].at) < cfg.grace.value)
  }

  lemma SupersededOnce(cfg: Config, tokens: Tokens, log: seq<Event>, i: nat, j: nat, token: Id)
    requires LogHolds(cfg, tokens, log) && Supersedes(log, i, token) && Supersedes(log, j, token)
    ensures i == j
  {
  }

  lemma ReuseIsInside(cfg: Config, tokens: Tokens, log: seq<Event>, i: nat, token: Id) returns (j: nat)
    requires LogHolds(cfg, tokens, log) && i < |log| && Reuses(log[i], token)
    ensures cfg.grace.Some? && j < i && Supersedes(log, j, token) && Abs(log[i].at - log[j].at) < cfg.grace.value
  {
    assert InsideWindow(cfg, tokens, log, i);
    j :| 0 <= j < i && Supersedes(log, j, token) && Abs(log[i].at - log[j].at) < cfg.grace.value;
  }

  lemma LogHasOneWindow(cfg: Config, tokens: Tokens, log: seq<Event>, i0: nat, token: Id)
    requires LogHolds(cfg, tokens, log) && i0 < |log| && Reuses(log[i0], token)
    ensures exists j :: OneWindow(cfg, log, token, j)
  {
    var j := ReuseIsInside(cfg, tokens, log, i0, token);
    forall j': nat | Supersedes(log, j', token)
      ensures j' == j
    {
      SupersededOnce(cfg, tokens, log, j', j, token);
    }
    forall i | 0 <= i < |log| && Reuses(log[i], token)
      ensures j < i && Abs(log[i].at - log[j].at) < cfg.grace.value
    {
      var m := ReuseIsInside(cfg, tokens, log, i, token);
    }
    assert OneWindow(cfg, log, token, j);
  }

  /** All accepted reuses of one token, even those decided on a stale read, are
      measured against the one rotation that superseded it. */
  lemma ReusesShareOneWindow(cfg: Config, run: seq<State>, steps: seq<Step>, k: nat, i: nat, token: Id)
    requires IsRun(cfg, run, steps) && k < |run|
    requires i < |run[k].log| && Reuses(run[k].log[i], token)
    ensures exists j :: OneWindow(cfg, run[k].log, token, j)
  {
    RunKeepsInv(cfg, run, steps, k);
    LogHasOneWindow(cfg, run[k].store.tokens, run[k].log, i, token);
  }

  /** A rotation on behalf of an already superseded token. */
  predicate Reuses(e: Event, token: Id) {
    e.Rotated? && e.source == token && e.source != e.superseded
  }

  /** With the grace off, a token is the source of at most one rotation in a run. */
  lemma WithoutGraceTokensRotateOnce(cfg: Config, run: seq<State>, steps: seq<Step>, k: nat, i: nat, j: nat)
    requires IsRun(cfg, run, steps) && k < |run| && cfg.grace.None?
    requires i < j < |run[k].log| && run[k].log[i].Rotated? && run[k].log[j].Rotated?
    ensures run[k].log[i].source != run[k].log[j].source
  {
    RunKeepsInv(cfg, run, steps, k);
    var log, tokens := run[k].log, run[k].store.tokens;
    assert Witnessed(cfg, tokens, log[i]) && Witnessed(cfg, tokens, log[j]);
    assert Supersedes(log, i, log[i].superseded);
    assert !Supersedes(log, j, log[i].superseded);
  }

  // ----- Answers and commits ------------------------------------------------------------

  /** Position `i` of the log is the commit that `call` answered with. It was made
      for the token the call presented, with the step-up the call carried. */
  ghost predicate CommittedBy(s: State, call: Call, i: nat) {
    && i < |s.log| && s.log[i].Rotated?
    && call.pc == Answered(Issued(s.log[i].replacement))
    && s.log[i].replacement in s.store.tokens
    && s.log[i].source in s.store.tokens && s.store.tokens[s.log[i].source].tokenHash == call.hash
    && s.log[i].stepUp == call.stepUp
  }

  ghost predicate Committed(s: State, call: Call) {
    exists i :: CommittedBy(s, call, i)
  }

  predicate Succeeded(s: State, c: CallId) {
    c in s.calls && s.calls[c].pc.Answered? && s.calls[c].pc.answer.Issued?
  }

  lemma CommitAnswers(cfg: Config, s: State, call: Call, ch: Choices)
    requires WellPlaced(cfg, s.store.tokens, call) && !call.pc.Answered?
    requires PendingRecord(call.pc).Some? ==> Fresh(s.store, PendingRecord(call.pc).value)
    requires Next(cfg, s, call, ch).pc.Answered? && Next(cfg, s, call, ch).pc.answer.Issued?
    ensures Next(cfg, s, call, ch).pc.answer.token !in s.store.tokens
    ensures var o := Next(cfg, s, call, ch);
            && o.event.Some?
            && CommittedBy(s.(store := o.store, log := Logged(s.log, o.event)), call.(pc := o.pc), |s.log|)
  {
  }

  lemma StepThatIssues(cfg: Config, run: seq<State>, steps: seq<Step>, k: nat, c: CallId)
    requires IsRun(cfg, run, steps) && k + 1 < |run|
    requires Succeeded(run[k + 1], c) && !Succeeded(run[k], c)
    ensures CommittedBy(run[k + 1], run[k + 1].calls[c], |run[k].log|)
    ensures run[k + 1].calls[c].pc.answer.token !in run[k].store.tokens
    ensures steps[k].Advance? && steps[k].call == c
  {
    RunKeepsInv(cfg, run, steps, k);
    CallMoves(cfg, run, steps, k, c);
    var call, ch := run[k].calls[c], steps[k].choices;
    CommitAnswers(cfg, run[k], call, ch);
  }

  lemma CommitStaysKnown(before: State, after: State, call: Call, i: nat)
    requires CommittedBy(before, call, i) && before.log <= after.log
    requires Evolves(before.store.tokens, after.store.tokens)
    ensures CommittedBy(after, call, i)
  {
    assert after.log[i] == before.log[i];
    assert KeepsRecord(before.store.tokens[before.log[i].source], after.store.tokens[before.log[i].source]);
  }

  lemma AnswersStay(cfg: Config, run: seq<State>, steps: seq<Step>, k: nat, c: CallId)
    requires IsRun(cfg, run, steps) && k + 1 < |run| && Succeeded(run[k], c)
    ensures c in run[k + 1].calls && run[k + 1].calls[c] == run[k].calls[c]
    ensures run[k].log <= run[k + 1].log
  {
    assert Enabled(cfg, run[k], steps[k]) && run[k + 1] == Apply(cfg, run[k], steps[k]);
  }

  lemma StepKeepsCommit(cfg: Config, run: seq<State>, steps: seq<Step>, k: nat, c: CallId)
    requires IsRun(cfg, run, steps) && k + 1 < |run| && Succeeded(run[k], c)
    requires Committed(run[k], run[k].calls[c])
    ensures Succeeded(run[k + 1], c) && Committed(run[k + 1], run[k + 1].calls[c])
  {
    var i: nat :| CommittedBy(run[k], run[k].calls[c], i);
    AnswersStay(cfg, run, steps, k, c);
    RunEvolves(cfg, run, steps, k, k + 1);
    CommitStaysKnown(run[k], run[k + 1], run[k].calls[c], i);
  }

  /** Every successful answer is one commit in the log. */
  lemma {:induction false} SuccessIsCommitted(cfg: Config, run: seq<State>, steps: seq<Step>, k: nat, c: CallId)
    requires IsRun(cfg, run, steps) && k < |run| && Succeeded(run[k], c)
    ensures Committed(run[k], run[k].calls[c])
  {
    if k > 0 {
      if Succeeded(run[k - 1], c) {
        SuccessIsCommitted(cfg, run, steps, k - 1, c);
        StepKeepsCommit(cfg, run, steps, k - 1, c);
      } else {
        StepThatIssues(cfg, run, steps, k - 1, c);
      }
    }
  }

  /** No two calls are answered with the same new token. */
  lemma {:induction false} SuccessesDiffer(
    cfg: Config, run: seq<State>, steps: seq<Step>, k: nat, c: CallId, d: CallId)
    requires IsRun(cfg, run, steps) && k < |run| && c != d && Succeeded(run[k], c) && Succeeded(run[k], d)
    ensures run[k].calls[c].pc.answer.token != run[k].calls[d].pc.answer.token
  {
    if k > 0 {
      if Succeeded(run[k - 1], c) && Succeeded(run[k - 1], d) {
        SuccessesDiffer(cfg, run, steps, k - 1, c, d);
      }
      StepKeepsDifference(cfg, run, steps, k - 1, c, d);
    }
  }

  lemma StepKeepsDifference(cfg: Config, run: seq<State>, steps: seq<Step>, k: nat, c: CallId, d: CallId)
    requires IsRun(cfg, run, steps) && k + 1 < |run| && c != d
    requires Succeeded(run[k + 1], c) && Succeeded(run[k + 1], d)
    requires Succeeded(run[k], c) && Succeeded(run[k], d) ==>
               run[k].calls[c].pc.answer.token != run[k].calls[d].pc.answer.token
    ensures run[k + 1].calls[c].pc.answer.token != run[k + 1].calls[d].pc.answer.token
  {
    if Succeeded(run[k], c) {
      if Succeeded(run[k], d) {
        AnswersStay(cfg, run, steps, k, c);
        AnswersStay(cfg, run, steps, k, d);
      } else {
        NewSuccessDiffers(cfg, run, steps, k, c, d);
      }
    } else {
      StepThatIssues(cfg, run, steps, k, c);
      if Succeeded(run[k], d) {
        NewSuccessDiffers(cfg, run, steps, k, d, c);
      } else {
        StepThatIssues(cfg, run, steps, k, d);
      }
    }
  }

  lemma NewSuccessDiffers(cfg: Config, run: seq<State>, steps: seq<Step>, k: nat, earlier: CallId, later: CallId)
    requires IsRun(cfg, run, steps) && k + 1 < |run|
    requires Succeeded(run[k], earlier) && !Succeeded(run[k], later) && Succeeded(run[k + 1], later)
    ensures Succeeded(run[k + 1], earlier)
    ensures run[k + 1].calls[earlier].pc.answer.token != run[k + 1].calls[later].pc.answer.token
  {
    SuccessIsCommitted(cfg, run, steps, k, earlier);
    StepThatIssues(cfg, run, steps, k, later);
    AnswersStay(cfg, run, steps, k, earlier);
  }

  /** With the grace off, at most one of all calls presenting a token ever succeeds. */
  lemma WithoutGraceOneCallSucceeds(
    cfg: Config, run: seq<State>, steps: seq<Step>, k: nat, c: CallId, d: CallId)
    requires IsRun(cfg, run, steps) && k < |run| && cfg.grace.None?
    requires c != d && Succeeded(run[k], c) && Succeeded(run[k], d)
    ensures run[k].calls[c].hash != run[k].calls[d].hash
  {
    SuccessIsCommitted(cfg, run, steps, k, c);
    SuccessIsCommitted(cfg, run, steps, k, d);
    SuccessesDiffer(cfg, run, steps, k, c, d);
    var i: nat :| CommittedBy(run[k], run[k].calls[c], i);
    var j: nat :| CommittedBy(run[k], run[k].calls[d], j);
    if i < j {
      WithoutGraceTokensRotateOnce(cfg, run, steps, k, i, j);
    } else {
      WithoutGraceTokensRotateOnce(cfg, run, steps, k, j, i);
    }
    HashIsOneRecord(cfg, run, steps, k, run[k].log[i].source, run[k].log[j].source);
  }

  lemma HashIsOneRecord(cfg: Config, run: seq<State>, steps: seq<Step>, k: nat, a: Id, b: Id)
    requires IsRun(cfg, run, steps) && k < |run| && a in run[k].store.tokens && b in run[k].store.tokens
    ensures run[k].store.tokens[a].tokenHash == run[k].store.tokens[b].tokenHash ==> a == b
  {
    RunKeepsInv(cfg, run, steps, k);
  }

  // ----- Replay -----------------------------------------------------------------------

  /** A moment at which refusing `presented` is right, for a clock that read `at`. */
  ghost predicate Excuse(cfg: Config, s: State, presented: Id, at: Time) {
    && presented in s.store.tokens
    && var token := s.store.tokens[presented];
       || token.ExpiredAt(at)
       || NoUnexpiredLive(s.store.tokens, token.familyId, at)
       || (cfg.grace.Some? && exists j: nat :: Supersedes(s.log, j, presented) && Abs(at - s.log[j].at) >= cfg.grace.value)
       || (!cfg.honestUsers && exists id :: id in s.store.tokens && !s.store.tokens[id].Revoked()
                                            && s.store.tokens[id].familyId == token.familyId
                                            && s.store.tokens[id].userId != token.userId)
  }

  ghost predicate NoUnexpiredLive(tokens: Tokens, family: Id, at: Time) {
    forall id :: id in tokens && tokens[id].familyId == family && !tokens[id].Revoked() ==> tokens[id].ExpiredAt(at)
  }

  /** A call's position rests on the clock value `at`. */
  predicate RestsOn(pc: Pc, at: Time) {
    match pc
    case LookingUp(now) => at == now
    case Expiring(_, now) => at == now
    case Preparing(_, now) => at == now
    case Rotating(_, _, now) => at == now
    case Rereading(_, now) => at == now
    case Reusing(_, now, _) => at == now
    case FindingLive(_, now, _, a) => at == now || at == a
    case ReusePreparing(_, _, now, _, a) => at == now || at == a
    case ReuseRotating(_, _, _, now, _, a) => at == now || at == a
    case Condemning(_, _, now, a) => at == now || at == a
    case Answered(Replay(_, a)) => at == a
    case _ => false
  }

  predicate Condemned(pc: Pc, presented: Id, at: Time) {
    || (pc.Condemning? && pc.presentedId == presented && pc.at == at)
    || pc == Answered(Replay(presented, at))
  }

  lemma UnreplacedMeansDead(tokens: Tokens, chains: map<Id, seq<Id>>, presented: RefreshToken)
    requires AllChained(tokens, chains) && RevokedSnapshot(tokens, presented) && presented.replacedBy.None?
    ensures !FamilyLive(tokens, presented.familyId)
  {
    forall live | live in tokens && tokens[live].familyId == presented.familyId
      ensures tokens[live].Revoked()
    {
      if !tokens[live].Revoked() {
        AtMostOneLive(tokens, chains, live, presented.id);
      }
    }
  }

  lemma SupersededAt(cfg: Config, tokens: Tokens, log: seq<Event>, presented: RefreshToken) returns (j: nat)
    requires LogHolds(cfg, tokens, log) && RevokedSnapshot(tokens, presented) && presented.replacedBy.Some?
    requires FamilyLive(tokens, presented.familyId)
    ensures Supersedes(log, j, presented.id) && presented.revokedAt == Some(log[j].at)
  {
    assert presented.id in tokens && tokens[presented.id].replacedBy.Some?;
    j :| Supersedes(log, j, presented.id);
    assert Witnessed(cfg, tokens, log[j]);
  }

  lemma WindowRefusalIsExcused(cfg: Config, s: State, presented: RefreshToken)
    requires AllChained(s.store.tokens, s.chains) && LogHolds(cfg, s.store.tokens, s.log) && cfg.grace.Some?
    requires RevokedSnapshot(s.store.tokens, presented)
    requires !SupersededWithin(presented, s.clock, cfg.grace.value)
    ensures Excuse(cfg, s, presented.id, s.clock)
  {
    if presented.replacedBy.None? {
      UnreplacedMeansDead(s.store.tokens, s.chains, presented);
    } else if FamilyLive(s.store.tokens, presented.familyId) {
      var j := SupersededAt(cfg, s.store.tokens, s.log, presented);
    }
  }

  lemma LiveIsSingleton(tokens: Tokens, chains: map<Id, seq<Id>>, family: Id, id: Id)
    requires AllChained(tokens, chains) && id in LiveInFamily(tokens, family)
    ensures LiveInFamily(tokens, family) == {id}
  {
    forall x | x in LiveInFamily(tokens, family)
      ensures x == id
    {
      AtMostOneLive(tokens, chains, id, x);
    }
  }

  lemma SearchFindsNewest(
    cfg: Config, s: State, presented: RefreshToken, now: Time, tries: nat, at: Time, id: Id)
    requires AllChained(s.store.tokens, s.chains) && cfg.findsLive && Snapshot(s.store.tokens, presented)
    requires id in LiveInFamily(s.store.tokens, presented.familyId)
    ensures FindLive(cfg, s, presented, now, tries, at).pc ==
            if CanReplaceNewest(presented, s.store.tokens[id], at)
            then ReusePreparing(presented, s.store.tokens[id], now, tries, at)
            else Condemning(presented.familyId, presented.id, now, at)
  {
    LiveIsSingleton(s.store.tokens, s.chains, presented.familyId, id);
  }

  lemma NewestDiffersOnlyByExpiry(cfg: Config, tokens: Tokens, presented: RefreshToken, id: Id, at: Time)
    requires Uniform(cfg, tokens) && RevokedSnapshot(tokens, presented)
    requires id in LiveInFamily(tokens, presented.familyId) && tokens[id].id == id
    requires cfg.honestUsers || tokens[id].userId == presented.userId
    ensures CanReplaceNewest(presented, tokens[id], at) <==> !tokens[id].ExpiredAt(at)
  {
    assert SameSession(cfg, tokens[id], tokens[presented.id]);
  }

  /** Given a revoked presented token, the search for the newest token succeeds
      exactly when the family has an unexpired live one: the contract checks on
      it never fail for another reason. */
  lemma NewestIsReplaceableExactly(
    cfg: Config, s: State, presented: RefreshToken, now: Time, tries: nat, at: Time)
    requires IndexedStore(s.store) && AllChained(s.store.tokens, s.chains) && Uniform(cfg, s.store.tokens)
    requires cfg.findsLive && cfg.honestUsers && RevokedSnapshot(s.store.tokens, presented)
    ensures FindLive(cfg, s, presented, now, tries, at).pc.ReusePreparing? <==>
              !NoUnexpiredLive(s.store.tokens, presented.familyId, at)
  {
    var live := LiveInFamily(s.store.tokens, presented.familyId);
    LiveSetDecides(s.store.tokens, presented.familyId, at);
    if id :| id in live {
      LiveIsSingleton(s.store.tokens, s.chains, presented.familyId, id);
      SearchFindsNewest(cfg, s, presented, now, tries, at, id);
      NewestDiffersOnlyByExpiry(cfg, s.store.tokens, presented, id, at);
    }
  }

  /** Over runs: whenever a reuse looks for its family's newest token, it finds one that it
      may replace exactly when the family then has an unexpired live token. */
  lemma SearchSucceedsExactly(cfg: Config, run: seq<State>, steps: seq<Step>, k: nat, c: CallId, ch: Choices)
    requires IsRun(cfg, run, steps) && k < |run| && cfg.findsLive && cfg.honestUsers
    requires c in run[k].calls && run[k].calls[c].pc.FindingLive?
    ensures var pc, next := run[k].calls[c].pc, Next(cfg, run[k], run[k].calls[c], ch).pc;
            && IsPresented(run[k].store.tokens, pc.presented.id, run[k].calls[c].hash)
            && (next.ReusePreparing? <==> !NoUnexpiredLive(run[k].store.tokens, pc.presented.familyId, pc.at))
            && (next.ReusePreparing? || next.Condemning?)
  {
    hide FindLive, LiveInFamily, CanReplaceNewest;
    var pc := run[k].calls[c].pc;
    RunKeepsInv(cfg, run, steps, k);
    assert WellPlaced(cfg, run[k].store.tokens, run[k].calls[c]);
    NewestIsReplaceableExactly(cfg, run[k], pc.presented, pc.now, pc.tries, pc.at);
    SearchHasTwoEnds(cfg, run[k], pc.presented, pc.now, pc.tries, pc.at);
  }

  lemma SearchHasTwoEnds(cfg: Config, s: State, presented: RefreshToken, now: Time, tries: nat, at: Time)
    ensures var pc := FindLive(cfg, s, presented, now, tries, at).pc; pc.ReusePreparing? || pc.Condemning?
  {
  }

  lemma LiveSetDecides(tokens: Tokens, family: Id, at: Time)
    ensures NoUnexpiredLive(tokens, family, at) <==>
            forall id :: id in LiveInFamily(tokens, family) ==> tokens[id].ExpiredAt(at)
  {
    var live := LiveInFamily(tokens, family);
    assert forall x :: x in tokens && tokens[x].familyId == family && !tokens[x].Revoked() ==> x in live;
  }

  lemma SearchRefusalIsExcused(
    cfg: Config, s: State, presented: RefreshToken, now: Time, tries: nat, at: Time)
    requires IndexedStore(s.store) && AllChained(s.store.tokens, s.chains) && Uniform(cfg, s.store.tokens)
    requires cfg.findsLive && RevokedSnapshot(s.store.tokens, presented)
    requires FindLive(cfg, s, presented, now, tries, at).pc.Condemning?
    ensures Excuse(cfg, s, presented.id, at)
  {
    var tokens := s.store.tokens;
    var live := LiveInFamily(tokens, presented.familyId);
    LiveSetDecides(tokens, presented.familyId, at);
    if id :| id in live {
      LiveIsSingleton(tokens, s.chains, presented.familyId, id);
      SearchFindsNewest(cfg, s, presented, now, tries, at, id);
      if cfg.honestUsers || tokens[id].userId == presented.userId {
        NewestDiffersOnlyByExpiry(cfg, tokens, presented, id, at);
      }
    }
  }

  /** With the grace on, only the two eligibility checks condemn a family. */
  lemma OnlyReuseCondemns(cfg: Config, s: State, call: Call, ch: Choices)
    requires IndexedStore(s.store) && WellPlaced(cfg, s.store.tokens, call) && cfg.grace.Some?
    requires !call.pc.Condemning? && Next(cfg, s, call, ch).pc.Condemning?
    ensures call.pc.Reusing? || call.pc.FindingLive?
  {
    if call.pc.Rereading? {
      RereadIsPlaced(cfg, s, call);
    }
  }

  lemma CheckWindowIsExcused(cfg: Config, s: State, call: Call, ch: Choices)
    requires AllChained(s.store.tokens, s.chains) && LogHolds(cfg, s.store.tokens, s.log)
    requires call.pc.Reusing? && WellPlaced(cfg, s.store.tokens, call)
    requires Next(cfg, s, call, ch).pc.Condemning?
    ensures Excuse(cfg, s, Next(cfg, s, call, ch).pc.presentedId, Next(cfg, s, call, ch).pc.at)
  {
    WindowRefusalIsExcused(cfg, s, call.pc.presented);
  }

  lemma FindLiveIsExcused(cfg: Config, s: State, call: Call, ch: Choices)
    requires IndexedStore(s.store) && AllChained(s.store.tokens, s.chains) && Uniform(cfg, s.store.tokens)
    requires cfg.findsLive && call.pc.FindingLive? && WellPlaced(cfg, s.store.tokens, call)
    requires Next(cfg, s, call, ch).pc.Condemning?
    ensures Excuse(cfg, s, Next(cfg, s, call, ch).pc.presentedId, Next(cfg, s, call, ch).pc.at)
  {
    SearchRefusalIsExcused(cfg, s, call.pc.presented, call.pc.now, call.pc.tries, call.pc.at);
  }

  /** The step that condemns a family does so at an excused moment. */
  lemma CondemningIsExcused(cfg: Config, s: State, call: Call, ch: Choices)
    requires IndexedStore(s.store) && AllChained(s.store.tokens, s.chains) && Uniform(cfg, s.store.tokens)
    requires LogHolds(cfg, s.store.tokens, s.log) && WellPlaced(cfg, s.store.tokens, call)
    requires cfg.grace.Some? && cfg.findsLive
    requires !call.pc.Condemning? && Next(cfg, s, call, ch).pc.Condemning?
    ensures Excuse(cfg, s, Next(cfg, s, call, ch).pc.presentedId, Next(cfg, s, call, ch).pc.at)
  {
    OnlyReuseCondemns(cfg, s, call, ch);
    if call.pc.Reusing? {
      CheckWindowIsExcused(cfg, s, call, ch);
    } else {
      FindLiveIsExcused(cfg, s, call, ch);
    }
  }

  /** How a call's position changes in one step of a run. */
  lemma CallMoves(cfg: Config, run: seq<State>, steps: seq<Step>, k: nat, c: CallId)
    requires IsRun(cfg, run, steps) && k + 1 < |run| && c in run[k + 1].calls
    ensures || (c !in run[k].calls && Requestable(run[k + 1].calls[c]))
            || (c in run[k].calls && run[k + 1].calls[c] == run[k].calls[c])
            || (c in run[k].calls && run[k + 1].calls[c] == run[k].calls[c].(pc := Answered(Aborted)))
            || (c in run[k].calls && !run[k].calls[c].pc.Answered?
                && steps[k].Advance? && steps[k].call == c
                && run[k + 1].calls[c].pc == Next(cfg, run[k], run[k].calls[c], steps[k].choices).pc)
  {
    assert Enabled(cfg, run[k], steps[k]) && run[k + 1] == Apply(cfg, run[k], steps[k]);
  }

  /** A reading is kept from the position before or taken from the clock now. */
  lemma ReadingsComeFromTheClock(cfg: Config, s: State, call: Call, ch: Choices, at: Time)
    requires RestsOn(Next(cfg, s, call, ch).pc, at)
    ensures RestsOn(call.pc, at) || at == s.clock
  {
    hide PrepareRotation, LiveInFamily, CanReplaceNewest, SupersededWithin;
  }

  /** Whatever clock value a call's position rests on, this very call read it. */
  lemma {:induction false} ReadingWasRead(cfg: Config, run: seq<State>, steps: seq<Step>, k: nat, c: CallId, at: Time)
    requires IsRun(cfg, run, steps) && k < |run| && c in run[k].calls && RestsOn(run[k].calls[c].pc, at)
    ensures exists j :: 0 <= j < k && ReadsClock(run[j], c, at)
  {
    if k > 0 {
      if c in run[k - 1].calls && RestsOn(run[k - 1].calls[c].pc, at) {
        ReadingWasRead(cfg, run, steps, k - 1, c, at);
      } else {
        StepThatReads(cfg, run, steps, k - 1, c, at);
      }
    }
  }

  lemma StepThatReads(cfg: Config, run: seq<State>, steps: seq<Step>, k: nat, c: CallId, at: Time)
    requires IsRun(cfg, run, steps) && k + 1 < |run| && c in run[k + 1].calls && RestsOn(run[k + 1].calls[c].pc, at)
    requires c in run[k].calls ==> !RestsOn(run[k].calls[c].pc, at)
    ensures ReadsClock(run[k], c, at)
  {
    hide Next;
    CallMoves(cfg, run, steps, k, c);
    ReadingsComeFromTheClock(cfg, run[k], run[k].calls[c], steps[k].choices, at);
  }

  /** Call `c` was in flight when the clock showed `at`. */
  predicate ReadsClock(s: State, c: CallId, at: Time) {
    c in s.calls && !s.calls[c].pc.Answered? && s.clock == at
  }

  lemma OnlyCondemningCondemns(cfg: Config, s: State, call: Call, ch: Choices, presented: Id, at: Time)
    requires !call.pc.Answered? && !Condemned(call.pc, presented, at)
    requires Condemned(Next(cfg, s, call, ch).pc, presented, at)
    ensures !call.pc.Condemning? && Next(cfg, s, call, ch).pc.Condemning?
    ensures Next(cfg, s, call, ch).pc.presentedId == presented && Next(cfg, s, call, ch).pc.at == at
  {
  }

  lemma StepThatCondemnsIsExcused(
    cfg: Config, run: seq<State>, steps: seq<Step>, k: nat, c: CallId, presented: Id, at: Time)
    requires IsRun(cfg, run, steps) && k + 1 < |run| && cfg.grace.Some? && cfg.findsLive
    requires c in run[k + 1].calls && Condemned(run[k + 1].calls[c].pc, presented, at)
    requires c in run[k].calls ==> !Condemned(run[k].calls[c].pc, presented, at)
    ensures InFlight(run[k], c) && Excuse(cfg, run[k], presented, at)
  {
    CallMoves(cfg, run, steps, k, c);
    var call, ch := run[k].calls[c], steps[k].choices;
    OnlyCondemningCondemns(cfg, run[k], call, ch, presented, at);
    RunKeepsInv(cfg, run, steps, k);
    CondemningIsExcused(cfg, run[k], call, ch);
  }

  lemma {:induction false} CondemnationWasExcused(
    cfg: Config, run: seq<State>, steps: seq<Step>, k: nat, c: CallId, presented: Id, at: Time)
    requires IsRun(cfg, run, steps) && k < |run| && cfg.grace.Some? && cfg.findsLive
    requires c in run[k].calls && Condemned(run[k].calls[c].pc, presented, at)
    ensures exists m :: 0 <= m < k && InFlight(run[m], c) && Excuse(cfg, run[m], presented, at)
  {
    if k > 0 {
      if c in run[k - 1].calls && Condemned(run[k - 1].calls[c].pc, presented, at) {
        CondemnationWasExcused(cfg, run, steps, k - 1, c, presented, at);
      } else {
        StepThatCondemnsIsExcused(cfg, run, steps, k - 1, c, presented, at);
      }
    }
  }

  predicate InFlight(s: State, c: CallId) {
    c in s.calls && !s.calls[c].pc.Answered?
  }

  /** With the grace on and supported, a call answers "replay" only if, at some
      moment while it was in flight, the token it presented had expired, or the family
      had no unexpired live token, or the window had elapsed since the rotation
      that superseded it -- on a clock value this very call read. (If the user
      store may answer for another user, a family whose user changed is refused too.) */
  lemma ReplayIsExcused(
    cfg: Config, run: seq<State>, steps: seq<Step>, k: nat, c: CallId, presented: Id, at: Time)
    requires IsRun(cfg, run, steps) && k < |run| && cfg.grace.Some? && cfg.findsLive
    requires c in run[k].calls && run[k].calls[c].pc == Answered(Replay(presented, at))
    ensures IsPresented(run[k].store.tokens, presented, run[k].calls[c].hash)
    ensures exists m :: 0 <= m < k && InFlight(run[m], c) && Excuse(cfg, run[m], presented, at)
    ensures exists j :: 0 <= j < k && ReadsClock(run[j], c, at)
  {
    RunKeepsInv(cfg, run, steps, k);
    assert WellPlaced(cfg, run[k].store.tokens, run[k].calls[c]);
    CondemnationWasExcused(cfg, run, steps, k, c, presented, at);
    ReadingWasRead(cfg, run, steps, k, c, at);
  }

  lemma EvolutionKeepsDead(before: Tokens, after: Tokens, id: Id)
    requires Evolves(before, after) && id in before && !FamilyLive(before, before[id].familyId)
    ensures id in after && !FamilyLive(after, after[id].familyId)
  {
    assert KeepsRecord(before[id], after[id]);
  }

  lemma CondemnedFamilyDies(cfg: Config, s: State, call: Call, ch: Choices)
    requires IndexedStore(s.store) && WellPlaced(cfg, s.store.tokens, call) && !call.pc.Answered?
    requires Next(cfg, s, call, ch).pc.Answered? && Next(cfg, s, call, ch).pc.answer.Replay?
    ensures var o := Next(cfg, s, call, ch);
            && o.pc.answer.presented in o.store.tokens
            && !FamilyLive(o.store.tokens, o.store.tokens[o.pc.answer.presented].familyId)
  {
    var pc := call.pc;
    assert pc.Condemning?;
    RevokeFamilyOnlyRevokes(s.store, pc.family, pc.now, ch.kept);
  }

  lemma StepThatAnswersReplay(
    cfg: Config, run: seq<State>, steps: seq<Step>, k: nat, c: CallId, presented: Id, at: Time)
    requires IsRun(cfg, run, steps) && k + 1 < |run|
    requires c in run[k + 1].calls && run[k + 1].calls[c].pc == Answered(Replay(presented, at))
    requires c in run[k].calls ==> run[k].calls[c].pc != run[k + 1].calls[c].pc
    ensures presented in run[k + 1].store.tokens
    ensures !FamilyLive(run[k + 1].store.tokens, run[k + 1].store.tokens[presented].familyId)
  {
    RunKeepsInv(cfg, run, steps, k);
    CallMoves(cfg, run, steps, k, c);
    CondemnedFamilyDies(cfg, run[k], run[k].calls[c], steps[k].choices);
  }

  lemma {:induction false} ReplayedFamilyIsDead(
    cfg: Config, run: seq<State>, steps: seq<Step>, k: nat, c: CallId, presented: Id, at: Time)
    requires IsRun(cfg, run, steps) && k < |run|
    requires c in run[k].calls && run[k].calls[c].pc == Answered(Replay(presented, at))
    ensures presented in run[k].store.tokens
    ensures !FamilyLive(run[k].store.tokens, run[k].store.tokens[presented].familyId)
  {
    if k > 0 {
      if c in run[k - 1].calls && run[k - 1].calls[c].pc == run[k].calls[c].pc {
        ReplayedFamilyIsDead(cfg, run, steps, k - 1, c, presented, at);
        RunEvolves(cfg, run, steps, k - 1, k);
        EvolutionKeepsDead(run[k - 1].store.tokens, run[k].store.tokens, presented);
      } else {
        StepThatAnswersReplay(cfg, run, steps, k - 1, c, presented, at);
      }
    }
  }

  /** Whether or not there is a grace: a call that answers "replay" leaves the family of
      the token it presented dead, in that state and in every later one. */
  lemma ReplayKillsFamily(
    cfg: Config, run: seq<State>, steps: seq<Step>, k: nat, c: CallId, presented: Id, at: Time)
    requires IsRun(cfg, run, steps) && k < |run|
    requires c in run[k].calls && run[k].calls[c].pc == Answered(Replay(presented, at))
    ensures IsPresented(run[k].store.tokens, presented, run[k].calls[c].hash)
    ensures !FamilyLive(run[k].store.tokens, run[k].store.tokens[presented].familyId)
  {
    RunKeepsInv(cfg, run, steps, k);
    assert WellPlaced(cfg, run[k].store.tokens, run[k].calls[c]);
    ReplayedFamilyIsDead(cfg, run, steps, k, c, presented, at);
  }

  // ----- Sign-out ---------------------------------------------------------------------

  /** `member` is the record of the token presented, in `family`. */
  ghost predicate InFamily(tokens: Tokens, member: Id, hash: string, family: Id) {
    IsPresented(tokens, member, hash) && tokens[member].familyId == family
  }

  /** A whole-family sign-out with `hash`, from its beginning to its end: under way, given
      up, or answered, and then the family is dead. */
  ghost predicate SignOutHolds(s: State, c: CallId, hash: string, family: Id) {
    && c in s.calls && s.calls[c].hash == hash
    && match s.calls[c].pc
       case SignOutBegun(wholeFamily) => wholeFamily
       case SigningOutFamily(f) => f == family
       case Answered(SignedOut) => !FamilyLive(s.store.tokens, family)
       case Answered(Aborted) => true
       case _ => false
  }

  /** Where the store finds the presented token, the sign-out is of its family. */
  lemma SignOutFindsFamily(cfg: Config, s: State, call: Call, member: Id, family: Id)
    requires IndexedStore(s.store) && InFamily(s.store.tokens, member, call.hash, family)
    ensures LookUpSignOut(cfg, s, call, true).pc == SigningOutFamily(family)
  {
    assert s.store.byHash[call.hash] == member;
  }

  /** The two steps of a whole-family sign-out. */
  lemma SignOutAdvances(cfg: Config, s: State, call: Call, ch: Choices, member: Id, family: Id)
    requires IndexedStore(s.store) && InFamily(s.store.tokens, member, call.hash, family)
    requires call.pc == SignOutBegun(true) || call.pc == SigningOutFamily(family)
    ensures var o := Next(cfg, s, call, ch);
            || o.pc == SigningOutFamily(family)
            || (o.pc == Answered(SignedOut) && !FamilyLive(o.store.tokens, family))
  {
    hide IndexedStore, InFamily, RevokeFamily;
    if call.pc.SignOutBegun? {
      SignOutFindsFamily(cfg, s, call, member, family);
    } else {
      RevokeFamilyOnlyRevokes(s.store, family, ch.signOutTime, ch.kept);
    }
  }

  lemma AdvanceLeavesStore(cfg: Config, run: seq<State>, steps: seq<Step>, k: nat, c: CallId)
    requires IsRun(cfg, run, steps) && k + 1 < |run| && steps[k].Advance? && steps[k].call == c
    ensures c in run[k].calls && run[k + 1].calls.Keys == run[k].calls.Keys
    ensures run[k + 1].store == Next(cfg, run[k], run[k].calls[c], steps[k].choices).store
    ensures run[k + 1].calls[c] == run[k].calls[c].(pc := Next(cfg, run[k], run[k].calls[c], steps[k].choices).pc)
  {
    assert Enabled(cfg, run[k], steps[k]) && run[k + 1] == Apply(cfg, run[k], steps[k]);
  }

  lemma CallsAreKept(cfg: Config, run: seq<State>, steps: seq<Step>, k: nat, c: CallId)
    requires IsRun(cfg, run, steps) && k + 1 < |run| && c in run[k].calls
    ensures k < |steps| && c in run[k + 1].calls
  {
    assert Enabled(cfg, run[k], steps[k]) && run[k + 1] == Apply(cfg, run[k], steps[k]);
  }

  lemma StepThatSignsOut(cfg: Config, run: seq<State>, steps: seq<Step>, k: nat, c: CallId, member: Id, hash: string, family: Id)
    requires IsRun(cfg, run, steps) && k + 1 < |run|
    requires InFamily(run[k].store.tokens, member, hash, family) && SignOutHolds(run[k], c, hash, family)
    requires !run[k].calls[c].pc.Answered? && k < |steps|
    ensures SignOutHolds(run[k + 1], c, hash, family)
  {
    hide IsRun, Next, IndexedStore, InFamily, FamilyLive;
    CallsAreKept(cfg, run, steps, k, c);
    CallMoves(cfg, run, steps, k, c);
    if steps[k].Advance? && steps[k].call == c {
      RunKeepsInv(cfg, run, steps, k);
      AdvanceLeavesStore(cfg, run, steps, k, c);
      SignOutAdvances(cfg, run[k], run[k].calls[c], steps[k].choices, member, family);
    }
  }

  lemma StepKeepsSignOut(cfg: Config, run: seq<State>, steps: seq<Step>, k: nat, c: CallId, member: Id, hash: string, family: Id)
    requires IsRun(cfg, run, steps) && k + 1 < |run|
    requires InFamily(run[k].store.tokens, member, hash, family) && SignOutHolds(run[k], c, hash, family)
    ensures InFamily(run[k + 1].store.tokens, member, hash, family) && SignOutHolds(run[k + 1], c, hash, family)
  {
    hide IsRun;
    StepEvolves(cfg, run, steps, k);
    assert KeepsRecord(run[k].store.tokens[member], run[k + 1].store.tokens[member]);
    if run[k].calls[c].pc.Answered? {
      AnsweredStays(cfg, run, steps, k, c);
    } else {
      CallsAreKept(cfg, run, steps, k, c);
      StepThatSignsOut(cfg, run, steps, k, c, member, hash, family);
    }
  }

  lemma {:induction false} SignOutKeepsHolding(
    cfg: Config, run: seq<State>, steps: seq<Step>, j: nat, k: nat, c: CallId, member: Id, hash: string, family: Id)
    requires IsRun(cfg, run, steps) && j <= k < |run|
    requires InFamily(run[j].store.tokens, member, hash, family) && SignOutHolds(run[j], c, hash, family)
    ensures InFamily(run[k].store.tokens, member, hash, family) && SignOutHolds(run[k], c, hash, family)
    decreases k
  {
    hide IsRun, InFamily, SignOutHolds;
    if j < k {
      SignOutKeepsHolding(cfg, run, steps, j, k - 1, c, member, hash, family);
      StepKeepsSignOut(cfg, run, steps, k - 1, c, member, hash, family);
    }
  }

  /** A whole-family sign-out begun at moment `j` with a stored token: once it answers, at
      any moment `k`, that token's family is dead, however many rotations were in flight. */
  lemma SignOutIsFinal(cfg: Config, run: seq<State>, steps: seq<Step>, j: nat, k: nat, c: CallId, member: Id)
    requires IsRun(cfg, run, steps) && j <= k < |run|
    requires c in run[j].calls && run[j].calls[c].pc == SignOutBegun(true)
    requires IsPresented(run[j].store.tokens, member, run[j].calls[c].hash)
    requires c in run[k].calls && run[k].calls[c].pc == Answered(SignedOut)
    ensures !FamilyLive(run[k].store.tokens, run[j].store.tokens[member].familyId)
  {
    var hash, family := run[j].calls[c].hash, run[j].store.tokens[member].familyId;
    SignOutKeepsHolding(cfg, run, steps, j, k, c, member, hash, family);
  }

  lemma AnsweredStays(cfg: Config, run: seq<State>, steps: seq<Step>, k: nat, c: CallId)
    requires IsRun(cfg, run, steps) && k + 1 < |run| && c in run[k].calls && run[k].calls[c].pc.Answered?
    ensures c in run[k + 1].calls && run[k + 1].calls[c] == run[k].calls[c]
  {
    assert Enabled(cfg, run[k], steps[k]) && run[k + 1] == Apply(cfg, run[k], steps[k]);
  }
}
