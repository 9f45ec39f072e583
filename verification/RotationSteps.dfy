/** Every step of the rotation protocol keeps the invariant and lets the store
    evolve only as far as `Evolves` allows. */
module RotationSteps {
  import opened Common
  import opened Assurance
  import opened RefreshRecords
  import opened RotationProtocol
  import opened RotationInvariants

  // ----- Login --------------------------------------------------------------------

  /** `after` adds the record that starts a new family. */
  ghost predicate Starts(before: Tokens, after: Tokens, chains: map<Id, seq<Id>>, first: RefreshToken) {
    && first.id !in before && first.familyId !in chains
    && after == before[first.id := first]
    && !first.Revoked() && first.replacedBy == None
  }

  lemma StartingEvolves(before: Tokens, after: Tokens, chains: map<Id, seq<Id>>, first: RefreshToken)
    requires Starts(before, after, chains, first) && AllChained(before, chains)
    ensures Evolves(before, after)
  {
    forall x | x in before && FamilyLive(after, before[x].familyId)
      ensures FamilyLive(before, before[x].familyId)
    {
      var y :| y in after && after[y].familyId == before[x].familyId && !after[y].Revoked();
      assert y in before && !before[y].Revoked();
    }
  }

  lemma StartingKeepsChains(before: Tokens, after: Tokens, chains: map<Id, seq<Id>>, first: RefreshToken)
    requires Starts(before, after, chains, first) && AllChained(before, chains)
    ensures AllChained(after, chains[first.familyId := [first.id]])
  {
    forall f | f in chains
      ensures Chained(after, f, chains[f])
    {
      var chain := chains[f];
      assert Chained(before, f, chain);
      forall i, j | 0 <= i < j < |chain| && j == i + 1
        ensures Linked(after, chain[i], chain[j])
      {
        assert Linked(before, chain[i], chain[j]);
      }
    }
    assert [first.id][0] == first.id;
  }

  lemma LoggedLoginHolds(cfg: Config, tokens: Tokens, log: seq<Event>, e: Event)
    requires LogHolds(cfg, tokens, log) && e.LoggedIn? && Witnessed(cfg, tokens, e)
    ensures LogHolds(cfg, tokens, log + [e])
  {
    var log' := log + [e];
    assert forall i: nat, x :: Supersedes(log', i, x) <==> Supersedes(log, i, x);
    StandingStillEvolves(tokens);
    forall i | 0 <= i < |log'| && log'[i].Rotated? && log'[i].source != log'[i].superseded
      ensures InsideWindow(cfg, tokens, log', i)
    {
      LongerLogKeepsWindow(cfg, tokens, tokens, log, e, i);
    }
    forall id | id in tokens && tokens[id].replacedBy.Some?
      ensures exists i :: Supersedes(log', i, id)
    {
      var i: nat :| Supersedes(log, i, id);
      assert Supersedes(log', i, id);
    }
  }

  lemma StartingKeepsAssurance(
    before: Tokens, after: Tokens, chains: map<Id, seq<Id>>, log: seq<Event>, first: RefreshToken, e: Event)
    requires Starts(before, after, chains, first) && AssuranceHolds(before, log)
    requires AlignedSession(first.session) && Supplies(e, first.familyId, first.session.assurance)
    ensures AssuranceHolds(after, log + [e])
  {
    assert (log + [e])[|log|] == e;
    forall id | id in before
      ensures Supplied(before[id], log + [e])
    {
      LongerLogSupplies(before[id], log, e);
    }
  }

  lemma StartingKeepsUniform(
    cfg: Config, before: Tokens, after: Tokens, chains: map<Id, seq<Id>>, first: RefreshToken)
    requires Starts(before, after, chains, first) && AllChained(before, chains) && Uniform(cfg, before)
    ensures Uniform(cfg, after)
  {
    assert forall id :: id in before ==> before[id].familyId != first.familyId;
  }

  lemma LoginStarts(cfg: Config, s: State, step: Step)
    requires IndexedStore(s.store) && step.Login? && Enabled(cfg, s, step)
    ensures var issued := IssueTokens(step.user, step.client, step.at, cfg.refreshTtl, step.source, None, step.answers).value;
            var s' := Apply(cfg, s, step);
            && Starts(s.store.tokens, s'.store.tokens, s.chains, issued.0)
            && IndexedStore(s'.store)
            && Witnessed(cfg, s'.store.tokens, LoggedIn(issued.0.id, issued.0.familyId, issued.1))
            && AlignedSession(issued.0.session) && issued.1.session == issued.0.session
  {
  }

  lemma StartingKeepsStore(
    cfg: Config, store: Store, store': Store, chains: map<Id, seq<Id>>, log: seq<Event>, first: RefreshToken, e: Event)
    requires StoreHolds(cfg, store, chains, log) && IndexedStore(store')
    requires Starts(store.tokens, store'.tokens, chains, first) && AlignedSession(first.session)
    requires e.LoggedIn? && Witnessed(cfg, store'.tokens, e)
    requires Supplies(e, first.familyId, first.session.assurance)
    ensures StoreHolds(cfg, store', chains[first.familyId := [first.id]], log + [e])
    ensures Evolves(store.tokens, store'.tokens)
  {
    var before, after := store.tokens, store'.tokens;
    StartingEvolves(before, after, chains, first);
    StartingKeepsChains(before, after, chains, first);
    StartingKeepsUniform(cfg, before, after, chains, first);
    StartingKeepsAssurance(before, after, chains, log, first, e);
    StartingKeepsLog(cfg, before, after, chains, log, first, e);
  }

  lemma StartingKeepsLog(
    cfg: Config, before: Tokens, after: Tokens, chains: map<Id, seq<Id>>, log: seq<Event>, first: RefreshToken, e: Event)
    requires Starts(before, after, chains, first) && Evolves(before, after)
    requires LogHolds(cfg, before, log) && e.LoggedIn? && Witnessed(cfg, after, e)
    ensures LogHolds(cfg, after, log + [e])
  {
    EvolutionKeepsLog(cfg, before, after, log);
    LoggedLoginHolds(cfg, after, log, e);
  }

  lemma LoginKeepsStore(cfg: Config, s: State, step: Step)
    requires StoreHolds(cfg, s.store, s.chains, s.log) && step.Login? && Enabled(cfg, s, step)
    ensures var s' := Apply(cfg, s, step);
            && StoreHolds(cfg, s'.store, s'.chains, s'.log)
            && Evolves(s.store.tokens, s'.store.tokens)
  {
    var issued := IssueTokens(step.user, step.client, step.at, cfg.refreshTtl, step.source, None, step.answers).value;
    var first := issued.0;
    LoginStarts(cfg, s, step);
    StartingKeepsStore(cfg, s.store, Apply(cfg, s, step).store, s.chains, s.log, first,
                       LoggedIn(first.id, first.familyId, issued.1));
  }

  // ----- Steps of a call that only read -------------------------------------------

  lemma FoundIsSnapshot(store: Store, hash: string)
    requires IndexedStore(store) && FindByHash(store, hash).Some?
    ensures var r := FindByHash(store, hash).value;
            && Snapshot(store.tokens, r) && r.tokenHash == hash
            && store.tokens[r.id] == r
            && (r.Revoked() ==> RevokedSnapshot(store.tokens, r))
  {
  }

  lemma LookUpIsPlaced(cfg: Config, s: State, call: Call, now: Time)
    requires IndexedStore(s.store)
    ensures WellPlaced(cfg, s.store.tokens, call.(pc := LookUp(cfg, s, call, now).pc))
  {
    if FindByHash(s.store, call.hash).Some? {
      FoundIsSnapshot(s.store, call.hash);
    }
  }

  lemma RereadIsPlaced(cfg: Config, s: State, call: Call)
    requires IndexedStore(s.store) && call.pc.Rereading? && WellPlaced(cfg, s.store.tokens, call)
    ensures Reread(s, call, call.pc.existing, call.pc.now).pc.Reusing?
    ensures WellPlaced(cfg, s.store.tokens, call.(pc := Reread(s, call, call.pc.existing, call.pc.now).pc))
  {
    FoundIsSnapshot(s.store, call.hash);
  }

  lemma CheckWindowIsPlaced(cfg: Config, s: State, call: Call)
    requires call.pc.Reusing? && WellPlaced(cfg, s.store.tokens, call)
    ensures WellPlaced(cfg, s.store.tokens,
                       call.(pc := CheckWindow(cfg, s, call.pc.presented, call.pc.now, call.pc.tries).pc))
  {
  }

  lemma FindLiveIsPlaced(cfg: Config, s: State, call: Call)
    requires IndexedStore(s.store) && call.pc.FindingLive? && WellPlaced(cfg, s.store.tokens, call)
    ensures WellPlaced(cfg, s.store.tokens,
                       call.(pc := FindLive(cfg, s, call.pc.presented, call.pc.now, call.pc.tries, call.pc.at).pc))
  {
  }

  lemma PrepareIsPlaced(cfg: Config, s: State, call: Call, answers: Answers)
    requires call.pc.Preparing? && WellPlaced(cfg, s.store.tokens, call)
    requires cfg.honestUsers && answers.user.Some? ==> answers.user.value.id == call.pc.existing.userId
    ensures WellPlaced(cfg, s.store.tokens, call.(pc := Prepare(cfg, s, call, call.pc.existing, call.pc.now, answers).pc))
  {
    var pc := call.pc;
    if PrepareRotation(pc.existing, None, call.client, call.stepUp, pc.now, cfg.refreshTtl, answers).Success? {
      PreparedContinues(pc.existing, None, call.client, call.stepUp, pc.now, cfg.refreshTtl, answers);
    }
  }

  lemma PrepareReuseIsPlaced(cfg: Config, s: State, call: Call, answers: Answers)
    requires call.pc.ReusePreparing? && WellPlaced(cfg, s.store.tokens, call)
    requires cfg.honestUsers && answers.user.Some? ==> answers.user.value.id == call.pc.presented.userId
    ensures var pc := call.pc;
            WellPlaced(cfg, s.store.tokens,
                       call.(pc := PrepareReuse(cfg, s, call, pc.presented, pc.newest, pc.now, pc.tries, pc.at, answers).pc))
  {
    var pc := call.pc;
    if PrepareRotation(pc.presented, Some(pc.newest), call.client, call.stepUp, pc.at, cfg.refreshTtl, answers).Success? {
      PreparedContinues(pc.presented, Some(pc.newest), call.client, call.stepUp, pc.at, cfg.refreshTtl, answers);
    }
  }

  /** Steps that leave the store alone put the call in a good place again. */
  lemma ReadingIsPlaced(cfg: Config, s: State, call: Call, ch: Choices)
    requires IndexedStore(s.store) && WellPlaced(cfg, s.store.tokens, call)
    requires cfg.honestUsers && AskedUser(call.pc).Some? && ch.answers.user.Some? ==>
               ch.answers.user.value.id == AskedUser(call.pc).value
    requires Next(cfg, s, call, ch).event.None?
    ensures WellPlaced(cfg, s.store.tokens, call.(pc := Next(cfg, s, call, ch).pc))
  {
    match call.pc
    case LookingUp(now) => LookUpIsPlaced(cfg, s, call, now);
    case Preparing(_, _) => PrepareIsPlaced(cfg, s, call, ch.answers);
    case Rereading(_, _) => RereadIsPlaced(cfg, s, call);
    case Reusing(_, _, _) => CheckWindowIsPlaced(cfg, s, call);
    case FindingLive(_, _, _, _) => FindLiveIsPlaced(cfg, s, call);
    case ReusePreparing(_, _, _, _, _) => PrepareReuseIsPlaced(cfg, s, call, ch.answers);
    case _ =>
  }

  // ----- Commits ----------------------------------------------------------------------

  /** The window of a reuse is measured from the rotation that superseded it. */
  lemma LiveReuseIsInsideWindow(cfg: Config, tokens: Tokens, log: seq<Event>, presented: RefreshToken, at: Time)
    requires LogHolds(cfg, tokens, log) && cfg.grace.Some?
    requires RevokedSnapshot(tokens, presented) && SupersededWithin(presented, at, cfg.grace.value)
    requires FamilyLive(tokens, presented.familyId)
    ensures exists j :: 0 <= j < |log| && Supersedes(log, j, presented.id) && Abs(at - log[j].at) < cfg.grace.value
  {
    assert presented.id in tokens && tokens[presented.id].replacedBy.Some?;
    var j: nat :| Supersedes(log, j, presented.id);
    assert Witnessed(cfg, tokens, log[j]);
  }

  /** The event of a commit tells the truth about the store it leaves. */
  lemma CommitIsWitnessed(
    cfg: Config, before: Tokens, after: Tokens, source: RefreshToken, superseded: RefreshToken,
    next: Prepared, stepUp: Option<SessionAssurance>, at: Time)
    requires Rotates(before, after, superseded.id, next.record, at)
    requires Snapshot(before, source) && Snapshot(before, superseded)
    requires PreparedFor(cfg, next, source, superseded, stepUp, at)
    requires !source.ExpiredAt(at) && !superseded.ExpiredAt(at)
    requires source.familyId == superseded.familyId
    requires cfg.grace.None? ==> source.id == superseded.id
    ensures Witnessed(cfg, after, Rotated(source.id, superseded.id, next.record.id, superseded.familyId, at,
                                          next.authority, stepUp, next.user))
  {
    assert SameDefinition(source, after[source.id]);
    assert SameDefinition(superseded, after[superseded.id]);
  }

  lemma CommitKeepsStore(
    cfg: Config, s: State, call: Call, source: RefreshToken, superseded: RefreshToken, next: Prepared, at: Time)
    requires StoreHolds(cfg, s.store, s.chains, s.log) && StepUpsValid(call)
    requires Snapshot(s.store.tokens, source) && Snapshot(s.store.tokens, superseded)
    requires PreparedFor(cfg, next, source, superseded, call.stepUp, at)
    requires !source.ExpiredAt(at) && !superseded.ExpiredAt(at)
    requires CanRotate(s.store, superseded.id) && Fresh(s.store, next.record)
    requires source.familyId == superseded.familyId
    requires source.id != superseded.id ==>
               && cfg.grace.Some? && RevokedSnapshot(s.store.tokens, source)
               && SupersededWithin(source, at, cfg.grace.value)
    ensures var o := CommitRotation(s, call, source, superseded, next, at);
            && StoreHolds(cfg, o.store, Extended(s.chains, o.event), Logged(s.log, o.event))
            && Evolves(s.store.tokens, o.store.tokens)
  {
    var o := CommitRotation(s, call, source, superseded, next, at);
    CommitCommits(cfg, s, call, source, superseded, next, at);
    RotatingEvolves(s.store.tokens, o.store.tokens, superseded.id, next.record, at);
    CommittingKeepsStore(cfg, s.store, o.store, s.chains, s.log, o.event.value, next.record);
  }

  lemma CommitCommits(
    cfg: Config, s: State, call: Call, source: RefreshToken, superseded: RefreshToken, next: Prepared, at: Time)
    requires IndexedStore(s.store) && Uniform(cfg, s.store.tokens) && LogHolds(cfg, s.store.tokens, s.log)
    requires Snapshot(s.store.tokens, source) && Snapshot(s.store.tokens, superseded)
    requires PreparedFor(cfg, next, source, superseded, call.stepUp, at)
    requires !source.ExpiredAt(at) && !superseded.ExpiredAt(at)
    requires CanRotate(s.store, superseded.id) && Fresh(s.store, next.record)
    requires source.familyId == superseded.familyId
    requires source.id != superseded.id ==>
               && cfg.grace.Some? && RevokedSnapshot(s.store.tokens, source)
               && SupersededWithin(source, at, cfg.grace.value)
    ensures var o := CommitRotation(s, call, source, superseded, next, at);
            && IndexedStore(o.store)
            && Commits(cfg, s.store.tokens, o.store.tokens, s.log, o.event.value, superseded.id, next.record)
            && SameSession(cfg, next.record, s.store.tokens[superseded.id])
  {
    hide Witnessed, LogHolds, Rotates, Narrower;
    var o := CommitRotation(s, call, source, superseded, next, at);
    var before, after := s.store.tokens, o.store.tokens;
    RotateRotates(s.store, superseded.id, next.record, at, call.client);
    CommitIsWitnessed(cfg, before, after, source, superseded, next, call.stepUp, at);
    assert SameSession(cfg, before[source.id], before[superseded.id]);
    if source.id != superseded.id {
      SwappableMeansLive(before, superseded);
      LiveReuseIsInsideWindow(cfg, before, s.log, source, at);
    }
  }

  lemma SwappableMeansLive(tokens: Tokens, superseded: RefreshToken)
    requires Snapshot(tokens, superseded) && !tokens[superseded.id].Revoked()
    ensures FamilyLive(tokens, superseded.familyId)
  {
  }

  lemma OnlySwapsCommit(cfg: Config, s: State, call: Call, ch: Choices)
    requires Next(cfg, s, call, ch).event.Some?
    ensures PendingRecord(call.pc).Some?
  {
  }

  lemma CommittingCallKeepsStore(cfg: Config, s: State, call: Call, ch: Choices)
    requires StoreHolds(cfg, s.store, s.chains, s.log)
    requires WellPlaced(cfg, s.store.tokens, call) && StepUpsValid(call)
    requires PendingRecord(call.pc).Some? && Fresh(s.store, PendingRecord(call.pc).value)
    requires Next(cfg, s, call, ch).event.Some?
    ensures var o := Next(cfg, s, call, ch);
            && StoreHolds(cfg, o.store, Extended(s.chains, o.event), Logged(s.log, o.event))
            && Evolves(s.store.tokens, o.store.tokens)
  {
    match call.pc
    case Rotating(existing, next, now) =>
      CommitKeepsStore(cfg, s, call, existing, existing, next, now);
    case ReuseRotating(presented, newest, next, _, _, at) =>
      CommitKeepsStore(cfg, s, call, presented, newest, next, at);
  }

  // ----- Any step -----------------------------------------------------------------------

  predicate Revoking(pc: Pc) {
    pc.Expiring? || pc.SigningOutOne? || pc.Condemning? || pc.SigningOutFamily?
  }

  lemma ReadingLeavesStore(cfg: Config, s: State, call: Call, ch: Choices)
    requires !Revoking(call.pc) && Next(cfg, s, call, ch).event.None?
    ensures Next(cfg, s, call, ch).store == s.store
  {
  }

  /** The store step of a call that commits no rotation. */
  lemma QuietCallOnlyRevokes(cfg: Config, s: State, call: Call, ch: Choices)
    requires IndexedStore(s.store)
    requires Next(cfg, s, call, ch).event.None?
    ensures var store' := Next(cfg, s, call, ch).store;
            store' == s.store || (OnlyRevokes(s.store.tokens, store'.tokens) && IndexedStore(store'))
  {
    match call.pc
    case Expiring(existing, now) => RevokeOneOnlyRevokes(s.store, existing.id, now);
    case SigningOutOne(id) => RevokeOneOnlyRevokes(s.store, id, ch.signOutTime);
    case Condemning(family, _, now, _) => RevokeFamilyOnlyRevokes(s.store, family, now, ch.kept);
    case SigningOutFamily(family) => RevokeFamilyOnlyRevokes(s.store, family, ch.signOutTime, ch.kept);
    case _ => ReadingLeavesStore(cfg, s, call, ch);
  }

  /** Any revocation keeps the invariant of the store. */
  lemma RevocationKeeps(cfg: Config, store: Store, store': Store, chains: map<Id, seq<Id>>, log: seq<Event>)
    requires StoreHolds(cfg, store, chains, log)
    requires store' == store || (OnlyRevokes(store.tokens, store'.tokens) && IndexedStore(store'))
    ensures StoreHolds(cfg, store', chains, log)
    ensures Evolves(store.tokens, store'.tokens)
  {
    if store' == store {
      StandingStillEvolves(store.tokens);
    } else {
      RevokingKeepsStore(cfg, store, store', chains, log);
    }
  }

  lemma QuietOutcomeKeeps(cfg: Config, s: State, o: Outcome)
    requires StoreHolds(cfg, s.store, s.chains, s.log) && o.event.None?
    requires o.store == s.store || (OnlyRevokes(s.store.tokens, o.store.tokens) && IndexedStore(o.store))
    ensures StoreHolds(cfg, o.store, Extended(s.chains, o.event), Logged(s.log, o.event))
    ensures Evolves(s.store.tokens, o.store.tokens)
  {
    RevocationKeeps(cfg, s.store, o.store, s.chains, s.log);
  }

  lemma QuietCallKeepsStore(cfg: Config, s: State, call: Call, ch: Choices)
    requires StoreHolds(cfg, s.store, s.chains, s.log)
    requires Next(cfg, s, call, ch).event.None?
    ensures var o := Next(cfg, s, call, ch);
            && StoreHolds(cfg, o.store, Extended(s.chains, o.event), Logged(s.log, o.event))
            && Evolves(s.store.tokens, o.store.tokens)
  {
    QuietCallOnlyRevokes(cfg, s, call, ch);
    QuietOutcomeKeeps(cfg, s, Next(cfg, s, call, ch));
  }

  /** The user store answers for the user it was asked for, if it is honest. */
  predicate HonestAnswer(cfg: Config, pc: Pc, answers: Answers) {
    cfg.honestUsers && AskedUser(pc).Some? && answers.user.Some? ==> answers.user.value.id == AskedUser(pc).value
  }

  lemma AdvancedIsPlaced(cfg: Config, s: State, call: Call, ch: Choices)
    requires IndexedStore(s.store) && WellPlaced(cfg, s.store.tokens, call) && HonestAnswer(cfg, call.pc, ch.answers)
    ensures WellPlaced(cfg, s.store.tokens, call.(pc := Next(cfg, s, call, ch).pc))
  {
    if Next(cfg, s, call, ch).event.None? {
      ReadingIsPlaced(cfg, s, call, ch);
    } else {
      assert Next(cfg, s, call, ch).pc.Answered?;
    }
  }

  lemma PlacedCallJoins(cfg: Config, before: Tokens, after: Tokens, calls: map<CallId, Call>, c: CallId, call: Call)
    requires Evolves(before, after) && CallsHold(cfg, before, calls)
    requires WellPlaced(cfg, before, call) && StepUpsValid(call)
    ensures CallsHold(cfg, after, calls[c := call])
  {
    EvolutionKeepsCalls(cfg, before, after, calls[c := call]);
  }

  /** The part of `Enabled` that the steps of a call rely on. */
  ghost predicate MayAdvance(cfg: Config, s: State, call: Call, ch: Choices) {
    && HonestAnswer(cfg, call.pc, ch.answers)
    && (PendingRecord(call.pc).Some? ==> Fresh(s.store, PendingRecord(call.pc).value))
  }

  lemma AdvanceKeepsStore(cfg: Config, s: State, call: Call, ch: Choices)
    requires StoreHolds(cfg, s.store, s.chains, s.log)
    requires WellPlaced(cfg, s.store.tokens, call) && StepUpsValid(call) && MayAdvance(cfg, s, call, ch)
    ensures var o := Next(cfg, s, call, ch);
            && StoreHolds(cfg, o.store, Extended(s.chains, o.event), Logged(s.log, o.event))
            && Evolves(s.store.tokens, o.store.tokens)
  {
    if Next(cfg, s, call, ch).event.None? {
      QuietCallKeepsStore(cfg, s, call, ch);
    } else {
      OnlySwapsCommit(cfg, s, call, ch);
      CommittingCallKeepsStore(cfg, s, call, ch);
    }
  }

  lemma AdvanceKeepsInv(cfg: Config, s: State, c: CallId, ch: Choices)
    requires Inv(cfg, s) && c in s.calls && MayAdvance(cfg, s, s.calls[c], ch)
    ensures var o := Next(cfg, s, s.calls[c], ch);
            && StoreHolds(cfg, o.store, Extended(s.chains, o.event), Logged(s.log, o.event))
            && Evolves(s.store.tokens, o.store.tokens)
            && CallsHold(cfg, o.store.tokens, s.calls[c := s.calls[c].(pc := o.pc)])
  {
    var call, o := s.calls[c], Next(cfg, s, s.calls[c], ch);
    AdvanceKeepsStore(cfg, s, call, ch);
    AdvancedIsPlaced(cfg, s, call, ch);
    PlacedCallJoins(cfg, s.store.tokens, o.store.tokens, s.calls, c, call.(pc := o.pc));
  }

  /** A step of the hosts that revokes records. */
  lemma RevocationKeepsInv(cfg: Config, s: State, store': Store)
    requires Inv(cfg, s)
    requires store' == s.store || (OnlyRevokes(s.store.tokens, store'.tokens) && IndexedStore(store'))
    ensures Inv(cfg, s.(store := store')) && Evolves(s.store.tokens, store'.tokens)
  {
    RevocationKeeps(cfg, s.store, store', s.chains, s.log);
    EvolutionKeepsCalls(cfg, s.store.tokens, store'.tokens, s.calls);
  }

  lemma AdminRevokeKeepsInv(cfg: Config, s: State, id: Id, at: Time)
    requires Inv(cfg, s)
    ensures Inv(cfg, s.(store := RevokeOne(s.store, id, at)))
    ensures Evolves(s.store.tokens, RevokeOne(s.store, id, at).tokens)
  {
    RevokeOneOnlyRevokes(s.store, id, at);
    RevocationKeepsInv(cfg, s, RevokeOne(s.store, id, at));
  }

  lemma AdminRevokeFamilyKeepsInv(cfg: Config, s: State, family: Id, at: Time, kept: set<Id>)
    requires Inv(cfg, s)
    ensures Inv(cfg, s.(store := RevokeFamily(s.store, family, at, kept)))
    ensures Evolves(s.store.tokens, RevokeFamily(s.store, family, at, kept).tokens)
  {
    RevokeFamilyOnlyRevokes(s.store, family, at, kept);
    RevocationKeepsInv(cfg, s, RevokeFamily(s.store, family, at, kept));
  }

  lemma LoginKeepsInv(cfg: Config, s: State, step: Step)
    requires Inv(cfg, s) && step.Login? && Enabled(cfg, s, step)
    ensures Inv(cfg, Apply(cfg, s, step)) && Evolves(s.store.tokens, Apply(cfg, s, step).store.tokens)
  {
    LoginKeepsStore(cfg, s, step);
    EvolutionKeepsCalls(cfg, s.store.tokens, Apply(cfg, s, step).store.tokens, s.calls);
  }

  lemma BeginKeepsInv(cfg: Config, s: State, c: CallId, request: Call)
    requires Inv(cfg, s) && (Requestable(request) || (request.pc == Answered(Aborted) && StepUpsValid(request)))
    ensures Inv(cfg, s.(calls := s.calls[c := request]))
  {
    StandingStillEvolves(s.store.tokens);
    PlacedCallJoins(cfg, s.store.tokens, s.store.tokens, s.calls, c, request);
  }

  /** Every enabled step keeps the invariant, and the store only evolves. */
  lemma StepKeepsInv(cfg: Config, s: State, step: Step)
    requires Inv(cfg, s) && Enabled(cfg, s, step)
    ensures Inv(cfg, Apply(cfg, s, step))
    ensures Evolves(s.store.tokens, Apply(cfg, s, step).store.tokens)
  {
    hide StoreHolds, WellPlaced, Evolves, Next, IssueTokens, RevokeOne, RevokeFamily;
    StandingStillEvolves(s.store.tokens);
    match step
    case Login(_, _, _, _, _) => LoginKeepsInv(cfg, s, step);
    case Advance(c, ch) => AdvanceKeepsInv(cfg, s, c, ch);
    case AdminRevoke(id, at) => AdminRevokeKeepsInv(cfg, s, id, at);
    case AdminRevokeFamily(family, at, kept) => AdminRevokeFamilyKeepsInv(cfg, s, family, at, kept);
    case Begin(c, request) => BeginKeepsInv(cfg, s, c, request);
    case Abort(c) => BeginKeepsInv(cfg, s, c, s.calls[c].(pc := Answered(Aborted)));
    case Tick(_) =>
  }

  /** Every state of every run satisfies the invariant. */
  lemma {:induction false} RunKeepsInv(cfg: Config, run: seq<State>, steps: seq<Step>, k: nat)
    requires IsRun(cfg, run, steps) && k < |run|
    ensures Inv(cfg, run[k])
  {
    if k > 0 {
      RunKeepsInv(cfg, run, steps, k - 1);
      StepKeepsInv(cfg, run[k - 1], steps[k - 1]);
    }
  }
}
