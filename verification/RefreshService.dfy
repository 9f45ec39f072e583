/** The session operations of src/service.rs as imperative code over the in-memory
    store: sign-in, refresh, step-up, reuse within the grace, and sign-out. Ghost
    state follows every call as a run of the protocol, so whatever is proved of all
    runs holds of these methods. */
module RefreshService {
  import opened Common
  import opened Assurance
  import Dedupe
  import opened RefreshRecords
  import opened RefreshMemoryStore
  import opened RotationProtocol
  import opened RotationInvariants
  import RotationSteps
  import RotationTheorems
  import RotationAnswers

  datatype IssueError = InvalidAssurance(fault: AssuranceInputError) | IssuanceRefused(error: RotationError)

  const NO_ANSWERS: Answers := Answers(None, None, NoProvider, false, 0, "")

  /** Identities drawn so far are below `id`, opaque tokens shorter than `length`. */
  ghost predicate DrawnBelow(store: Store, chains: map<Id, seq<Id>>, id: Id, length: nat) {
    && (forall i :: i in store.tokens ==> i < id)
    && (forall f :: f in chains ==> f < id)
    && (forall h :: h in store.byHash ==> |h| < length)
  }

  /** Identity and opaque token of a record that is yet to be stored. */
  ghost predicate Unused(store: Store, id: Id, hash: string, nextId: Id, nextLength: nat) {
    id !in store.tokens && hash !in store.byHash && id < nextId && |hash| < nextLength
  }

  /** A record that a call has prepared and not yet stored, if any, is still new. */
  ghost predicate PendingUnused(store: Store, pending: Option<RefreshToken>, nextId: Id, nextLength: nat) {
    pending.Some? ==> Unused(store, pending.value.id, pending.value.tokenHash, nextId, nextLength)
  }

  // ----- Steps, seen from the ghost run ----------------------------------------------------

  /** The run ends in `s`. */
  ghost predicate Tracks(cfg: Config, run: seq<State>, steps: seq<Step>, s: State) {
    run != [] && IsRun(cfg, run, steps) && run[|run| - 1] == s
  }

  lemma StepTracks(cfg: Config, run: seq<State>, steps: seq<Step>, s: State, step: Step)
    requires Tracks(cfg, run, steps, s) && Enabled(cfg, s, step)
    ensures Tracks(cfg, run + [Apply(cfg, s, step)], steps + [step], Apply(cfg, s, step))
  {
    var run', steps' := run + [Apply(cfg, s, step)], steps + [step];
    forall i | 0 <= i < |steps'|
      ensures Enabled(cfg, run'[i], steps'[i]) && run'[i + 1] == Apply(cfg, run'[i], steps'[i])
    {
      if i < |steps| {
        assert run'[i] == run[i] && run'[i + 1] == run[i + 1] && steps'[i] == steps[i];
      }
    }
  }

  lemma TrackedHolds(cfg: Config, run: seq<State>, steps: seq<Step>, s: State)
    requires Tracks(cfg, run, steps, s)
    ensures Inv(cfg, s)
  {
    RotationSteps.RunKeepsInv(cfg, run, steps, |run| - 1);
  }

  ghost predicate MayStep(cfg: Config, s: State, c: CallId, ch: Choices, nextId: Id, nextLength: nat) {
    && c in s.calls && !s.calls[c].pc.Answered?
    && (PendingRecord(s.calls[c].pc).Some? ==>
          var record := PendingRecord(s.calls[c].pc).value; Unused(s.store, record.id, record.tokenHash, nextId, nextLength))
    && (cfg.honestUsers && AskedUser(s.calls[c].pc).Some? && ch.answers.user.Some? ==>
          ch.answers.user.value.id == AskedUser(s.calls[c].pc).value)
  }

  ghost function Advanced(cfg: Config, s: State, c: CallId, ch: Choices): State
    requires c in s.calls
  {
    var o := Next(cfg, s, s.calls[c], ch);
    s.(store := o.store, calls := s.calls[c := s.calls[c].(pc := o.pc)],
       chains := Extended(s.chains, o.event), log := Logged(s.log, o.event))
  }

  lemma AdvanceIsStep(cfg: Config, s: State, c: CallId, ch: Choices, nextId: Id, nextLength: nat)
    requires MayStep(cfg, s, c, ch, nextId, nextLength)
    ensures Enabled(cfg, s, Advance(c, ch)) && Apply(cfg, s, Advance(c, ch)) == Advanced(cfg, s, c, ch)
  {
  }

  lemma QuietStepKeepsKeys(cfg: Config, s: State, call: Call, ch: Choices)
    requires Next(cfg, s, call, ch).event.None?
    ensures var store := Next(cfg, s, call, ch).store;
            store.tokens.Keys == s.store.tokens.Keys && store.byHash == s.store.byHash
  {
  }

  lemma CommitAddsPending(cfg: Config, s: State, call: Call, ch: Choices)
    requires Next(cfg, s, call, ch).event.Some?
    ensures PendingRecord(call.pc).Some?
    ensures var record, store := PendingRecord(call.pc).value, Next(cfg, s, call, ch).store;
            && store.tokens.Keys == s.store.tokens.Keys + {record.id}
            && store.byHash == s.store.byHash[record.tokenHash := record.id]
  {
  }

  /** A committed rotation is of a family that a login created. */
  lemma CommittedFamilyIsKnown(cfg: Config, s: State, call: Call, ch: Choices)
    requires WellPlaced(cfg, s.store.tokens, call) && AllChained(s.store.tokens, s.chains)
    requires Next(cfg, s, call, ch).event.Some?
    ensures Next(cfg, s, call, ch).event.value.Rotated? && Next(cfg, s, call, ch).event.value.family in s.chains
  {
    hide AllChained, CanReplaceNewest, SupersededWithin, PreparedFor, Continues;
    RotationSteps.OnlySwapsCommit(cfg, s, call, ch);
    if call.pc.Rotating? {
      StoredFamilyIsKnown(s, call.pc.existing);
    } else {
      StoredFamilyIsKnown(s, call.pc.newest);
    }
  }

  lemma StoredFamilyIsKnown(s: State, token: RefreshToken)
    requires AllChained(s.store.tokens, s.chains) && Snapshot(s.store.tokens, token)
    ensures token.familyId in s.chains
  {
  }

  lemma ExtendingKeepsFamilies(chains: map<Id, seq<Id>>, event: Option<Event>)
    requires event.Some? ==> event.value.Rotated? && event.value.family in chains
    ensures Extended(chains, event).Keys == chains.Keys
  {
  }

  lemma SameKeysStayDrawn(before: Store, after: Store, chains: map<Id, seq<Id>>, chains': map<Id, seq<Id>>,
                          added: Option<RefreshToken>, nextId: Id, nextLength: nat)
    requires DrawnBelow(before, chains, nextId, nextLength) && chains'.Keys == chains.Keys
    requires added.None? ==> after.tokens.Keys == before.tokens.Keys && after.byHash == before.byHash
    requires added.Some? ==>
               && Unused(before, added.value.id, added.value.tokenHash, nextId, nextLength)
               && after.tokens.Keys == before.tokens.Keys + {added.value.id}
               && after.byHash == before.byHash[added.value.tokenHash := added.value.id]
    ensures DrawnBelow(after, chains', nextId, nextLength)
  {
    assert forall i :: i in after.tokens ==> i in after.tokens.Keys;
    assert forall f :: f in chains' ==> f in chains'.Keys;
  }

  lemma AdvanceStaysDrawn(cfg: Config, s: State, c: CallId, ch: Choices, nextId: Id, nextLength: nat)
    requires MayStep(cfg, s, c, ch, nextId, nextLength)
    requires WellPlaced(cfg, s.store.tokens, s.calls[c]) && AllChained(s.store.tokens, s.chains)
    requires DrawnBelow(s.store, s.chains, nextId, nextLength)
    ensures DrawnBelow(Advanced(cfg, s, c, ch).store, Advanced(cfg, s, c, ch).chains, nextId, nextLength)
  {
    hide Next, DrawnBelow, Unused, AllChained, WellPlaced, Extended, Logged;
    var o := Next(cfg, s, s.calls[c], ch);
    if o.event.Some? {
      CommitAddsPending(cfg, s, s.calls[c], ch);
      CommittedFamilyIsKnown(cfg, s, s.calls[c], ch);
      ExtendingKeepsFamilies(s.chains, o.event);
      SameKeysStayDrawn(s.store, o.store, s.chains, Extended(s.chains, o.event), PendingRecord(s.calls[c].pc), nextId, nextLength);
    } else {
      QuietStepKeepsKeys(cfg, s, s.calls[c], ch);
      ExtendingKeepsFamilies(s.chains, o.event);
      SameKeysStayDrawn(s.store, o.store, s.chains, Extended(s.chains, o.event), None, nextId, nextLength);
    }
  }

  /** What a call that lost a race re-reads is the record it read before. */
  lemma RereadIsSameFamily(cfg: Config, s: State, c: CallId)
    requires Inv(cfg, s) && c in s.calls && s.calls[c].pc.Rereading?
    requires FindByHash(s.store, s.calls[c].hash).Some?
    ensures FindByHash(s.store, s.calls[c].hash).value.familyId == s.calls[c].pc.existing.familyId
  {
    assert WellPlaced(cfg, s.store.tokens, s.calls[c]);
    RotationSteps.FoundIsSnapshot(s.store, s.calls[c].hash);
  }

  /** The element the store's answer holds is the one live record. */
  lemma AnswerIsTheElement(tokens: Tokens, family: Id, live: seq<RefreshToken>)
    requires |live| == |LiveInFamily(tokens, family)| == 1
    requires live[0].id in LiveInFamily(tokens, family) && tokens[live[0].id] == live[0]
    ensures tokens[TheElement(LiveInFamily(tokens, family))] == live[0]
  {
  }

  class SessionService {
    const cfg: Config
    const store: MemoryRefreshTokenStore
    var nextId: Id
    var nextLength: nat
    ghost var nextCall: CallId
    ghost var state: State
    ghost var run: seq<State>
    ghost var steps: seq<Step>

    /** The books are in order: the history is a run, and what is drawn next is new. */
    ghost predicate Books()
      reads this
    {
      && Tracks(cfg, run, steps, state)
      && CallsBelow(state.calls, nextCall)
      && DrawnBelow(state.store, state.chains, nextId, nextLength)
    }

    ghost predicate Valid()
      reads this, store
    {
      store.Valid() && state.store == store.View() && Books()
    }

    lemma BooksHold()
      requires Books()
      ensures Inv(cfg, state)
    {
      TrackedHolds(cfg, run, steps, state);
    }

    twostate predicate Continues()
      reads this
    {
      old(run) <= run && old(steps) <= steps
    }

    constructor (cfg: Config, start: Time)
      ensures Valid() && this.cfg == cfg && steps == [] && fresh(store)
    {
      this.cfg := cfg;
      store := new MemoryRefreshTokenStore();
      nextId, nextLength, nextCall := 0, 0, 0;
      state := State(EmptyStore, map[], start, map[], []);
      run, steps := [State(EmptyStore, map[], start, map[], [])], [];
    }

    ghost method TakeAdvance(c: CallId, ch: Choices)
      requires Books() && MayStep(cfg, state, c, ch, nextId, nextLength)
      modifies `state, `run, `steps
      ensures Books() && Continues() && c in old(state).calls && state == Advanced(cfg, old(state), c, ch)
      ensures steps == old(steps) + [Advance(c, ch)]
    {
      hide DrawnBelow, IsRun, Next, Apply, Enabled, MayStep;
      TrackedHolds(cfg, run, steps, state);
      AdvanceIsStep(cfg, state, c, ch, nextId, nextLength);
      StepTracks(cfg, run, steps, state, Advance(c, ch));
      CallIsPlaced(cfg, state, c);
      AdvanceStaysDrawn(cfg, state, c, ch, nextId, nextLength);
      state := Advanced(cfg, state, c, ch);
      run, steps := run + [state], steps + [Advance(c, ch)];
    }

    ghost method TakeTick(at: Time)
      requires Books()
      modifies `state, `run, `steps
      ensures Books() && Continues() && state == old(state).(clock := at)
      ensures steps == old(steps) + [Tick(at)]
    {
      hide DrawnBelow, IsRun;
      StepTracks(cfg, run, steps, state, Tick(at));
      state := state.(clock := at);
      run, steps := run + [state], steps + [Tick(at)];
    }

    ghost method TakeBegin(request: Call) returns (c: CallId)
      requires Books() && Requestable(request)
      modifies `state, `run, `steps, `nextCall
      ensures Books() && Continues() && c == old(nextCall)
      ensures state == old(state).(calls := old(state).calls[c := request])
      ensures steps == old(steps) + [Begin(c, request)] && run == old(run) + [state]
    {
      hide DrawnBelow, IsRun;
      c := nextCall;
      StepTracks(cfg, run, steps, state, Begin(c, request));
      state := state.(calls := state.calls[c := request]);
      run, steps, nextCall := run + [state], steps + [Begin(c, request)], nextCall + 1;
    }

    ghost method TakeAdminRevoke(id: Id, at: Time)
      requires Books()
      modifies `state, `run, `steps
      ensures Books() && Continues() && state == old(state).(store := RevokeOne(old(state).store, id, at))
    {
      hide IsRun;
      StepTracks(cfg, run, steps, state, AdminRevoke(id, at));
      state := state.(store := RevokeOne(state.store, id, at));
      run, steps := run + [state], steps + [AdminRevoke(id, at)];
    }

    /** Any steps of other calls, of administrators and of the clock, while `c` awaits.
        Nothing is drawn twice, so the identities of the record that `c` has pending, if
        any, stay unused. Callers rely on the contract only; what happens meanwhile is
        not theirs to know. */
    method AwaitTurn(ghost c: CallId, ghost pending: Option<RefreshToken>)
      requires Valid() && c in state.calls && PendingUnused(state.store, pending, nextId, nextLength)
      modifies this, store
      ensures Valid() && Continues() && c in state.calls && state.calls[c] == old(state).calls[c]
      ensures PendingUnused(state.store, pending, nextId, nextLength)
    {
      hide IndexedStore, Books;
      var other: Id, at: Time := *, *;
      store.RevokeRefreshToken(other, at);
      TakeAdminRevoke(other, at);
    }

    /** `Uuid::new_v4`, and an opaque token's hash. */
    method Draw() returns (id: Id, hash: string)
      requires Valid()
      modifies `nextId, `nextLength
      ensures Valid() && Unused(state.store, id, hash, nextId, nextLength)
      ensures id !in state.chains && old(nextId) <= nextId && old(nextLength) <= nextLength
    {
      hide IsRun, Tracks, IndexedStore;
      id, hash := nextId, seq(nextLength, _ => '0');
      nextId, nextLength := nextId + 1, nextLength + 1;
    }

    /** Whatever the user store and the hosts answer now, with a new identity and token. */
    method Consult(asked: string) returns (answers: Answers)
      requires Valid()
      modifies `nextId, `nextLength
      ensures Valid() && Unused(state.store, answers.freshId, answers.freshHash, nextId, nextLength)
      ensures old(nextId) <= nextId && old(nextLength) <= nextLength
      ensures cfg.honestUsers && answers.user.Some? ==> answers.user.value.id == asked
    {
      var id, hash := Draw();
      var user: Option<StoredUser> := *;
      if cfg.honestUsers && user.Some? && user.value.id != asked {
        user := None;
      }
      var grant: Option<Grant>, roles: ProviderAnswer, signs: bool := *, *, *;
      answers := Answers(user, grant, roles, signs, id, hash);
    }

    method ReadClock() returns (now: Time)
      requires Valid()
      modifies `state, `run, `steps
      ensures Valid() && Continues() && state == old(state).(clock := now) && steps == old(steps) + [Tick(now)]
    {
      now := *;
      TakeTick(now);
    }

    method Find(ghost c: CallId, hash: string) returns (found: Option<RefreshToken>)
      requires Valid() && c in state.calls
      modifies this, store
      ensures Valid() && Continues() && c in state.calls && state.calls[c] == old(state).calls[c]
      ensures found == FindByHash(state.store, hash)
    {
      hide IndexedStore, Books, Unused, FindByHash;
      AwaitTurn(c, None);
      found := store.FindRefreshTokenByHash(hash);
    }

    /** The first read of a refresh, and where it leads. */
    method ReadFirst(ghost c: CallId, now: Time, hash: string) returns (found: Option<RefreshToken>)
      requires Valid() && c in state.calls && state.calls[c].pc == LookingUp(now) && state.calls[c].hash == hash
      modifies this, store
      ensures Valid() && Continues() && c in state.calls
      ensures state.calls[c] == old(state).calls[c].(pc :=
                if found.None? then Answered(Refused)
                else if found.value.Revoked() then
                  if cfg.grace.Some? then Reusing(found.value, now, 0)
                  else Condemning(found.value.familyId, found.value.id, now, now)
                else if found.value.ExpiredAt(now) then Expiring(found.value, now)
                else Preparing(found.value, now))
    {
      hide IndexedStore, Books, Unused, FindByHash;
      found := Find(c, hash);
      TakeAdvance(c, Choices(NO_ANSWERS, now, {}));
    }

    /** The read after a lost race: of the same record, unless it is gone. */
    method ReadAgain(ghost c: CallId, existing: RefreshToken, now: Time, hash: string) returns (current: Option<RefreshToken>)
      requires Valid() && c in state.calls && state.calls[c].pc == Rereading(existing, now) && state.calls[c].hash == hash
      modifies this, store
      ensures Valid() && Continues() && c in state.calls
      ensures state.calls[c] == old(state).calls[c].(pc :=
                if current.Some? then Reusing(current.value, now, 0)
                else Condemning(existing.familyId, existing.id, now, now))
      ensures current.Some? ==> current.value.familyId == existing.familyId
    {
      hide IndexedStore, Books, Unused, FindByHash, Inv;
      current := Find(c, hash);
      BooksHold();
      if current.Some? {
        RereadIsSameFamily(cfg, state, c);
      }
      TakeAdvance(c, Choices(NO_ANSWERS, now, {}));
    }

    /** The payload is what the newest event of the history issued. */
    ghost predicate JustIssued(payload: Prepared)
      reads this
    {
      && state.log != []
      && var e := state.log[|state.log| - 1];
         && e.Rotated? && e.replacement == payload.record.id && e.user == payload.user
         && payload.record.id in state.store.tokens && state.store.tokens[payload.record.id] == payload.record
    }

    /** Revokes the family of a call that decided on replay. */
    method Condemn(ghost c: CallId, family: Id, now: Time)
      requires Valid() && c in state.calls && state.calls[c].pc.Condemning?
      requires state.calls[c].pc.family == family && state.calls[c].pc.now == now
      modifies this, store
      ensures Valid() && Continues() && c in state.calls
      ensures var pc := old(state).calls[c].pc;
              state.calls[c] == old(state).calls[c].(pc := Answered(Replay(pc.presentedId, pc.at)))
    {
      hide IndexedStore, Books, Unused, RevokeFamily;
      AwaitTurn(c, None);
      store.RevokeRefreshTokenFamily(family, now);
      TakeAdvance(c, Choices(NO_ANSWERS, now, {}));
    }

    /** The compare-and-swap that commits a prepared rotation. */
    method Commit(ghost c: CallId, currentId: Id, payload: Prepared, at: Time, client: ClientMetadata)
      returns (rotated: bool)
      requires Valid() && c in state.calls && state.calls[c].client == client
      requires Unused(state.store, payload.record.id, payload.record.tokenHash, nextId, nextLength)
      requires var pc := state.calls[c].pc;
               || (pc.Rotating? && pc.existing.id == currentId && pc.next == payload && pc.now == at)
               || (pc.ReuseRotating? && pc.newest.id == currentId && pc.next == payload && pc.at == at)
      modifies this, store
      ensures Valid() && Continues() && c in state.calls
      ensures var call := old(state).calls[c];
              && (rotated ==> state.calls[c] == call.(pc := Answered(Issued(payload.record.id))) && JustIssued(payload))
              && (!rotated ==> state.calls[c] == call.(pc :=
                    match call.pc
                    case Rotating(existing, _, now) =>
                      if cfg.grace.Some? then Rereading(existing, now)
                      else Condemning(existing.familyId, existing.id, now, now)
                    case ReuseRotating(presented, _, _, now, tries, _) => Reusing(presented, now, tries + 1)
                    case other => other))
    {
      hide IndexedStore, Books, Unused;
      AwaitTurn(c, Some(payload.record));
      UnusedIsFresh(state.store, payload.record, nextId, nextLength);
      rotated := store.RotateRefreshToken(currentId, payload.record, at, client);
      TakeAdvance(c, Choices(NO_ANSWERS, at, {}));
    }

    /** `prepare_rotation` under whatever authority is current now. */
    method PrepareFor(ghost c: CallId, source: RefreshToken, newest: Option<RefreshToken>, client: ClientMetadata,
                      stepUp: Option<SessionAssurance>, at: Time)
      returns (prepared: Result<Prepared, RotationError>)
      requires Valid() && c in state.calls
      requires state.calls[c].client == client && state.calls[c].stepUp == stepUp
      requires match state.calls[c].pc
               case Preparing(existing, now) => existing == source && newest.None? && now == at
               case ReusePreparing(presented, n, _, _, t) => presented == source && newest == Some(n) && t == at
               case _ => false
      modifies this
      ensures Valid() && Continues() && c in state.calls
      ensures |steps| == |old(steps)| + 1 && steps[|old(steps)|].Advance? && steps[|old(steps)|].call == c
      ensures prepared.Success? <==> MayRotate(source, at, cfg.refreshTtl, steps[|old(steps)|].choices.answers)
      ensures prepared.Failure? ==> state.calls[c] == old(state).calls[c].(pc := Answered(Refused))
      ensures prepared.Success? ==>
                && Unused(state.store, prepared.value.record.id, prepared.value.record.tokenHash, nextId, nextLength)
                && state.calls[c] == old(state).calls[c].(pc :=
                     match old(state).calls[c].pc
                     case Preparing(existing, now) => Rotating(existing, prepared.value, now)
                     case ReusePreparing(presented, n, now, tries, t) =>
                       ReuseRotating(presented, n, prepared.value, now, tries, t)
                     case other => other)
    {
      hide IndexedStore, Books, Unused, PrepareRotation;
      var answers := Consult(source.userId);
      prepared := PrepareRotation(source, newest, client, stepUp, at, cfg.refreshTtl, answers);
      RotatesExactly(source, newest, client, stepUp, at, cfg.refreshTtl, answers);
      if prepared.Success? {
        PreparedIsDrawn(source, newest, client, stepUp, at, cfg.refreshTtl, answers);
      }
      TakeAdvance(c, Choices(answers, at, {}));
    }

    /** The head of the retry loop: the clock is read again each time round. */
    method ReadWindow(ghost c: CallId, presented: RefreshToken, ghost now: Time, ghost tries: nat, window: Duration)
      returns (at: Time)
      requires Valid() && c in state.calls && cfg.grace == Some(window) && tries < MAX_REFRESH_REUSE_GRACE_RETRIES
      requires state.calls[c].pc == Reusing(presented, now, tries)
      modifies `state, `run, `steps
      ensures Valid() && Continues() && c in state.calls
      ensures state.calls[c] == old(state).calls[c].(pc :=
                if SupersededWithin(presented, at, window) then FindingLive(presented, now, tries, at)
                else Condemning(presented.familyId, presented.id, now, at))
    {
      hide IndexedStore, Books, Unused, SupersededWithin;
      at := ReadClock();
      TakeAdvance(c, Choices(NO_ANSWERS, at, {}));
    }

    /** After the last retry. */
    ghost method GiveUp(c: CallId, presented: RefreshToken, now: Time)
      requires Valid() && c in state.calls
      requires state.calls[c].pc == Reusing(presented, now, MAX_REFRESH_REUSE_GRACE_RETRIES)
      modifies `state, `run, `steps
      ensures Valid() && Continues() && c in state.calls
      ensures state.calls[c] == old(state).calls[c].(pc := Answered(Contention))
    {
      hide IndexedStore, Books;
      TakeAdvance(c, Choices(NO_ANSWERS, now, {}));
    }

    /** `reissue_within_reuse_grace`; no answer means that the reuse is replay, decided
        when the clock read `decidedAt`. */
    method ReissueWithinReuseGrace(ghost c: CallId, now: Time, presented: RefreshToken, client: ClientMetadata,
                                   stepUp: Option<SessionAssurance>)
      returns (answer: Option<Answer>, payload: Option<Prepared>, decidedAt: Time)
      requires Valid() && c in state.calls
      requires state.calls[c].client == client && state.calls[c].stepUp == stepUp
      requires state.calls[c].pc == if cfg.grace.Some? then Reusing(presented, now, 0)
                                    else Condemning(presented.familyId, presented.id, now, now)
      modifies this, store
      ensures Valid() && Continues() && c in state.calls
      ensures answer.None? ==>
                state.calls[c] == old(state).calls[c].(pc := Condemning(presented.familyId, presented.id, now, decidedAt))
      ensures answer.Some? ==> state.calls[c] == old(state).calls[c].(pc := Answered(answer.value))
      ensures answer.Some? ==> answer.value.Refused? || answer.value.Contention? || answer.value.Issued?
      ensures answer.Some? && answer.value.Issued? ==>
                payload.Some? && answer.value == Issued(payload.value.record.id) && JustIssued(payload.value)
    {
      hide IndexedStore, Books, Unused, JustIssued, SupersededWithin, Next, Advanced;
      payload := None;
      if cfg.grace.None? {
        return None, None, now;
      }
      var window := cfg.grace.value;
      for tries := 0 to MAX_REFRESH_REUSE_GRACE_RETRIES
        invariant Valid() && Continues() && c in state.calls
        invariant state.calls[c] == old(state).calls[c].(pc := Reusing(presented, now, tries))
      {
        var at := ReadWindow(c, presented, now, tries, window);
        if !SupersededWithin(presented, at, window) {
          return None, None, at;
        }
        var newest := FindNewest(c, now, tries, at, presented);
        if newest.None? {
          return None, None, at;
        }
        var prepared := PrepareFor(c, presented, newest, client, stepUp, at);
        if prepared.Failure? {
          return Some(Refused), None, at;
        }
        var rotated := Commit(c, newest.value.id, prepared.value, at, client);
        if rotated {
          return Some(Issued(prepared.value.record.id)), Some(prepared.value), at;
        }
      }
      GiveUp(c, presented, now);
      return Some(Contention), None, now;
    }

    /** The family's newest token, if the store can tell and it may be replaced. */
    method FindNewest(ghost c: CallId, ghost now: Time, ghost tries: nat, at: Time, presented: RefreshToken)
      returns (newest: Option<RefreshToken>)
      requires Valid() && c in state.calls && state.calls[c].pc == FindingLive(presented, now, tries, at)
      modifies this, store
      ensures Valid() && Continues() && c in state.calls
      ensures state.calls[c] == old(state).calls[c].(pc :=
                if newest.Some? then ReusePreparing(presented, newest.value, now, tries, at)
                else Condemning(presented.familyId, presented.id, now, at))
    {
      hide IndexedStore, Books, Unused, LiveInFamily, CanReplaceNewest;
      AwaitTurn(c, None);
      if !cfg.findsLive {
        TakeAdvance(c, Choices(NO_ANSWERS, at, {}));
        return None;
      }
      var live := store.FindLiveRefreshTokensInFamily(presented.familyId);
      if |live| == 1 {
        AnswerIsTheElement(state.store.tokens, presented.familyId, live);
      }
      TakeAdvance(c, Choices(NO_ANSWERS, at, {}));
      if |live| != 1 || !CanReplaceNewest(presented, live[0], at) {
        return None;
      }
      return Some(live[0]);
    }

    /** A revoked token either is reissued within the grace or condemns its family. */
    method ReissueOrCondemn(ghost c: CallId, now: Time, presented: RefreshToken, family: Id, client: ClientMetadata,
                            stepUp: Option<SessionAssurance>)
      returns (answer: Answer, payload: Option<Prepared>)
      requires Valid() && c in state.calls && presented.familyId == family
      requires state.calls[c].client == client && state.calls[c].stepUp == stepUp
      requires state.calls[c].pc == if cfg.grace.Some? then Reusing(presented, now, 0)
                                    else Condemning(presented.familyId, presented.id, now, now)
      modifies this, store
      ensures Valid() && Continues() && c in state.calls
      ensures state.calls[c] == old(state).calls[c].(pc := Answered(answer))
      ensures answer.Issued? ==>
                payload.Some? && answer == Issued(payload.value.record.id) && JustIssued(payload.value)
      ensures answer.Refused? || answer.Contention? || answer.Issued? || answer.Replay?
    {
      hide IndexedStore, Books, Unused, JustIssued, Next, Advanced;
      var reissued, reissuedPayload, decidedAt := ReissueWithinReuseGrace(c, now, presented, client, stepUp);
      if reissued.Some? {
        return reissued.value, reissuedPayload;
      }
      Condemn(c, family, now);
      return Replay(presented.id, decidedAt), None;
    }

    /** The call starts, and reads its clock once. */
    method BeginRefresh(hash: string, client: ClientMetadata, stepUp: Option<SessionAssurance>)
      returns (now: Time, ghost c: CallId)
      requires Valid() && (stepUp.Some? ==> Validate(stepUp.value).None? && stepUp.value.mfa == Satisfied)
      modifies `state, `run, `steps, `nextCall
      ensures Valid() && Continues() && c == old(nextCall) && c in state.calls
      ensures state.calls[c] == Call(hash, stepUp, client, LookingUp(now))
      ensures old(steps) + [Begin(c, Call(hash, stepUp, client, Begun))] <= steps
    {
      hide IndexedStore, Books, Validate;
      c := TakeBegin(Call(hash, stepUp, client, Begun));
      now := ReadClock();
      TakeAdvance(c, Choices(NO_ANSWERS, now, {}));
    }

    /** `rotate_session`: refresh, and step-up when it carries an assurance. */
    method RotateSession(hash: string, client: ClientMetadata, stepUp: Option<SessionAssurance>)
      returns (answer: Answer, payload: Option<Prepared>, ghost c: CallId)
      requires Valid() && (stepUp.Some? ==> Validate(stepUp.value).None? && stepUp.value.mfa == Satisfied)
      modifies this, store
      ensures Valid() && Continues()
      ensures c == old(nextCall) && c in state.calls
      ensures state.calls[c] == Call(hash, stepUp, client, Answered(answer))
      ensures old(steps) + [Begin(c, Call(hash, stepUp, client, Begun))] <= steps
      ensures answer.Issued? ==>
                payload.Some? && answer == Issued(payload.value.record.id) && JustIssued(payload.value)
      ensures answer.Refused? || answer.TokenExpired? || answer.Contention? || answer.Issued? || answer.Replay?
      ensures AnswerIsDue(c)
    {
      hide IndexedStore, Books, JustIssued, Validate, AnswerIsDue;
      var now;
      now, c := BeginRefresh(hash, client, stepUp);
      answer, payload := RotateFound(c, now, hash, client, stepUp);
      AnsweredIsDue(c);
    }

    /** The branches on what is stored under the presented hash. */
    method RotateFound(ghost c: CallId, now: Time, hash: string, client: ClientMetadata, stepUp: Option<SessionAssurance>)
      returns (answer: Answer, payload: Option<Prepared>)
      requires Valid() && c in state.calls && state.calls[c] == Call(hash, stepUp, client, LookingUp(now))
      modifies this, store
      ensures Valid() && Continues() && c in state.calls && state.calls[c] == Call(hash, stepUp, client, Answered(answer))
      ensures answer.Issued? ==>
                payload.Some? && answer == Issued(payload.value.record.id) && JustIssued(payload.value)
      ensures answer.Refused? || answer.TokenExpired? || answer.Contention? || answer.Issued? || answer.Replay?
    {
      hide IndexedStore, Books, Unused, JustIssued, FindByHash, Next, Advanced, Validate;
      payload := None;
      var found := ReadFirst(c, now, hash);
      if found.None? {
        return Refused, None;
      }
      var existing := found.value;
      if existing.Revoked() {
        answer, payload := ReissueOrCondemn(c, now, existing, existing.familyId, client, stepUp);
        return;
      }
      if existing.ExpiredAt(now) {
        Expire(c, existing.id, now);
        return TokenExpired, None;
      }
      answer, payload := RotateLive(c, existing, now, hash, client, stepUp);
    }

    /** The ordinary rotation of a token that was read as live. */
    method RotateLive(ghost c: CallId, existing: RefreshToken, now: Time, hash: string, client: ClientMetadata,
                      stepUp: Option<SessionAssurance>)
      returns (answer: Answer, payload: Option<Prepared>)
      requires Valid() && c in state.calls
      requires state.calls[c] == Call(hash, stepUp, client, Preparing(existing, now))
      modifies this, store
      ensures Valid() && Continues() && c in state.calls
      ensures state.calls[c] == Call(hash, stepUp, client, Answered(answer))
      ensures answer.Issued? ==>
                payload.Some? && answer == Issued(payload.value.record.id) && JustIssued(payload.value)
      ensures answer.Refused? || answer.Contention? || answer.Issued? || answer.Replay?
    {
      hide IndexedStore, Books, Unused, JustIssued, Next, Advanced;
      var prepared := PrepareFor(c, existing, None, client, stepUp, now);
      if prepared.Failure? {
        return Refused, None;
      }
      var rotated := Commit(c, existing.id, prepared.value, now, client);
      if rotated {
        return Issued(prepared.value.record.id), Some(prepared.value);
      }
      answer, payload := ExplainLoss(c, existing, now, hash, client, stepUp);
    }

    /** Retires a token that was presented after its expiry. */
    method Expire(ghost c: CallId, id: Id, now: Time)
      requires Valid() && c in state.calls && state.calls[c].pc.Expiring?
      requires state.calls[c].pc.existing.id == id && state.calls[c].pc.now == now
      modifies this, store
      ensures Valid() && Continues() && c in state.calls
      ensures state.calls[c] == old(state).calls[c].(pc := Answered(TokenExpired))
    {
      hide IndexedStore, Books, Unused, RevokeOne;
      AwaitTurn(c, None);
      store.RevokeRefreshToken(id, now);
      TakeAdvance(c, Choices(NO_ANSWERS, now, {}));
    }

    /** After a lost compare-and-swap: the record is stale, so read again why. */
    method ExplainLoss(ghost c: CallId, existing: RefreshToken, now: Time, hash: string, client: ClientMetadata,
                       stepUp: Option<SessionAssurance>)
      returns (answer: Answer, payload: Option<Prepared>)
      requires Valid() && c in state.calls
      requires state.calls[c] == Call(hash, stepUp, client,
                                      if cfg.grace.Some? then Rereading(existing, now)
                                      else Condemning(existing.familyId, existing.id, now, now))
      modifies this, store
      ensures Valid() && Continues() && c in state.calls
      ensures state.calls[c] == Call(hash, stepUp, client, Answered(answer))
      ensures answer.Issued? ==>
                payload.Some? && answer == Issued(payload.value.record.id) && JustIssued(payload.value)
      ensures answer.Refused? || answer.Contention? || answer.Issued? || answer.Replay?
    {
      hide IndexedStore, Books, Unused, JustIssued, FindByHash, Next, Advanced, Validate;
      if cfg.grace.Some? {
        var current := ReadAgain(c, existing, now, hash);
        if current.Some? {
          answer, payload := ReissueOrCondemn(c, now, current.value, existing.familyId, client, stepUp);
          return;
        }
      }
      Condemn(c, existing.familyId, now);
      return Replay(existing.id, now), None;
    }

    /** `refresh`: a rotation that carries no step-up. */
    method Refresh(hash: string, client: ClientMetadata) returns (answer: Answer, payload: Option<Prepared>, ghost c: CallId)
      requires Valid()
      modifies this, store
      ensures Valid() && Continues()
      ensures c == old(nextCall) && c in state.calls
      ensures state.calls[c] == Call(hash, None, client, Answered(answer))
      ensures old(steps) + [Begin(c, Call(hash, None, client, Begun))] <= steps
      ensures answer.Issued? ==>
                payload.Some? && answer == Issued(payload.value.record.id) && JustIssued(payload.value)
      ensures answer.Refused? || answer.TokenExpired? || answer.Contention? || answer.Issued? || answer.Replay?
      ensures AnswerIsDue(c)
    {
      hide IndexedStore, Books, JustIssued, Validate, AnswerIsDue;
      answer, payload, c := RotateSession(hash, client, None);
    }

    /** `step_up_session`: an assurance that cannot be built leaves everything alone. */
    method StepUpSession(hash: string, client: ClientMetadata, methods: seq<string>, acr: Option<string>,
                         context: Option<string>, now: Time)
      returns (result: Result<Answer, AssuranceInputError>, payload: Option<Prepared>, ghost c: CallId)
      requires Valid()
      modifies this, store
      ensures Valid() && Continues()
      ensures result.Failure? <==> NewAssurance(now, methods, acr, context, Satisfied).Failure?
      ensures result.Failure? ==> state == old(state)
      ensures result.Success? ==>
                var stepUp, answer := Some(NewAssurance(now, methods, acr, context, Satisfied).value), result.value;
                && c == old(nextCall) && c in state.calls
                && state.calls[c] == Call(hash, stepUp, client, Answered(answer))
                && old(steps) + [Begin(c, Call(hash, stepUp, client, Begun))] <= steps
                && (answer.Refused? || answer.TokenExpired? || answer.Contention? || answer.Issued? || answer.Replay?)
                && AnswerIsDue(c)
      ensures result.Success? && result.value.Issued? ==>
                payload.Some? && result.value == Issued(payload.value.record.id) && JustIssued(payload.value)
    {
      hide IndexedStore, Books, JustIssued, NormalizedMethods, Validate, AnswerIsDue;
      var assurance := NewAssurance(now, methods, acr, context, Satisfied);
      if assurance.Failure? {
        return Failure(assurance.error), None, 0;
      }
      ValidateAcceptsExactlyConstructed(assurance.value);
      var answer;
      answer, payload, c := RotateSession(hash, client, Some(assurance.value));
      result := Success(answer);
    }

    /** The record to sign out with, unless there is nothing to revoke. */
    method ReadSignOut(ghost c: CallId, hash: string, wholeFamily: bool, now: Time) returns (existing: Option<RefreshToken>)
      requires Valid() && c in state.calls && state.calls[c].pc == SignOutBegun(wholeFamily) && state.calls[c].hash == hash
      modifies this, store
      ensures Valid() && Continues() && c in state.calls
      ensures state.calls[c] == old(state).calls[c].(pc :=
                if existing.None? then Answered(SignedOut)
                else if wholeFamily then SigningOutFamily(existing.value.familyId)
                else SigningOutOne(existing.value.id))
    {
      hide IndexedStore, Books, Unused, FindByHash;
      existing := Find(c, hash);
      TakeAdvance(c, Choices(NO_ANSWERS, now, {}));
      if existing.Some? && !wholeFamily && cfg.grace.Some? && existing.value.Revoked() {
        existing := None;
      }
    }

    method FinishSignOut(ghost c: CallId, existing: RefreshToken, wholeFamily: bool, now: Time)
      requires Valid() && c in state.calls
      requires state.calls[c].pc == if wholeFamily then SigningOutFamily(existing.familyId) else SigningOutOne(existing.id)
      modifies this, store
      ensures Valid() && Continues() && c in state.calls
      ensures state.calls[c] == old(state).calls[c].(pc := Answered(SignedOut))
    {
      hide IndexedStore, Books, Unused, RevokeOne, RevokeFamily;
      AwaitTurn(c, None);
      if wholeFamily {
        store.RevokeRefreshTokenFamily(existing.familyId, now);
      } else {
        store.RevokeRefreshToken(existing.id, now);
      }
      TakeAdvance(c, Choices(NO_ANSWERS, now, {}));
    }

    /** `logout`. A whole-family sign-out leaves no live token of the family that the
        presented token belongs to. Within the reuse grace a revoked token is left alone,
        so that signing out with it cannot move its window. */
    method Logout(hash: string, wholeFamily: bool, client: ClientMetadata) returns (ghost c: CallId)
      requires Valid()
      modifies this, store
      ensures Valid() && Continues() && c == old(nextCall) && c in state.calls
      ensures state.calls[c] == Call(hash, None, client, Answered(SignedOut))
      ensures old(steps) + [Begin(c, Call(hash, None, client, SignOutBegun(wholeFamily)))] <= steps
      ensures var presented, tokens := old(FindByHash(store.View(), hash)), store.View().tokens;
              presented.Some? ==>
                && IsPresented(tokens, presented.value.id, hash) && tokens[presented.value.id].Revoked()
                && (wholeFamily ==> LiveInFamily(tokens, presented.value.familyId) == {})
    {
      hide IndexedStore, Books, Unused, FindByHash, Next, Advanced;
      ghost var presented := FindByHash(store.View(), hash);
      c := TakeBegin(Call(hash, None, client, SignOutBegun(wholeFamily)));
      ghost var begun := |run| - 1;
      if presented.Some? {
        RotationSteps.FoundIsSnapshot(store.View(), hash);
      }
      var now: Time := *;
      var existing := ReadSignOut(c, hash, wholeFamily, now);
      if existing.Some? {
        FinishSignOut(c, existing.value, wholeFamily, now);
      }
      if presented.Some? {
        SignedOutTokenIsRevoked(begun, c, wholeFamily, presented.value.id);
      }
    }

    /** What the sign-out begun at moment `j` leaves of the token, and of its family. */
    lemma SignedOutTokenIsRevoked(j: nat, c: CallId, wholeFamily: bool, member: Id)
      requires Books() && j < |run| && c in run[j].calls && run[j].calls[c].pc == SignOutBegun(wholeFamily)
      requires IsPresented(run[j].store.tokens, member, run[j].calls[c].hash)
      requires c in state.calls && state.calls[c].pc == Answered(SignedOut)
      ensures IsPresented(state.store.tokens, member, run[j].calls[c].hash) && state.store.tokens[member].Revoked()
      ensures wholeFamily ==> LiveInFamily(state.store.tokens, run[j].store.tokens[member].familyId) == {}
    {
      hide IsRun;
      if wholeFamily {
        RotationTheorems.SignOutIsFinal(cfg, run, steps, j, |run| - 1, c, member);
        RotationTheorems.RunEvolves(cfg, run, steps, j, |run| - 1);
        assert KeepsRecord(run[j].store.tokens[member], state.store.tokens[member]);
        assert member in LiveInFamily(state.store.tokens, state.store.tokens[member].familyId)
               || state.store.tokens[member].Revoked();
      } else {
        RotationAnswers.OneSignOutIsFinal(cfg, run, steps, j, |run| - 1, c, member);
      }
    }

    /** What call `c` has answered is due, by its own steps and by what they found. */
    ghost predicate AnswerIsDue(c: CallId)
      reads this
    {
      && run != [] && c in run[|run| - 1].calls && run[|run| - 1].calls[c].pc.Answered?
      && RotationAnswers.Due(cfg, run, steps, |run| - 1, c, run[|run| - 1].calls[c].pc.answer)
    }

    lemma AnsweredIsDue(c: CallId)
      requires Books() && c in state.calls && state.calls[c].pc.Answered?
      ensures AnswerIsDue(c)
    {
      hide IsRun;
      RotationAnswers.AnswersAreDue(cfg, run, steps, |run| - 1, c);
    }

    ghost method TakeLogin(user: AuthUser, client: ClientMetadata, at: Time, source: GrantSource, answers: Answers)
      requires Books() && Enabled(cfg, state, Login(user, client, at, source, answers))
      requires user.familyId < nextId && answers.freshId < nextId && |answers.freshHash| < nextLength
      modifies `state, `run, `steps
      ensures Books() && Continues()
      ensures state == Apply(cfg, old(state), Login(user, client, at, source, answers))
    {
      hide IsRun, IssueTokens;
      StepTracks(cfg, run, steps, state, Login(user, client, at, source, answers));
      IssuedIsDrawn(user, client, at, cfg.refreshTtl, source, answers);
      state := Apply(cfg, state, Login(user, client, at, source, answers));
      run, steps := run + [state], steps + [Login(user, client, at, source, answers)];
    }

    /** Host and password sign-in: a new session in a new family. Assurance must be
        valid, and the compatibility view of it is derived, not taken. */
    method IssueSession(userId: string, roles: seq<string>, scopes: seq<string>, session: SessionContext,
                        metadata: RefreshableMetadata, client: ClientMetadata, source: GrantSource)
      returns (result: Result<(RefreshToken, AuthUser), IssueError>)
      requires Valid()
      modifies this, store
      ensures Valid() && Continues()
      ensures result.Failure? ==> store.View() == old(store.View()) && state == old(state)
      ensures result.Success? ==>
                var (record, user) := result.value;
                && store.View() == Insert(old(store.View()), record) && Fresh(old(store.View()), record)
                && record.familyId !in old(state).chains
                && state.log == old(state).log + [LoggedIn(record.id, record.familyId, user)]
                && record.userId == userId && AlignedSession(record.session)
                && record.session == (if session.assurance.Some?
                                      then WithAssurance(session, session.assurance.value) else session)
                && SameGrants(record.roles, roles) && SameGrants(record.scopes, scopes)
                && record.metadata == (if metadata == NoMetadata then None else Some(metadata))
                && record.client == client && record.grantSource == source
                && record.expiresAt == record.createdAt + cfg.refreshTtl && cfg.refreshTtl > 0
                && record.revokedAt == None && record.replacedBy == None
                && user == SessionUser(userId, record.sessionId, record.familyId, roles, scopes, record.session, metadata)
                           .(authorizationRoles := record.authorizationRoles)
      ensures result.Failure? && result.error.InvalidAssurance? <==>
                session.assurance.Some? && Validate(session.assurance.value).Some?
    {
      hide IndexedStore, Tracks, IsRun, Validate, IssueTokens;
      if session.assurance.Some? {
        var fault := Validate(session.assurance.value);
        if fault.Some? {
          return Failure(InvalidAssurance(fault.value));
        }
      }
      var aligned := if session.assurance.Some? then session.(mfa := MfaStateOf(session.assurance.value)) else session;
      var family, _ := Draw();
      var sessionId, _ := Draw();
      var answers := Consult(userId);
      var at: Time := *;
      var user := SessionUser(userId, sessionId, family, roles, scopes, aligned, metadata);
      GrantsAreKept(roles);
      GrantsAreKept(scopes);
      var issued := IssueTokens(user, client, at, cfg.refreshTtl, source, None, answers);
      if issued.Failure? {
        return Failure(IssuanceRefused(issued.error));
      }
      IssuedIsDrawn(user, client, at, cfg.refreshTtl, source, answers);
      IssuesExactly(user, client, at, cfg.refreshTtl, source, None, answers);
      store.InsertRefreshToken(issued.value.0);
      TakeLogin(user, client, at, source, answers);
      return Success(issued.value);
    }
  }

  /** `kept` holds the given values, each once. */
  ghost predicate SameGrants(kept: seq<string>, given: seq<string>) {
    NoDuplicates(kept) && forall g :: g in kept <==> g in given
  }

  lemma GrantsAreKept(given: seq<string>)
    ensures SameGrants(Dedupe.Deduped(given), given)
    ensures Dedupe.Deduped(Dedupe.Deduped(given)) == Dedupe.Deduped(given)
  {
    Dedupe.DedupedIsFirstOccurrences(given);
    Dedupe.DedupedIsIdempotent(given);
  }

  lemma IssuedIsDrawn(user: AuthUser, client: ClientMetadata, at: Time, ttl: Duration, source: GrantSource, answers: Answers)
    requires IssueTokens(user, client, at, ttl, source, None, answers).Success?
    ensures var (record, _) := IssueTokens(user, client, at, ttl, source, None, answers).value;
            && record.id == answers.freshId && record.tokenHash == answers.freshHash
            && record.familyId == user.familyId && record.userId == user.userId && record.session == user.session
  {
  }

  /** Since a service's history is a run, what holds of runs holds of its store: every
      family it stores is one chain from its login, with at most the last record live. */
  lemma StoredFamiliesAreChains(service: SessionService, member: Id)
    requires service.Valid() && member in service.store.View().tokens
    ensures exists chain ::
              RotationTheorems.IsWholeFamily(service.store.View().tokens, service.state.log, member, chain)
  {
    RotationTheorems.FamilyIsOneChain(service.cfg, service.run, service.steps, |service.run| - 1, member);
  }

  /** A refresh that answers "replay" has left no live token in the family of the token
      it presented, with or without a grace. */
  lemma ReplayLeavesNoLiveToken(service: SessionService, c: CallId)
    requires service.Valid() && c in service.state.calls
    requires service.state.calls[c].pc.Answered? && service.state.calls[c].pc.answer.Replay?
    ensures var tokens, presented := service.store.View().tokens, service.state.calls[c].pc.answer.presented;
            && IsPresented(tokens, presented, service.state.calls[c].hash)
            && LiveInFamily(tokens, tokens[presented].familyId) == {}
  {
    var answer := service.state.calls[c].pc.answer;
    RotationTheorems.ReplayKillsFamily(
      service.cfg, service.run, service.steps, |service.run| - 1, c, answer.presented, answer.decidedAt);
  }

  lemma UnusedIsFresh(store: Store, record: RefreshToken, nextId: Id, nextLength: nat)
    requires Unused(store, record.id, record.tokenHash, nextId, nextLength)
    ensures Fresh(store, record)
  {
  }

  /** A prepared record carries the identity and token drawn for it. */
  lemma PreparedIsDrawn(
    source: RefreshToken, newest: Option<RefreshToken>, client: ClientMetadata,
    stepUp: Option<SessionAssurance>, now: Time, ttl: Duration, answers: Answers)
    requires PrepareRotation(source, newest, client, stepUp, now, ttl, answers).Success?
    ensures var p := PrepareRotation(source, newest, client, stepUp, now, ttl, answers).value;
            p.record.id == answers.freshId && p.record.tokenHash == answers.freshHash
  {
    PreparedContinues(source, newest, client, stepUp, now, ttl, answers);
  }

  lemma CallIsPlaced(cfg: Config, s: State, c: CallId)
    requires Inv(cfg, s) && c in s.calls
    ensures WellPlaced(cfg, s.store.tokens, s.calls[c]) && AllChained(s.store.tokens, s.chains)
  {
  }
}
