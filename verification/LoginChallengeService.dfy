/** Creation and verification of login challenges (src/service/challenge.rs) over the
    in-memory store. Ghost state follows every call as a run of the protocol, so
    whatever is proved of all runs holds of these methods. */
module LoginChallengeService {
  import opened Common
  import opened LoginChallengeStore
  import opened LoginChallengeProtocol
  import LoginChallengeTheorems
  import opened LoginChallengeAnswers
  import Text
  import RateLimitKeys
  import RateLimitPolicy
  import RateLimitProtocol
  import RateLimitRecording
  import RateLimitService

  ghost predicate IdsBelow(challenges: Challenges, next: Id) {
    forall id :: id in challenges ==> id < next
  }

  ghost predicate Tracks(run: seq<State>, steps: seq<Step>, s: State) {
    run != [] && IsRun(run, steps) && run[|run| - 1] == s
  }

  lemma StepTracks(run: seq<State>, steps: seq<Step>, s: State, step: Step)
    requires Tracks(run, steps, s) && Enabled(s, step)
    ensures Tracks(run + [Apply(s, step)], steps + [step], Apply(s, step))
  {
    var run', steps' := run + [Apply(s, step)], steps + [step];
    forall i | 0 <= i < |steps'|
      ensures Enabled(run'[i], steps'[i]) && run'[i + 1] == Apply(run'[i], steps'[i])
    {
      if i < |steps| {
        assert run'[i] == run[i] && run'[i + 1] == run[i + 1] && steps'[i] == steps[i];
      }
    }
  }

  ghost function Advanced(s: State, c: CallId, work: Work): State
    requires c in s.calls
  {
    var o := Next(s, c, s.calls[c], work);
    s.(challenges := o.challenges, calls := s.calls[c := s.calls[c].(pc := o.pc)], log := Logged(s.log, o.event))
  }

  lemma NextKeepsKeys(s: State, c: CallId, call: Call, work: Work)
    ensures Next(s, c, call, work).challenges.Keys == s.challenges.Keys
  {
  }

  lemma SameKeysStayBelow(before: Challenges, after: Challenges, next: Id)
    requires IdsBelow(before, next) && after.Keys == before.Keys
    ensures IdsBelow(after, next)
  {
    assert forall id :: id in after ==> id in after.Keys;
  }

  // ----- What a verification owes to the limiter ------------------------------------------------

  /** A decided answer, or the limiter's word: a refusal, or why a failure was not recorded. */
  datatype VerifyOutcome = Decided(answer: Answer) | Limited(reason: RateLimitProtocol.Answer)

  /** The limiter, its history, and the length of that when the verification began. */
  datatype Watch = Watch(
    cfg: RateLimitProtocol.Config, capacity: nat,
    run: seq<RateLimitProtocol.State>, steps: seq<RateLimitProtocol.Step>, from: nat)

  ghost function WatchOf(limiter: RateLimitService.RateLimiter, from: nat): Watch
    reads limiter
  {
    Watch(limiter.cfg, limiter.store.capacity, limiter.run, limiter.steps, from)
  }

  /** `later` continues what `w` has seen. */
  ghost predicate Longer(w: Watch, later: Watch) {
    w.run <= later.run && w.steps <= later.steps && later == w.(run := later.run, steps := later.steps)
  }

  predicate Took(w: Watch, p: nat, step: RateLimitProtocol.Step) {
    w.from <= p < |w.steps| && w.steps[p] == step
  }

  predicate Stands(w: Watch, j: nat, r: RateLimitProtocol.CallId, call: RateLimitProtocol.Call) {
    j < |w.run| && r in w.run[j].calls && w.run[j].calls[r] == call
  }

  /** Since the verification began, guard `g` began on `keys` and permitted them. */
  ghost predicate WasPermitted(w: Watch, keys: seq<RateLimitPolicy.Key>, g: RateLimitProtocol.CallId) {
    exists p: nat, j: nat, permit ::
      Took(w, p, RateLimitProtocol.BeginGuarding(g, keys)) && p < j && Stands(w, j, g, RateLimitProtocol.Permitted(permit))
  }

  /** Since then a guard of `keys` turned the call away, for `reason`. */
  ghost predicate WasTurnedAway(w: Watch, keys: seq<RateLimitPolicy.Key>, reason: RateLimitProtocol.Answer) {
    && (reason.Locked? || reason.Throttled?)
    && exists g: RateLimitProtocol.CallId, p: nat, j: nat ::
         && Took(w, p, RateLimitProtocol.BeginGuarding(g, keys)) && p < j
         && Stands(w, j, g, RateLimitProtocol.Answered(reason))
  }

  /** What guard `g` permitted has been resolved as a success and cleared. */
  ghost predicate PermitWasCleared(w: Watch, keys: seq<RateLimitPolicy.Key>, g: RateLimitProtocol.CallId) {
    && WasPermitted(w, keys, g)
    && exists q: nat, j: nat ::
         && Took(w, q, RateLimitProtocol.Resolve(g, true)) && q < j
         && Stands(w, j, g, RateLimitProtocol.Answered(RateLimitProtocol.Cleared))
  }

  /** Since then a call began to record a failure on `keys`, and ended with `answer`: by
      exactly one commit of its own on each key, or at a key where the store refused. */
  ghost predicate RecordingCameTo(w: Watch, keys: seq<RateLimitPolicy.Key>, answer: RateLimitProtocol.Answer) {
    exists r: RateLimitProtocol.CallId, p: nat, j: nat ::
      Took(w, p, RateLimitProtocol.BeginRecording(r, keys)) && p < j && RecordingStands(w, j, r, keys, answer)
  }

  ghost predicate RecordingStands(
    w: Watch, j: nat, r: RateLimitProtocol.CallId, keys: seq<RateLimitPolicy.Key>, answer: RateLimitProtocol.Answer)
  {
    && Stands(w, j, r, RateLimitProtocol.Answered(answer))
    && exists now :: RecordingEnded(w, j, r, keys, answer, now)
  }

  ghost predicate RecordingEnded(w: Watch, j: nat, r: RateLimitProtocol.CallId, keys: seq<RateLimitPolicy.Key>,
                                 answer: RateLimitProtocol.Answer, now: Time)
  {
    && j < |w.run|
    && if answer.Recorded? then RateLimitRecording.Records(w.run[j].log, r, keys, |keys|, now)
       else exists i: nat :: RateLimitService.StoppedAt(w.cfg, w.capacity, w.run[j], r, keys, i, now, answer)
  }

  /** Between the two logs, call `c` has not compared a code. */
  ghost predicate NoComparison(log: seq<Event>, later: seq<Event>, c: CallId) {
    log <= later && (Uncompared(log, c) <==> Uncompared(later, c))
  }

  lemma OtherEventIsNoComparison(log: seq<Event>, e: Event, c: CallId)
    requires !Compares(e, c)
    ensures NoComparison(log, log + [e], c)
  {
    if Uncompared(log + [e], c) {
      assert forall n :: 0 <= n < |log| ==> log[n] == (log + [e])[n];
    }
  }

  /** A comparison that failed, in time: its failure must be recorded before it is told. */
  ghost predicate OwesRecord(log: seq<Event>, c: CallId, answer: Answer) {
    answer.InvalidCode? || (!Uncompared(log, c) && !answer.Verified? && answer != Refused(Expired))
  }

  /** The limiter's part in an outcome. Whatever is decided was permitted for the client
      and, once a challenge was found, for all keys; a comparison that failed was recorded
      on those keys; a verified call had its own permit cleared. A call that is limited was
      turned away and given up, or failed and could not be recorded. */
  ghost predicate LimiterSettled(
    w: Watch, clientKeys: seq<RateLimitPolicy.Key>, keys: seq<RateLimitPolicy.Key>,
    log: seq<Event>, c: CallId, pc: Pc, outcome: VerifyOutcome)
  {
    match outcome
    case Decided(answer) =>
      && pc == Answered(answer) && !answer.Aborted?
      && (exists g :: WasPermitted(w, clientKeys, g))
      && (answer == Refused(Invalid) || exists g :: WasPermitted(w, keys, g))
      && (OwesRecord(log, c, answer) ==> RecordingCameTo(w, keys, RateLimitProtocol.Recorded))
      && (answer.Verified? ==> exists g :: PermitWasCleared(w, keys, g))
    case Limited(reason) =>
      || (pc == Answered(Aborted) && (WasTurnedAway(w, clientKeys, reason) || WasTurnedAway(w, keys, reason)))
      || (pc.Answered? && OwesRecord(log, c, pc.answer) && !reason.Recorded? && RecordingCameTo(w, keys, reason))
  }

  /** `rate_limit_keys` of a verification without a known principal. */
  function ClientKeys(address: Option<string>): (keys: seq<RateLimitPolicy.Key>)
    ensures RateLimitProtocol.OneKind(keys, false)
    ensures forall key :: key in keys ==>
              key.flow == RateLimitPolicy.LoginCodeVerification && key.bucket == RateLimitPolicy.ClientBucket
  {
    RateLimitKeys.KeysAreOfOneFlow(RateLimitPolicy.LoginCodeVerification, None, address);
    RateLimitKeys.KeysFor(RateLimitPolicy.LoginCodeVerification, None, address)
  }

  /** The keys that a verification of `challenge` is charged to. */
  function KeysOf(challenge: Challenge, address: Option<string>): (keys: seq<RateLimitPolicy.Key>)
    ensures RateLimitProtocol.OneKind(keys, false)
    ensures forall key :: key in keys ==> key.flow == RateLimitPolicy.LoginCodeVerification
    ensures forall key :: key in ClientKeys(address) ==> key in keys
    ensures Text.Trim(challenge.principal) != "" ==>
              RateLimitPolicy.Key(RateLimitPolicy.LoginCodeVerification, RateLimitPolicy.PrincipalBucket,
                                  Text.Lower(Text.Trim(challenge.principal))) in keys
  {
    RateLimitKeys.KeysAreOfOneFlow(RateLimitPolicy.LoginCodeVerification, Some(challenge.principal), address);
    RateLimitKeys.KeysFor(RateLimitPolicy.LoginCodeVerification, Some(challenge.principal), address)
  }

  /** The keys of the stored challenge `id`, if there is one. */
  function StoredKeys(challenges: Challenges, id: Id, address: Option<string>): seq<RateLimitPolicy.Key> {
    if id in challenges then KeysOf(challenges[id], address) else []
  }

  lemma StillPermitted(w: Watch, later: Watch, keys: seq<RateLimitPolicy.Key>, g: RateLimitProtocol.CallId)
    requires WasPermitted(w, keys, g) && Longer(w, later)
    ensures WasPermitted(later, keys, g)
  {
    var p: nat, j: nat, permit :|
      Took(w, p, RateLimitProtocol.BeginGuarding(g, keys)) && p < j && Stands(w, j, g, RateLimitProtocol.Permitted(permit));
    assert Took(later, p, RateLimitProtocol.BeginGuarding(g, keys)) && Stands(later, j, g, RateLimitProtocol.Permitted(permit));
  }

  /** A guard that has a verdict, seen from its beginning. */
  lemma GuardEnds(
    w: Watch, p: nat, j: nat, keys: seq<RateLimitPolicy.Key>, g: RateLimitProtocol.CallId, call: RateLimitProtocol.Call)
    requires Took(w, p, RateLimitProtocol.BeginGuarding(g, keys)) && p < j && Stands(w, j, g, call)
    ensures call.Permitted? ==> WasPermitted(w, keys, g)
    ensures call.Answered? && (call.answer.Locked? || call.answer.Throttled?) ==> WasTurnedAway(w, keys, call.answer)
  {
    if call.Permitted? {
      assert Stands(w, j, g, RateLimitProtocol.Permitted(call.permit));
    } else if call.Answered? {
      assert Stands(w, j, g, RateLimitProtocol.Answered(call.answer));
    }
  }

  lemma RecordingEnds(w: Watch, p: nat, j: nat, keys: seq<RateLimitPolicy.Key>, r: RateLimitProtocol.CallId,
                      answer: RateLimitProtocol.Answer, now: Time)
    requires Took(w, p, RateLimitProtocol.BeginRecording(r, keys)) && p < j
    requires Stands(w, j, r, RateLimitProtocol.Answered(answer))
    requires RecordingEnded(w, j, r, keys, answer, now)
    ensures RecordingCameTo(w, keys, answer)
  {
    hide RecordingEnded;
    assert RecordingStands(w, j, r, keys, answer);
  }

  lemma KeysOfStored(stored: Challenge, found: Challenge, address: Option<string>)
    requires stored.principal == found.principal
    ensures KeysOf(stored, address) == KeysOf(found, address)
  {
  }

  class ChallengeService {
    const store: MemoryLoginChallengeStore
    var nextId: Id
    ghost var nextCall: CallId
    ghost var state: State
    ghost var run: seq<State>
    ghost var steps: seq<Step>

    ghost predicate Books()
      reads this
    {
      Tracks(run, steps, state) && CallsBelow(state.calls, nextCall) && IdsBelow(state.challenges, nextId)
    }

    ghost predicate Valid()
      reads this, store
    {
      state.challenges == store.challenges && Books()
    }

    twostate predicate Continues()
      reads this
    {
      old(run) <= run && old(steps) <= steps
    }

    constructor (start: Time)
      ensures Valid() && steps == [] && fresh(store)
    {
      store := new MemoryLoginChallengeStore();
      nextId, nextCall := 0, 0;
      state := State(map[], map[], start, []);
      run, steps := [State(map[], map[], start, [])], [];
    }

    ghost method TakeAdvance(c: CallId, work: Work)
      requires Books() && c in state.calls && !state.calls[c].pc.Answered?
      modifies `state, `run, `steps
      ensures Books() && Continues() && c in old(state).calls && state == Advanced(old(state), c, work)
    {
      hide IsRun, Next, IdsBelow;
      StepTracks(run, steps, state, Advance(c, work));
      NextKeepsKeys(state, c, state.calls[c], work);
      SameKeysStayBelow(state.challenges, Advanced(state, c, work).challenges, nextId);
      state := Advanced(state, c, work);
      run, steps := run + [state], steps + [Advance(c, work)];
    }

    ghost method TakeTick(at: Time)
      requires Books()
      modifies `state, `run, `steps
      ensures Books() && Continues() && state == old(state).(clock := at)
    {
      hide IsRun;
      StepTracks(run, steps, state, Tick(at));
      state := state.(clock := at);
      run, steps := run + [state], steps + [Tick(at)];
    }

    ghost method TakeBegin(id: Id) returns (c: CallId)
      requires Books()
      modifies `state, `run, `steps, `nextCall
      ensures Books() && Continues() && c == old(nextCall) && steps == old(steps) + [Begin(c, id)]
      ensures state == old(state).(calls := old(state).calls[c := Call(id, Started)])
    {
      hide IsRun;
      c := nextCall;
      StepTracks(run, steps, state, Begin(c, id));
      state := state.(calls := state.calls[c := Call(id, Started)]);
      run, steps, nextCall := run + [state], steps + [Begin(c, id)], nextCall + 1;
    }

    ghost method TakeCreate(challenge: Challenge)
      requires Books() && Creatable(state, challenge) && challenge.id < nextId
      modifies `state, `run, `steps
      ensures Books() && Continues()
      ensures state == old(state).(challenges := old(state).challenges[challenge.id := challenge])
    {
      hide IsRun;
      StepTracks(run, steps, state, Create(challenge));
      state := state.(challenges := state.challenges[challenge.id := challenge]);
      run, steps := run + [state], steps + [Create(challenge)];
    }

    method ReadClock() returns (now: Time)
      requires Valid()
      modifies `state, `run, `steps
      ensures Valid() && Continues() && state == old(state).(clock := now)
    {
      now := *;
      TakeTick(now);
    }

    /** Any steps of other callers while `c` awaits; none of them compares a code as `c`.
        Callers rely on the contract only; what happens meanwhile is not theirs to know. */
    method AwaitTurn(ghost c: CallId)
      requires Valid() && c in state.calls
      modifies this, store
      ensures Valid() && Continues() && c in state.calls && state.calls[c] == old(state).calls[c]
      ensures NoComparison(old(state).log, state.log, c)
    {
      var _ := ReadClock();
    }

    /** `create_login_challenge`: options are checked before anything is stored. */
    method CreateLoginChallenge(principal: string, codeHash: string, codeLength: nat, ttl: Duration, maxAttempts: nat,
                                channel: Option<string>)
      returns (created: Option<Challenge>)
      requires Valid()
      modifies this, store
      ensures Valid() && Continues()
      ensures created.None? ==> store.challenges == old(store.challenges)
      ensures created.None? <==>
                codeLength == 0 || maxAttempts == 0 || ttl <= 0 || !Representable(state.clock + ttl)
      ensures created.Some? ==>
                && created.value.id !in old(store.challenges)
                && store.challenges == old(store.challenges)[created.value.id := created.value]
                && created.value.attempts == 0 && created.value.maxAttempts == maxAttempts
                && created.value.consumedAt.None? && created.value.expiresAt == created.value.createdAt + ttl
                && created.value.createdAt == state.clock && created.value.channel == channel
                && created.value.principal == principal && created.value.codeHash == codeHash
    {
      hide IsRun;
      if codeLength == 0 || maxAttempts == 0 || ttl <= 0 {
        return None;
      }
      var now := ReadClock();
      assert Representable(now);
      var expiry := CheckedAdd(now, ttl);
      if expiry.None? {
        return None;
      }
      var challenge := Challenge(nextId, principal, codeHash, now, expiry.value, 0, maxAttempts, None, channel);
      nextId := nextId + 1;
      var inserted := store.InsertLoginChallenge(challenge);
      TakeCreate(challenge);
      return Some(challenge);
    }

    method FindChallenge(ghost c: CallId, id: Id) returns (found: Option<Challenge>)
      requires Valid() && c in state.calls && state.calls[c] == Call(id, Started)
      modifies this, store
      ensures Valid() && Continues() && c in state.calls
      ensures state.calls[c] == Call(id, if found.Some? then Checking(found.value) else Answered(Refused(Invalid)))
      ensures found.Some? ==> id in state.challenges && found.value == state.challenges[id]
      ensures NoComparison(old(state).log, state.log, c)
    {
      hide Books;
      AwaitTurn(c);
      found := store.FindLoginChallenge(id);
      TakeAdvance(c, PoolUnavailable);
    }

    method ReserveAttempt(ghost c: CallId, id: Id, found: Challenge, at: Time)
      returns (result: Result<Challenge, ChallengeError>)
      requires Valid() && c in state.calls && state.calls[c] == Call(id, Reserving(found, at))
      modifies this, store
      ensures Valid() && Continues() && c in state.calls
      ensures state.calls[c] == Call(id, match result
                                         case Failure(error) => Answered(Refused(error))
                                         case Success(reserved) => Reserved(found, reserved))
      ensures NoComparison(old(state).log, state.log, c)
    {
      hide Books;
      AwaitTurn(c);
      OtherEventIsNoComparison(state.log, Admitted(c, id), c);
      result := store.ReserveLoginChallengeAttempt(id, at);
      TakeAdvance(c, PoolUnavailable);
    }

    method ConsumeChallenge(ghost c: CallId, id: Id, reserved: Challenge, at: Time) returns (consumed: bool)
      requires Valid() && c in state.calls && state.calls[c] == Call(id, Consuming(reserved, at))
      modifies this, store
      ensures Valid() && Continues() && c in state.calls
      ensures state.calls[c] == Call(id, Spent(reserved, consumed))
      ensures NoComparison(old(state).log, state.log, c)
    {
      hide Books;
      AwaitTurn(c);
      OtherEventIsNoComparison(state.log, ConsumedBy(c, id), c);
      consumed := store.ConsumeLoginChallenge(id, at);
      TakeAdvance(c, PoolUnavailable);
    }

    /** The checks on the stale reading, then the admission. */
    method AdmitAttempt(ghost c: CallId, id: Id, found: Challenge) returns (result: Result<Challenge, Answer>)
      requires Valid() && c in state.calls && state.calls[c] == Call(id, Checking(found))
      modifies this, store
      ensures Valid() && Continues() && c in state.calls
      ensures state.calls[c] == Call(id, match result
                                         case Failure(answer) => Answered(answer)
                                         case Success(reserved) => Reserved(found, reserved))
      ensures result.Failure? ==> result.error.Refused?
      ensures NoComparison(old(state).log, state.log, c)
    {
      hide Books;
      var now := ReadClock();
      TakeAdvance(c, PoolUnavailable);
      if found.Consumed() {
        return Failure(Refused(Replayed));
      }
      if found.ExpiredAt(now) {
        return Failure(Refused(Expired));
      }
      if found.Exhausted() {
        return Failure(Refused(AttemptsExhausted));
      }
      var at := ReadClock();
      TakeAdvance(c, PoolUnavailable);
      var reserved := ReserveAttempt(c, id, found, at);
      if reserved.Failure? {
        return Failure(Refused(reserved.error));
      }
      return Success(reserved.value);
    }

    /** The password pool: it may not run, or find that the time is over. */
    method RunPool(ghost c: CallId, id: Id, reserved: Challenge) returns (comparison: Comparison)
      requires Valid() && c in state.calls && state.calls[c] == Call(id, Verifying(reserved))
      modifies this, store
      ensures Valid() && Continues() && c in state.calls && state.calls[c] == Call(id, Compared(reserved, comparison))
      ensures comparison.NotRun? || comparison.TooLate? ==> NoComparison(old(state).log, state.log, c)
      ensures comparison.Matched? || comparison.Mismatched? ==> !Uncompared(state.log, c)
    {
      hide Books;
      AwaitTurn(c);
      var ran: bool, matches: bool := *, *;
      var started := ReadClock();
      ghost var before := state.log;
      TakeAdvance(c, if ran then PoolRan(matches) else PoolUnavailable);
      if ran && !reserved.ExpiredAt(started) {
        assert Compares(state.log[|before|], c);
      }
      return if !ran then NotRun
             else if reserved.ExpiredAt(started) then TooLate
             else if matches then Matched else Mismatched;
    }

    /** The comparison of the code, between two looks at the clock. Success is the time
        at which the matching code was found to be in time. */
    method CompareCode(ghost c: CallId, id: Id, reserved: Challenge) returns (result: Result<Time, Answer>)
      requires Valid() && c in state.calls && state.calls[c] == Call(id, Verifying(reserved))
      modifies this, store
      ensures Valid() && Continues() && c in state.calls
      ensures state.calls[c] == Call(id, match result
                                         case Failure(answer) => Answered(answer)
                                         case Success(at) => Consuming(reserved, at))
      ensures result.Success? ==> ComparedOnce(state.log, c, id, true) && !Uncompared(state.log, c)
      ensures result.Failure? ==> Tells(state.challenges, state.log, c, id, result.error)
      ensures result.Failure? ==>
                match result.error
                case InvalidCode => !Uncompared(state.log, c)
                case Refused(error) => error.Expired? || (error.AttemptsExhausted? && !Uncompared(state.log, c))
                case ServiceUnavailable => NoComparison(old(state).log, state.log, c)
                case _ => false
    {
      hide Books, Tells, ComparedOnce;
      var comparison := RunPool(c, id, reserved);
      AwaitTurn(c);
      var verifiedAt := ReadClock();
      TakeAdvance(c, PoolUnavailable);
      CallShows(c);
      if reserved.ExpiredAt(verifiedAt) {
        return Failure(Refused(Expired));
      }
      match comparison
      case NotRun => return Failure(ServiceUnavailable);
      case TooLate => return Failure(Refused(Expired));
      case Mismatched =>
        return Failure(if reserved.attempts >= reserved.maxAttempts then Refused(AttemptsExhausted) else InvalidCode);
      case Matched =>
      return Success(verifiedAt);
    }

    /** What the history says of a call where it stands. */
    lemma CallShows(c: CallId)
      requires Valid() && c in state.calls
      ensures Shows(state.challenges, state.log, c, state.calls[c]) && state.challenges == store.challenges
    {
      hide IsRun, Shows;
      RunShows(run, steps, |run| - 1, c);
    }

    /** What the answer of a call tells, by the history. */
    lemma AnswerTells(c: CallId)
      requires Valid() && c in state.calls && state.calls[c].pc.Answered?
      ensures Tells(store.challenges, state.log, c, state.calls[c].id, state.calls[c].pc.answer)
    {
      hide IsRun, Tells;
      CallShows(c);
    }

    /** The first check after the consumption: was it in time, and this call's? */
    method Settle(ghost c: CallId, id: Id, reserved: Challenge, consumed: bool) returns (refusal: Option<Answer>)
      requires Valid() && c in state.calls && state.calls[c] == Call(id, Spent(reserved, consumed))
      modifies `state, `run, `steps
      ensures Valid() && Continues() && c in state.calls
      ensures state.calls[c] == Call(id, if refusal.Some? then Answered(refusal.value) else Finishing(reserved))
      ensures refusal.Some? ==> refusal.value == Refused(Expired) || refusal.value == Refused(Replayed)
      ensures NoComparison(old(state).log, state.log, c)
    {
      hide Books;
      var settledAt := ReadClock();
      TakeAdvance(c, PoolUnavailable);
      if reserved.ExpiredAt(settledAt) {
        return Some(Refused(Expired));
      }
      return if consumed then None else Some(Refused(Replayed));
    }

    /** The last look at the clock, after the counters were cleared. */
    method FinishVerification(ghost c: CallId, id: Id, reserved: Challenge) returns (answer: Answer)
      requires Valid() && c in state.calls && state.calls[c] == Call(id, Finishing(reserved))
      modifies `state, `run, `steps
      ensures Valid() && Continues() && c in state.calls && state.calls[c] == Call(id, Answered(answer))
      ensures answer.Verified? || answer == Refused(Expired)
    {
      hide Books;
      var verifiedAt := ReadClock();
      TakeAdvance(c, PoolUnavailable);
      return if reserved.ExpiredAt(verifiedAt) then Refused(Expired) else Verified(verifiedAt);
    }

    ghost method BeginVerification(id: Id) returns (c: CallId)
      requires Valid()
      modifies `state, `run, `steps, `nextCall
      ensures Valid() && Continues() && c == old(nextCall) && steps == old(steps) + [Begin(c, id)]
      ensures c in state.calls && state.calls[c] == Call(id, Started) && Uncompared(state.log, c)
    {
      LoginChallengeTheorems.RunHasCallers(run, steps, |run| - 1);
      c := TakeBegin(id);
    }

    /** The call ends without an answer of its own. */
    ghost method GiveUp(c: CallId)
      requires Valid() && c in state.calls && !state.calls[c].pc.Answered?
      modifies `state, `run, `steps
      ensures Valid() && Continues() && c in state.calls
      ensures state.calls[c] == Call(old(state).calls[c].id, Answered(Aborted)) && state.log == old(state).log
    {
      hide IsRun;
      StepTracks(run, steps, state, Abort(c));
      state := state.(calls := state.calls[c := state.calls[c].(pc := Answered(Aborted))]);
      run, steps := run + [state], steps + [Abort(c)];
    }

    /** The guard of a verification: the call ends here unless every key is permitted. */
    method PassGuard(ghost c: CallId, limiter: RateLimitService.RateLimiter, keys: seq<RateLimitPolicy.Key>,
                     ghost from: nat)
      returns (verdict: RateLimitService.Verdict, ghost guard: RateLimitProtocol.CallId)
      requires Valid() && c in state.calls && !state.calls[c].pc.Answered?
      requires limiter.Valid() && RateLimitProtocol.OneKind(keys, false) && from <= |limiter.steps|
      modifies this, store, limiter, limiter.store.states
      ensures Valid() && Continues() && limiter.Valid() && c in state.calls
      ensures NoComparison(old(state).log, state.log, c)
      ensures Longer(old(WatchOf(limiter, from)), WatchOf(limiter, from))
      ensures verdict.Permit? ==>
                && state.calls[c] == old(state).calls[c]
                && guard in limiter.state.calls && limiter.state.calls[guard].Permitted?
                && verdict.seen == RateLimitService.SeenOf(limiter.state.calls[guard].permit)
                && WasPermitted(WatchOf(limiter, from), keys, guard)
      ensures verdict.Refusal? ==>
                && state.calls[c] == Call(old(state).calls[c].id, Answered(Aborted))
                && WasTurnedAway(WatchOf(limiter, from), keys, verdict.answer)
    {
      hide Books, Valid, RateLimitService.RateLimiter.Valid, RateLimitProtocol.OneKind, RateLimitService.SeenOf;
      hide WasPermitted, WasTurnedAway, NoComparison;
      var now: Time := *;
      ghost var before := |limiter.steps|;
      verdict, guard := limiter.RejectIfRateLimited(keys, now);
      limiter.HistoryEndsNow();
      ghost var w := WatchOf(limiter, from);
      assert Took(w, before + 1, RateLimitProtocol.BeginGuarding(guard, keys));
      assert Stands(w, |w.run| - 1, guard, limiter.state.calls[guard]);
      GuardEnds(w, before + 1, |w.run| - 1, keys, guard, limiter.state.calls[guard]);
      AwaitTurn(c);
      if verdict.Refusal? {
        GiveUp(c);
      }
    }

    /** `verify_login_challenge_with_metadata`. The call begun here ends, in a run of the
        challenge protocol, with the answer decided; `LimiterSettled` says what its own
        limiter calls have done by then. */
    method VerifyLoginChallengeWithMetadata(id: Id, limiter: RateLimitService.RateLimiter, address: Option<string>)
      returns (outcome: VerifyOutcome, ghost c: CallId)
      requires Valid() && limiter.Valid()
      modifies this, store, limiter, limiter.store.states
      ensures Valid() && Continues() && limiter.Valid() && limiter.Continues()
      ensures c == old(nextCall) && c in state.calls && state.calls[c].id == id
      ensures old(steps) + [Begin(c, id)] <= steps
      ensures LimiterSettled(
                WatchOf(limiter, |old(limiter.steps)|), ClientKeys(address),
                StoredKeys(store.challenges, id, address), state.log, c, state.calls[c].pc, outcome)
      ensures state.calls[c].pc.Answered? && Tells(store.challenges, state.log, c, id, state.calls[c].pc.answer)
    {
      hide Books, Tells, Valid, Next, Advanced, RateLimitService.RateLimiter.Valid, RateLimitProtocol.OneKind, ClientKeys, KeysOf;
      hide RateLimitService.SeenOf, WasPermitted, WasTurnedAway, PermitWasCleared, RecordingCameTo, Uncompared;
      ghost var from := |limiter.steps|;
      c := BeginVerification(id);
      var clientKeys := ClientKeys(address);
      var clientVerdict, clientGuard := PassGuard(c, limiter, clientKeys, from);
      if clientVerdict.Refusal? {
        AnswerTells(c);
        return Limited(clientVerdict.answer), c;
      }
      var found := FindChallenge(c, id);
      if found.None? {
        AnswerTells(c);
        return Decided(Refused(Invalid)), c;
      }
      BooksEndNow();
      ghost var j := |run| - 1;
      outcome := VerifyFound(c, id, found.value, limiter, address, clientKeys, from, clientGuard);
      PrincipalStays(j, id);
      KeysOfStored(store.challenges[id], found.value, address);
      AnswerTells(c);
    }

    /** The verification of a challenge that was found, behind the guard of all its keys. */
    method VerifyFound(ghost c: CallId, id: Id, found: Challenge, limiter: RateLimitService.RateLimiter,
                       address: Option<string>, ghost clientKeys: seq<RateLimitPolicy.Key>, ghost from: nat,
                       ghost clientGuard: RateLimitProtocol.CallId)
      returns (outcome: VerifyOutcome)
      requires Valid() && c in state.calls && state.calls[c] == Call(id, Checking(found)) && Uncompared(state.log, c)
      requires limiter.Valid() && from <= |limiter.steps|
      requires WasPermitted(WatchOf(limiter, from), clientKeys, clientGuard)
      modifies this, store, limiter, limiter.store.states
      ensures Valid() && Continues() && limiter.Valid() && limiter.Continues()
      ensures c in state.calls && state.calls[c].id == id
      ensures LimiterSettled(
                WatchOf(limiter, from), clientKeys, KeysOf(found, address), state.log, c, state.calls[c].pc, outcome)
    {
      hide Books, Valid, Next, Advanced, RateLimitService.RateLimiter.Valid, RateLimitProtocol.OneKind, KeysOf;
      hide RateLimitService.SeenOf, WasPermitted, WasTurnedAway, PermitWasCleared, RecordingCameTo, Uncompared;
      ghost var permitted := WatchOf(limiter, from);
      var keys := KeysOf(found, address);
      var verdict, guard := PassGuard(c, limiter, keys, from);
      if verdict.Refusal? {
        return Limited(verdict.answer);
      }
      StillPermitted(permitted, WatchOf(limiter, from), clientKeys, clientGuard);
      outcome := VerifyPermitted(c, id, found, limiter, clientKeys, keys, verdict.seen, from, clientGuard, guard);
    }

    lemma BooksEndNow()
      requires Valid()
      ensures run != [] && run[|run| - 1] == state
    {
    }

    /** The stored challenge keeps the principal it was found with. */
    lemma PrincipalStays(j: nat, id: Id)
      requires Valid() && j < |run| && id in run[j].challenges
      ensures id in store.challenges && store.challenges[id].principal == run[j].challenges[id].principal
    {
      LoginChallengeTheorems.NothingIsRefunded(run, steps, j, |run| - 1);
    }

    /** The rest of a verification that its guards have permitted. */
    method VerifyPermitted(ghost c: CallId, id: Id, found: Challenge, limiter: RateLimitService.RateLimiter,
                           ghost clientKeys: seq<RateLimitPolicy.Key>, keys: seq<RateLimitPolicy.Key>,
                           permit: seq<RateLimitService.Seen>, ghost from: nat,
                           ghost clientGuard: RateLimitProtocol.CallId, ghost guard: RateLimitProtocol.CallId)
      returns (outcome: VerifyOutcome)
      requires Valid() && c in state.calls && state.calls[c] == Call(id, Checking(found)) && Uncompared(state.log, c)
      requires limiter.Valid() && RateLimitProtocol.OneKind(keys, false) && from <= |limiter.steps|
      requires guard in limiter.state.calls && limiter.state.calls[guard].Permitted?
      requires permit == RateLimitService.SeenOf(limiter.state.calls[guard].permit)
      requires WasPermitted(WatchOf(limiter, from), clientKeys, clientGuard)
      requires WasPermitted(WatchOf(limiter, from), keys, guard)
      modifies this, store, limiter, limiter.store.states
      ensures Valid() && Continues() && limiter.Valid() && limiter.Continues()
      ensures c in state.calls && state.calls[c].id == id
      ensures LimiterSettled(WatchOf(limiter, from), clientKeys, keys, state.log, c, state.calls[c].pc, outcome)
    {
      hide Books, Valid, Next, Advanced, Consistent, RateLimitService.RateLimiter.Valid, RateLimitProtocol.OneKind;
      hide RateLimitService.SeenOf, WasPermitted, WasTurnedAway, PermitWasCleared, RecordingCameTo, Uncompared;
      var admission := AdmitAttempt(c, id, found);
      if admission.Failure? {
        return Decided(admission.error);
      }
      var reserved := admission.value;
      var refusal := ConfirmReserved(c, id, found, reserved);
      if refusal.Some? {
        return Decided(refusal.value);
      }
      var comparison := CompareCode(c, id, reserved);
      if comparison.Success? {
        outcome :=
          ConsumeAndFinish(c, id, reserved, comparison.value, limiter, clientKeys, keys, permit, from, clientGuard, guard);
      } else if comparison.error.InvalidCode? || comparison.error == Refused(AttemptsExhausted) {
        outcome := RecordFailure(c, comparison.error, limiter, clientKeys, keys, from, clientGuard, guard);
      } else {
        outcome := Decided(comparison.error);
      }
    }

    /** What follows a matching code: the consumption, then the counters, then the answer. */
    method ConsumeAndFinish(ghost c: CallId, id: Id, reserved: Challenge, at: Time, limiter: RateLimitService.RateLimiter,
                            ghost clientKeys: seq<RateLimitPolicy.Key>, keys: seq<RateLimitPolicy.Key>,
                            permit: seq<RateLimitService.Seen>, ghost from: nat,
                            ghost clientGuard: RateLimitProtocol.CallId, ghost guard: RateLimitProtocol.CallId)
      returns (outcome: VerifyOutcome)
      requires Valid() && c in state.calls && state.calls[c] == Call(id, Consuming(reserved, at))
      requires !Uncompared(state.log, c)
      requires limiter.Valid() && RateLimitProtocol.OneKind(keys, false) && from <= |limiter.steps|
      requires guard in limiter.state.calls && limiter.state.calls[guard].Permitted?
      requires permit == RateLimitService.SeenOf(limiter.state.calls[guard].permit)
      requires WasPermitted(WatchOf(limiter, from), clientKeys, clientGuard)
      requires WasPermitted(WatchOf(limiter, from), keys, guard)
      modifies this, store, limiter, limiter.store.states
      ensures Valid() && Continues() && limiter.Valid() && limiter.Continues()
      ensures c in state.calls && state.calls[c].id == id
      ensures LimiterSettled(WatchOf(limiter, from), clientKeys, keys, state.log, c, state.calls[c].pc, outcome)
    {
      hide Books, Valid, Next, Advanced, RateLimitService.RateLimiter.Valid, RateLimitProtocol.OneKind;
      hide RateLimitService.SeenOf, WasPermitted, WasTurnedAway, PermitWasCleared, RecordingCameTo, Uncompared;
      var consumed := ConsumeChallenge(c, id, reserved, at);
      var unsettled := Settle(c, id, reserved, consumed);
      if unsettled == Some(Refused(Replayed)) {
        outcome := RecordFailure(c, Refused(Replayed), limiter, clientKeys, keys, from, clientGuard, guard);
        return;
      }
      if unsettled.Some? {
        return Decided(Refused(Expired));
      }
      ClearPermit(c, limiter, clientKeys, keys, permit, from, clientGuard, guard);
      var answer := FinishVerification(c, id, reserved);
      return Decided(answer);
    }

    /** Clears what this call's own guard has permitted. */
    method ClearPermit(ghost c: CallId, limiter: RateLimitService.RateLimiter,
                       ghost clientKeys: seq<RateLimitPolicy.Key>, ghost keys: seq<RateLimitPolicy.Key>,
                       permit: seq<RateLimitService.Seen>, ghost from: nat,
                       ghost clientGuard: RateLimitProtocol.CallId, ghost guard: RateLimitProtocol.CallId)
      requires Valid() && c in state.calls
      requires limiter.Valid() && from <= |limiter.steps|
      requires guard in limiter.state.calls && limiter.state.calls[guard].Permitted?
      requires permit == RateLimitService.SeenOf(limiter.state.calls[guard].permit)
      requires WasPermitted(WatchOf(limiter, from), clientKeys, clientGuard)
      requires WasPermitted(WatchOf(limiter, from), keys, guard)
      modifies this, store, limiter, limiter.store.states
      ensures Valid() && Continues() && limiter.Valid() && limiter.Continues()
      ensures c in state.calls && state.calls[c] == old(state).calls[c] && NoComparison(old(state).log, state.log, c)
      ensures WasPermitted(WatchOf(limiter, from), clientKeys, clientGuard)
      ensures WasPermitted(WatchOf(limiter, from), keys, guard)
      ensures PermitWasCleared(WatchOf(limiter, from), keys, guard)
    {
      hide Books, Valid, RateLimitService.RateLimiter.Valid, RateLimitService.SeenOf, WasPermitted, NoComparison;
      ghost var before := WatchOf(limiter, from);
      limiter.ClearAttempts(guard, permit);
      limiter.HistoryEndsNow();
      ghost var w := WatchOf(limiter, from);
      StillPermitted(before, w, clientKeys, clientGuard);
      StillPermitted(before, w, keys, guard);
      assert Took(w, |before.steps|, RateLimitProtocol.Resolve(guard, true));
      assert Stands(w, |w.run| - 1, guard, RateLimitProtocol.Answered(RateLimitProtocol.Cleared));
      AwaitTurn(c);
    }

    /** Charges a failure to the call's keys before it is told. */
    method RecordFailure(ghost c: CallId, answer: Answer, limiter: RateLimitService.RateLimiter,
                         ghost clientKeys: seq<RateLimitPolicy.Key>, keys: seq<RateLimitPolicy.Key>, ghost from: nat,
                         ghost clientGuard: RateLimitProtocol.CallId, ghost guard: RateLimitProtocol.CallId)
      returns (outcome: VerifyOutcome)
      requires Valid() && c in state.calls && state.calls[c].pc == Answered(answer) && !Uncompared(state.log, c)
      requires !answer.Verified? && !answer.Aborted? && answer != Refused(Expired)
      requires limiter.Valid() && RateLimitProtocol.OneKind(keys, false) && from <= |limiter.steps|
      requires WasPermitted(WatchOf(limiter, from), clientKeys, clientGuard)
      requires WasPermitted(WatchOf(limiter, from), keys, guard)
      modifies this, store, limiter, limiter.store.states
      ensures Valid() && Continues() && limiter.Valid() && limiter.Continues()
      ensures c in state.calls && state.calls[c] == old(state).calls[c]
      ensures LimiterSettled(WatchOf(limiter, from), clientKeys, keys, state.log, c, state.calls[c].pc, outcome)
    {
      hide Books, Valid, RateLimitService.RateLimiter.Valid, RateLimitRecording.Records, RateLimitProtocol.OneKind;
      hide RateLimitService.StoppedAt;
      hide WasPermitted, RecordingCameTo, Uncompared;
      var now: Time := *;
      ghost var before := WatchOf(limiter, from);
      var recorded, r := limiter.Record(keys, now);
      limiter.HistoryEndsNow();
      ghost var w := WatchOf(limiter, from);
      StillPermitted(before, w, clientKeys, clientGuard);
      StillPermitted(before, w, keys, guard);
      assert Took(w, |before.steps| + 1, RateLimitProtocol.BeginRecording(r, keys));
      assert Stands(w, |w.run| - 1, r, RateLimitProtocol.Answered(recorded));
      RecordingEnds(w, |before.steps| + 1, |w.run| - 1, keys, r, recorded, now);
      AwaitTurn(c);
      return if recorded.Recorded? then Decided(answer) else Limited(recorded);
    }

    /** `verify_login_challenge`: without client metadata. */
    method VerifyLoginChallenge(id: Id, limiter: RateLimitService.RateLimiter)
      returns (outcome: VerifyOutcome, ghost c: CallId)
      requires Valid() && limiter.Valid()
      modifies this, store, limiter, limiter.store.states
      ensures Valid() && Continues() && limiter.Valid() && limiter.Continues()
      ensures c == old(nextCall) && c in state.calls && state.calls[c].id == id
      ensures old(steps) + [Begin(c, id)] <= steps
      ensures LimiterSettled(
                WatchOf(limiter, |old(limiter.steps)|), ClientKeys(None),
                StoredKeys(store.challenges, id, None), state.log, c, state.calls[c].pc, outcome)
      ensures state.calls[c].pc.Answered? && Tells(store.challenges, state.log, c, id, state.calls[c].pc.answer)
    {
      hide *;
      outcome, c := VerifyLoginChallengeWithMetadata(id, limiter, None);
    }

    /** The consistency check of what the store returned, and of the time. */
    method ConfirmReserved(ghost c: CallId, id: Id, found: Challenge, reserved: Challenge) returns (refusal: Option<Answer>)
      requires Valid() && c in state.calls && state.calls[c] == Call(id, Reserved(found, reserved))
      modifies `state, `run, `steps
      ensures Valid() && Continues() && c in state.calls
      ensures state.calls[c] == Call(id, if refusal.Some? then Answered(refusal.value) else Verifying(reserved))
      ensures refusal.Some? ==> refusal.value.ServiceUnavailable? || refusal.value == Refused(Expired)
      ensures NoComparison(old(state).log, state.log, c)
    {
      hide Books, Consistent;
      var now := ReadClock();
      TakeAdvance(c, PoolUnavailable);
      if !Consistent(found, reserved) {
        return Some(ServiceUnavailable);
      }
      return if reserved.ExpiredAt(now) then Some(Refused(Expired)) else None;
    }
  }

  /** In the store these methods work on, no challenge was ever charged beyond its
      budget, nor compared more often than charged. */
  lemma StoredBudgetsHold(service: ChallengeService, id: Id)
    requires service.Valid() && id in service.store.challenges
    ensures service.store.challenges[id].attempts <= service.store.challenges[id].maxAttempts
    ensures LoginChallengeTheorems.Comparisons(service.state.log, id) <= service.store.challenges[id].attempts
  {
    LoginChallengeTheorems.BudgetIsKept(service.run, service.steps, |service.run| - 1, id);
  }
}
