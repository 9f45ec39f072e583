/** Verification of login challenges by any number of concurrent callers
    (src/service/challenge.rs), with the clock read between the awaits. */
module LoginChallengeProtocol {
  import opened Common
  import opened LoginChallengeStore

  type CallId = nat

  datatype Answer =
    | Verified(at: Time)
    | Refused(error: ChallengeError)
    | InvalidCode
    | ServiceUnavailable
    | Aborted

  /** What the password pool reports: it never ran, or it compared the code. */
  datatype Work = PoolUnavailable | PoolRan(matches: bool)

  datatype Comparison = Matched | Mismatched | NotRun | TooLate

  datatype Pc =
    | Started
    | Checking(found: Challenge)
    | Admitting(found: Challenge)
    | Reserving(found: Challenge, at: Time)
    | Reserved(found: Challenge, reserved: Challenge)
    | Verifying(reserved: Challenge)
    | Compared(reserved: Challenge, comparison: Comparison)
    | Consuming(reserved: Challenge, at: Time)
    | Spent(reserved: Challenge, consumed: bool)
    | Finishing(reserved: Challenge)
    | Answered(answer: Answer)

  datatype Call = Call(id: Id, pc: Pc)

  /** What has happened, in order. */
  datatype Event =
    | Admitted(call: CallId, id: Id)
    | CodeCompared(call: CallId, id: Id, matches: bool)
    | ConsumedBy(call: CallId, id: Id)

  datatype State = State(challenges: Challenges, calls: map<CallId, Call>, clock: Time, log: seq<Event>)

  datatype Step =
    | Tick(clock: Time)
    | Create(challenge: Challenge)
    | Begin(call: CallId, id: Id)
    | Advance(call: CallId, work: Work)
    | Abort(call: CallId)

  predicate Init(s: State) {
    s.challenges == map[] && s.calls == map[] && s.log == []
  }

  /** `same_challenge_definition`. */
  predicate SameDefinition(a: Challenge, b: Challenge) {
    && a.id == b.id
    && a.principal == b.principal
    && a.codeHash == b.codeHash
    && a.createdAt == b.createdAt
    && a.expiresAt == b.expiresAt
    && a.maxAttempts == b.maxAttempts
    && a.channel == b.channel
  }

  /** The service's check on what the store returned for an admission. */
  predicate Consistent(found: Challenge, reserved: Challenge) {
    && SameDefinition(found, reserved)
    && !reserved.Consumed()
    && reserved.attempts > found.attempts
    && reserved.attempts <= reserved.maxAttempts
  }

  datatype Outcome = Outcome(challenges: Challenges, pc: Pc, event: Option<Event>)

  function Stay(s: State, pc: Pc): Outcome {
    Outcome(s.challenges, pc, None)
  }

  function Check(s: State, found: Challenge): Outcome {
    if found.Consumed() then Stay(s, Answered(Refused(Replayed)))
    else if found.ExpiredAt(s.clock) then Stay(s, Answered(Refused(Expired)))
    else if found.Exhausted() then Stay(s, Answered(Refused(AttemptsExhausted)))
    else Stay(s, Admitting(found))
  }

  function Reserve(s: State, c: CallId, id: Id, found: Challenge, at: Time): Outcome {
    match ReserveRefusal(s.challenges, id, at)
    case Some(error) => Stay(s, Answered(Refused(error)))
    case None =>
      var challenges := Admit(s.challenges, id);
      if id in challenges
      then Outcome(challenges, Reserved(found, challenges[id]), Some(Admitted(c, id)))
      else Stay(s, Answered(ServiceUnavailable))
  }

  function Confirm(s: State, found: Challenge, reserved: Challenge): Outcome {
    if !Consistent(found, reserved) then Stay(s, Answered(ServiceUnavailable))
    else if reserved.ExpiredAt(s.clock) then Stay(s, Answered(Refused(Expired)))
    else Stay(s, Verifying(reserved))
  }

  /** The pool looks at the clock again before it spends password work. */
  function Compare(s: State, c: CallId, id: Id, reserved: Challenge, work: Work): Outcome {
    match work
    case PoolUnavailable => Stay(s, Compared(reserved, NotRun))
    case PoolRan(matches) =>
      if reserved.ExpiredAt(s.clock) then Stay(s, Compared(reserved, TooLate))
      else Outcome(s.challenges, Compared(reserved, if matches then Matched else Mismatched), Some(CodeCompared(c, id, matches)))
  }

  function Judge(s: State, reserved: Challenge, comparison: Comparison): Outcome {
    if reserved.ExpiredAt(s.clock) then Stay(s, Answered(Refused(Expired)))
    else match comparison
      case NotRun => Stay(s, Answered(ServiceUnavailable))
      case TooLate => Stay(s, Answered(Refused(Expired)))
      case Mismatched =>
        Stay(s, Answered(if reserved.attempts >= reserved.maxAttempts then Refused(AttemptsExhausted) else InvalidCode))
      case Matched => Stay(s, Consuming(reserved, s.clock))
  }

  function Spend(s: State, c: CallId, id: Id, reserved: Challenge, at: Time): Outcome {
    if CanConsume(s.challenges, id, at)
    then Outcome(Consume(s.challenges, id, at), Spent(reserved, true), Some(ConsumedBy(c, id)))
    else Stay(s, Spent(reserved, false))
  }

  function Settle(s: State, reserved: Challenge, consumed: bool): Outcome {
    if reserved.ExpiredAt(s.clock) then Stay(s, Answered(Refused(Expired)))
    else if !consumed then Stay(s, Answered(Refused(Replayed)))
    else Stay(s, Finishing(reserved))
  }

  function Finish(s: State, reserved: Challenge): Outcome {
    if reserved.ExpiredAt(s.clock) then Stay(s, Answered(Refused(Expired)))
    else Stay(s, Answered(Verified(s.clock)))
  }

  function Next(s: State, c: CallId, call: Call, work: Work): Outcome {
    match call.pc
    case Started =>
      Stay(s, if call.id in s.challenges then Checking(s.challenges[call.id]) else Answered(Refused(Invalid)))
    case Checking(found) => Check(s, found)
    case Admitting(found) => Stay(s, Reserving(found, s.clock))
    case Reserving(found, at) => Reserve(s, c, call.id, found, at)
    case Reserved(found, reserved) => Confirm(s, found, reserved)
    case Verifying(reserved) => Compare(s, c, call.id, reserved, work)
    case Compared(reserved, comparison) => Judge(s, reserved, comparison)
    case Consuming(reserved, at) => Spend(s, c, call.id, reserved, at)
    case Spent(reserved, consumed) => Settle(s, reserved, consumed)
    case Finishing(reserved) => Finish(s, reserved)
    case Answered(answer) => Stay(s, Answered(answer))
  }

  /** A challenge as `create_login_challenge` stores it, under an identity never used. */
  predicate Creatable(s: State, challenge: Challenge) {
    && challenge.id !in s.challenges
    && challenge.attempts == 0 && challenge.maxAttempts > 0
    && challenge.consumedAt.None?
    && challenge.createdAt < challenge.expiresAt
  }

  predicate Enabled(s: State, step: Step) {
    match step
    case Tick(_) => true
    case Create(challenge) => Creatable(s, challenge)
    case Begin(c, _) => c !in s.calls
    case Advance(c, _) => c in s.calls && !s.calls[c].pc.Answered?
    case Abort(c) => c in s.calls && !s.calls[c].pc.Answered?
  }

  function Logged(log: seq<Event>, event: Option<Event>): seq<Event> {
    if event.Some? then log + [event.value] else log
  }

  /** A call that is cancelled, or fails on a store or the rate limiter, just ends;
      its admission, if any, stays charged. */
  function Apply(s: State, step: Step): State
    requires Enabled(s, step)
  {
    match step
    case Tick(clock) => s.(clock := clock)
    case Create(challenge) => s.(challenges := s.challenges[challenge.id := challenge])
    case Begin(c, id) => s.(calls := s.calls[c := Call(id, Started)])
    case Advance(c, work) =>
      var o := Next(s, c, s.calls[c], work);
      s.(challenges := o.challenges, calls := s.calls[c := s.calls[c].(pc := o.pc)], log := Logged(s.log, o.event))
    case Abort(c) => s.(calls := s.calls[c := s.calls[c].(pc := Answered(Aborted))])
  }

  ghost predicate IsRun(run: seq<State>, steps: seq<Step>) {
    && |run| == |steps| + 1
    && Init(run[0])
    && forall i :: 0 <= i < |steps| ==> Enabled(run[i], steps[i]) && run[i + 1] == Apply(run[i], steps[i])
  }
}
