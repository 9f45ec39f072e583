/** What challenge admission guarantees under concurrency. */
module LoginChallengeTheorems {
  import opened Common
  import opened LoginChallengeStore
  import opened LoginChallengeProtocol

  // ----- Counting ---------------------------------------------------------------------

  function Admissions(log: seq<Event>, id: Id): nat {
    if log == [] then 0
    else Admissions(log[..|log| - 1], id) + if IsAdmission(log[|log| - 1], id) then 1 else 0
  }

  function Comparisons(log: seq<Event>, id: Id): nat {
    if log == [] then 0
    else Comparisons(log[..|log| - 1], id) + if IsComparison(log[|log| - 1], id) then 1 else 0
  }

  function Consumptions(log: seq<Event>, id: Id): nat {
    if log == [] then 0
    else Consumptions(log[..|log| - 1], id) + if IsConsumption(log[|log| - 1], id) then 1 else 0
  }

  predicate IsAdmission(e: Event, id: Id) {
    e.Admitted? && e.id == id
  }

  predicate IsComparison(e: Event, id: Id) {
    e.CodeCompared? && e.id == id
  }

  predicate IsConsumption(e: Event, id: Id) {
    e.ConsumedBy? && e.id == id
  }

  lemma CountsAfter(log: seq<Event>, e: Event, id: Id)
    ensures Admissions(log + [e], id) == Admissions(log, id) + if IsAdmission(e, id) then 1 else 0
    ensures Comparisons(log + [e], id) == Comparisons(log, id) + if IsComparison(e, id) then 1 else 0
    ensures Consumptions(log + [e], id) == Consumptions(log, id) + if IsConsumption(e, id) then 1 else 0
  {
    assert (log + [e])[..|log|] == log;
  }

  // ----- The invariant ------------------------------------------------------------------

  /** Calls admitted to `id` whose code has not been compared yet. */
  predicate AwaitsComparison(call: Call, id: Id) {
    call.id == id && (call.pc.Reserved? || call.pc.Verifying?)
  }

  function Awaiting(calls: map<CallId, Call>, id: Id): set<CallId> {
    set c | c in calls && AwaitsComparison(calls[c], id)
  }

  /** The call that consumed `id` and may still report it. */
  predicate HoldsConsumption(call: Call, id: Id) {
    call.id == id &&
    ((call.pc.Spent? && call.pc.consumed) || call.pc.Finishing? || (call.pc.Answered? && call.pc.answer.Verified?))
  }

  ghost predicate ChallengeHolds(challenges: Challenges, log: seq<Event>, id: Id) {
    && (id in challenges ==>
          && challenges[id].id == id
          && challenges[id].attempts == Admissions(log, id) <= challenges[id].maxAttempts
          && Consumptions(log, id) == (if challenges[id].Consumed() then 1 else 0))
    && (id !in challenges ==> Admissions(log, id) == Comparisons(log, id) == Consumptions(log, id) == 0)
  }

  /** Admissions pay for the comparisons made and for those still to come. */
  ghost predicate Paid(calls: map<CallId, Call>, log: seq<Event>, id: Id) {
    Comparisons(log, id) + |Awaiting(calls, id)| <= Admissions(log, id)
  }

  ghost predicate OneHolder(calls: map<CallId, Call>, log: seq<Event>, id: Id) {
    && (forall c, d :: c in calls && d in calls && HoldsConsumption(calls[c], id) && HoldsConsumption(calls[d], id) ==> c == d)
    && (forall c :: c in calls && HoldsConsumption(calls[c], id) ==> Consumptions(log, id) == 1)
  }

  /** `r` is an earlier reading of the stored challenge. */
  ghost predicate Snapshot(challenges: Challenges, id: Id, r: Challenge) {
    && id in challenges && SameDefinition(r, challenges[id]) && r.attempts <= challenges[id].attempts
    && (r.Consumed() ==> challenges[id].Consumed())
  }

  ghost predicate WellPlaced(challenges: Challenges, call: Call) {
    match call.pc
    case Started => true
    case Checking(found) => Snapshot(challenges, call.id, found)
    case Admitting(found) => Snapshot(challenges, call.id, found)
    case Reserving(found, _) => Snapshot(challenges, call.id, found)
    case Reserved(found, reserved) => Snapshot(challenges, call.id, reserved) && Consistent(found, reserved)
    case Verifying(reserved) => Snapshot(challenges, call.id, reserved) && reserved.attempts > 0
    case Compared(reserved, _) => Snapshot(challenges, call.id, reserved) && reserved.attempts > 0
    case Consuming(reserved, at) =>
      Snapshot(challenges, call.id, reserved) && reserved.attempts > 0 && !reserved.ExpiredAt(at)
    case Spent(reserved, _) => Snapshot(challenges, call.id, reserved) && challenges[call.id].Consumed()
    case Finishing(reserved) => Snapshot(challenges, call.id, reserved)
    case Answered(answer) =>
      answer.Verified? ==> call.id in challenges && answer.at < challenges[call.id].expiresAt
  }

  ghost predicate CallsHold(challenges: Challenges, calls: map<CallId, Call>) {
    forall c :: c in calls ==> WellPlaced(challenges, calls[c])
  }

  ghost predicate ChallengesHold(challenges: Challenges, log: seq<Event>) {
    forall id: Id :: ChallengeHolds(challenges, log, id)
  }

  ghost predicate AllPaid(calls: map<CallId, Call>, log: seq<Event>) {
    forall id: Id :: Paid(calls, log, id)
  }

  ghost predicate HoldersHold(calls: map<CallId, Call>, log: seq<Event>) {
    forall id: Id :: OneHolder(calls, log, id)
  }

  ghost predicate HasAdmission(log: seq<Event>, c: CallId, id: Id) {
    exists i: nat :: i < |log| && log[i] == Admitted(c, id)
  }

  ghost predicate HasMatch(log: seq<Event>, c: CallId, id: Id) {
    exists j: nat :: j < |log| && log[j] == CodeCompared(c, id, true) && HasAdmission(log[..j], c, id)
  }

  /** The call was admitted, then compared a matching code, then consumed the challenge. */
  ghost predicate WentThrough(log: seq<Event>, c: CallId, id: Id) {
    exists m: nat :: m < |log| && log[m] == ConsumedBy(c, id) && HasMatch(log[..m], c, id)
  }

  /** How far a call has come shows in the log. */
  ghost predicate Progressed(log: seq<Event>, c: CallId, call: Call) {
    && (AwaitsComparison(call, call.id) ==> HasAdmission(log, c, call.id))
    && (call.pc.Consuming? || (call.pc.Compared? && call.pc.comparison.Matched?) ==> HasMatch(log, c, call.id))
    && (HoldsConsumption(call, call.id) ==> WentThrough(log, c, call.id))
  }

  ghost predicate CallsProgress(log: seq<Event>, calls: map<CallId, Call>) {
    forall c :: c in calls ==> Progressed(log, c, calls[c])
  }

  ghost predicate Inv(s: State) {
    && ChallengesHold(s.challenges, s.log)
    && AllPaid(s.calls, s.log)
    && HoldersHold(s.calls, s.log)
    && CallsHold(s.challenges, s.calls)
    && CallsProgress(s.log, s.calls)
  }

  // ----- Steps -----------------------------------------------------------------------------

  /** Challenges are never lost or redefined, attempts never go back, and what is
      consumed stays consumed. */
  ghost predicate Evolves(before: Challenges, after: Challenges) {
    forall id :: id in before ==>
      && id in after
      && after[id] == before[id].(attempts := after[id].attempts, consumedAt := after[id].consumedAt)
      && before[id].attempts <= after[id].attempts
      && (before[id].Consumed() ==> after[id].consumedAt == before[id].consumedAt)
  }

  lemma EvolutionKeepsCall(before: Challenges, after: Challenges, call: Call)
    requires Evolves(before, after) && WellPlaced(before, call)
    ensures WellPlaced(after, call)
  {
  }

  lemma EvolutionKeepsCalls(before: Challenges, after: Challenges, calls: map<CallId, Call>)
    requires Evolves(before, after) && CallsHold(before, calls)
    ensures CallsHold(after, calls)
  {
    forall c | c in calls
      ensures WellPlaced(after, calls[c])
    {
      EvolutionKeepsCall(before, after, calls[c]);
    }
  }

  /** Which event a step may commit, and from where. */
  ghost predicate Commits(challenges: Challenges, c: CallId, call: Call, o: Outcome) {
    match o.event
    case None =>
      && o.challenges == challenges
      && (AwaitsComparison(call.(pc := o.pc), call.id) ==> AwaitsComparison(call, call.id))
      && (HoldsConsumption(call.(pc := o.pc), call.id) ==> HoldsConsumption(call, call.id))
    case Some(Admitted(d, id)) =>
      && d == c && id == call.id && call.pc.Reserving? && o.pc.Reserved?
      && ReserveRefusal(challenges, id, call.pc.at).None? && o.challenges == Admit(challenges, id)
    case Some(CodeCompared(d, id, matches)) =>
      d == c && id == call.id && call.pc.Verifying? && o.pc.Compared? && o.challenges == challenges
    case Some(ConsumedBy(d, id)) =>
      && d == c && id == call.id && call.pc.Consuming? && o.pc.Spent? && o.pc.consumed
      && CanConsume(challenges, id, call.pc.at) && o.challenges == Consume(challenges, id, call.pc.at)
  }

  lemma NextCommits(s: State, c: CallId, call: Call, work: Work)
    requires WellPlaced(s.challenges, call)
    ensures Commits(s.challenges, c, call, Next(s, c, call, work))
  {
  }

  lemma CommitEvolves(challenges: Challenges, c: CallId, call: Call, o: Outcome)
    requires Commits(challenges, c, call, o)
    ensures Evolves(challenges, o.challenges)
  {
  }

  lemma StoreReadIsPlaced(s: State, c: CallId, call: Call, work: Work)
    requires call.pc.Started? || call.pc.Reserving? || call.pc.Consuming?
    requires WellPlaced(s.challenges, call) && ChallengeHolds(s.challenges, s.log, call.id)
    ensures WellPlaced(Next(s, c, call, work).challenges, call.(pc := Next(s, c, call, work).pc))
  {
  }

  lemma LocalStepIsPlaced(s: State, c: CallId, call: Call, work: Work)
    requires !call.pc.Started? && !call.pc.Reserving? && !call.pc.Consuming?
    requires WellPlaced(s.challenges, call)
    ensures WellPlaced(Next(s, c, call, work).challenges, call.(pc := Next(s, c, call, work).pc))
  {
  }

  lemma NextIsPlaced(s: State, c: CallId, call: Call, work: Work)
    requires WellPlaced(s.challenges, call) && ChallengeHolds(s.challenges, s.log, call.id)
    ensures WellPlaced(Next(s, c, call, work).challenges, call.(pc := Next(s, c, call, work).pc))
  {
    hide *;
    if call.pc.Started? || call.pc.Reserving? || call.pc.Consuming? {
      StoreReadIsPlaced(s, c, call, work);
    } else {
      LocalStepIsPlaced(s, c, call, work);
    }
  }

  lemma AwaitingAfter(calls: map<CallId, Call>, c: CallId, call: Call, id: Id)
    requires c in calls ==> calls[c].id == call.id
    ensures var before, after := Awaiting(calls, id), Awaiting(calls[c := call], id);
            && (AwaitsComparison(call, id) ==> after == before + {c})
            && (!AwaitsComparison(call, id) ==> after == before - {c})
            && (c in calls && AwaitsComparison(calls[c], id) <==> c in before)
  {
  }

  lemma StepKeepsPaid(challenges: Challenges, calls: map<CallId, Call>, log: seq<Event>, c: CallId, o: Outcome, id: Id)
    requires c in calls && Commits(challenges, c, calls[c], o) && Paid(calls, log, id)
    ensures Paid(calls[c := calls[c].(pc := o.pc)], Logged(log, o.event), id)
  {
    AwaitingAfter(calls, c, calls[c].(pc := o.pc), id);
    if o.event.Some? {
      CountsAfter(log, o.event.value, id);
    }
  }

  lemma StepKeepsHolder(challenges: Challenges, calls: map<CallId, Call>, log: seq<Event>, c: CallId, o: Outcome, id: Id)
    requires c in calls && Commits(challenges, c, calls[c], o)
    requires OneHolder(calls, log, id) && ChallengeHolds(challenges, log, calls[c].id)
    ensures OneHolder(calls[c := calls[c].(pc := o.pc)], Logged(log, o.event), id)
  {
    if o.event.Some? {
      CountsAfter(log, o.event.value, id);
    }
  }

  lemma StepKeepsChallenge(challenges: Challenges, log: seq<Event>, c: CallId, call: Call, o: Outcome, id: Id)
    requires Commits(challenges, c, call, o)
    requires ChallengeHolds(challenges, log, id) && (o.event.Some? ==> call.id in challenges)
    ensures ChallengeHolds(o.challenges, Logged(log, o.event), id)
  {
    if o.event.Some? {
      CountsAfter(log, o.event.value, id);
    }
  }

  lemma ProgressIsKept(log: seq<Event>, event: Option<Event>, c: CallId, call: Call)
    requires Progressed(log, c, call)
    ensures Progressed(Logged(log, event), c, call)
  {
    if event.Some? {
      EvidenceIsKept(log, event.value, c, call.id);
    }
  }

  lemma EvidenceIsKept(log: seq<Event>, e: Event, c: CallId, id: Id)
    ensures HasAdmission(log, c, id) ==> HasAdmission(log + [e], c, id)
    ensures HasMatch(log, c, id) ==> HasMatch(log + [e], c, id)
    ensures WentThrough(log, c, id) ==> WentThrough(log + [e], c, id)
  {
    var longer := log + [e];
    if HasAdmission(log, c, id) {
      var i: nat :| i < |log| && log[i] == Admitted(c, id);
      assert longer[i] == Admitted(c, id);
    }
    if HasMatch(log, c, id) {
      var j: nat :| j < |log| && log[j] == CodeCompared(c, id, true) && HasAdmission(log[..j], c, id);
      assert longer[j] == CodeCompared(c, id, true) && longer[..j] == log[..j];
    }
    if WentThrough(log, c, id) {
      var m: nat :| m < |log| && log[m] == ConsumedBy(c, id) && HasMatch(log[..m], c, id);
      assert longer[m] == ConsumedBy(c, id) && longer[..m] == log[..m];
    }
  }

  lemma StepProgresses(s: State, c: CallId, work: Work)
    requires c in s.calls && Progressed(s.log, c, s.calls[c]) && WellPlaced(s.challenges, s.calls[c])
    ensures var o := Next(s, c, s.calls[c], work);
            Progressed(Logged(s.log, o.event), c, s.calls[c].(pc := o.pc))
  {
    var o := Next(s, c, s.calls[c], work);
    if o.event.Some? {
      var longer := s.log + [o.event.value];
      assert longer[|s.log|] == o.event.value && longer[..|s.log|] == s.log;
    }
  }

  lemma AdvanceKeepsLedger(s: State, c: CallId, work: Work)
    requires c in s.calls && WellPlaced(s.challenges, s.calls[c])
    requires ChallengesHold(s.challenges, s.log) && AllPaid(s.calls, s.log) && HoldersHold(s.calls, s.log)
    ensures var o := Next(s, c, s.calls[c], work);
            && ChallengesHold(o.challenges, Logged(s.log, o.event))
            && AllPaid(s.calls[c := s.calls[c].(pc := o.pc)], Logged(s.log, o.event))
            && HoldersHold(s.calls[c := s.calls[c].(pc := o.pc)], Logged(s.log, o.event))
  {
    var call, o := s.calls[c], Next(s, c, s.calls[c], work);
    var calls, log := s.calls[c := call.(pc := o.pc)], Logged(s.log, o.event);
    NextCommits(s, c, call, work);
    assert ChallengeHolds(s.challenges, s.log, call.id);
    forall id: Id
      ensures ChallengeHolds(o.challenges, Logged(s.log, o.event), id)
    {
      assert ChallengeHolds(s.challenges, s.log, id);
      StepKeepsChallenge(s.challenges, s.log, c, call, o, id);
    }
    forall id: Id
      ensures Paid(calls, log, id)
    {
      assert Paid(s.calls, s.log, id);
      StepKeepsPaid(s.challenges, s.calls, s.log, c, o, id);
    }
    forall id: Id
      ensures OneHolder(calls, log, id)
    {
      assert OneHolder(s.calls, s.log, id);
      StepKeepsHolder(s.challenges, s.calls, s.log, c, o, id);
    }
  }

  lemma AdvanceKeepsCalls(s: State, c: CallId, work: Work)
    requires c in s.calls && CallsHold(s.challenges, s.calls) && CallsProgress(s.log, s.calls)
    requires ChallengeHolds(s.challenges, s.log, s.calls[c].id)
    ensures var o := Next(s, c, s.calls[c], work);
            && Evolves(s.challenges, o.challenges)
            && CallsHold(o.challenges, s.calls[c := s.calls[c].(pc := o.pc)])
            && CallsProgress(Logged(s.log, o.event), s.calls[c := s.calls[c].(pc := o.pc)])
  {
    hide *;
    var call, o := s.calls[c], Next(s, c, s.calls[c], work);
    var calls := s.calls[c := call.(pc := o.pc)];
    CallIsPlaced(s.challenges, s.calls, c);
    NextCommits(s, c, call, work);
    CommitEvolves(s.challenges, c, call, o);
    EvolutionKeepsCalls(s.challenges, o.challenges, s.calls);
    NextIsPlaced(s, c, call, work);
    CallProgressed(s.log, s.calls, c);
    StepProgresses(s, c, work);
    forall d | d in calls
      ensures WellPlaced(o.challenges, calls[d]) && Progressed(Logged(s.log, o.event), d, calls[d])
    {
      if d != c {
        CallIsPlaced(o.challenges, s.calls, d);
        CallProgressed(s.log, s.calls, d);
        ProgressIsKept(s.log, o.event, d, s.calls[d]);
      }
    }
    TheseCallsHold(o.challenges, Logged(s.log, o.event), calls);
  }

  lemma CallIsPlaced(challenges: Challenges, calls: map<CallId, Call>, c: CallId)
    requires CallsHold(challenges, calls) && c in calls
    ensures WellPlaced(challenges, calls[c])
  {
  }

  lemma CallProgressed(log: seq<Event>, calls: map<CallId, Call>, c: CallId)
    requires CallsProgress(log, calls) && c in calls
    ensures Progressed(log, c, calls[c])
  {
  }

  lemma TheseCallsHold(challenges: Challenges, log: seq<Event>, calls: map<CallId, Call>)
    requires forall c :: c in calls ==> WellPlaced(challenges, calls[c]) && Progressed(log, c, calls[c])
    ensures CallsHold(challenges, calls) && CallsProgress(log, calls)
  {
  }

  /** A call that starts or is given up owes and holds nothing new. */
  predicate Quiet(pc: Pc) {
    pc.Started? || pc == Answered(Aborted)
  }

  lemma QuietCallKeepsInv(s: State, c: CallId, call: Call)
    requires Inv(s) && Quiet(call.pc) && (c in s.calls ==> call.id == s.calls[c].id)
    ensures Inv(s.(calls := s.calls[c := call]))
  {
    var calls := s.calls[c := call];
    forall id: Id
      ensures Paid(calls, s.log, id)
    {
      assert Paid(s.calls, s.log, id);
      AwaitingAfter(s.calls, c, call, id);
    }
    forall id: Id
      ensures OneHolder(calls, s.log, id)
    {
      assert OneHolder(s.calls, s.log, id);
    }
  }

  lemma CreateKeepsInv(s: State, challenge: Challenge)
    requires Inv(s) && Creatable(s, challenge)
    ensures Inv(s.(challenges := s.challenges[challenge.id := challenge]))
    ensures Evolves(s.challenges, s.challenges[challenge.id := challenge])
  {
    var challenges := s.challenges[challenge.id := challenge];
    EvolutionKeepsCalls(s.challenges, challenges, s.calls);
    forall id: Id
      ensures ChallengeHolds(challenges, s.log, id)
    {
      assert ChallengeHolds(s.challenges, s.log, id);
    }
  }

  lemma StepKeepsInv(s: State, step: Step)
    requires Inv(s) && Enabled(s, step)
    ensures Inv(Apply(s, step))
    ensures Evolves(s.challenges, Apply(s, step).challenges)
  {
    match step
    case Tick(_) =>
    case Create(challenge) => CreateKeepsInv(s, challenge);
    case Begin(c, id) => QuietCallKeepsInv(s, c, Call(id, Started));
    case Advance(c, work) =>
      assert WellPlaced(s.challenges, s.calls[c]);
      assert ChallengeHolds(s.challenges, s.log, s.calls[c].id);
      AdvanceKeepsLedger(s, c, work);
      AdvanceKeepsCalls(s, c, work);
    case Abort(c) => QuietCallKeepsInv(s, c, s.calls[c].(pc := Answered(Aborted)));
  }

  lemma {:induction false} RunKeepsInv(run: seq<State>, steps: seq<Step>, k: nat)
    requires IsRun(run, steps) && k < |run|
    ensures Inv(run[k])
  {
    if k > 0 {
      RunKeepsInv(run, steps, k - 1);
      StepKeepsInv(run[k - 1], steps[k - 1]);
    }
  }

  // ----- Theorems ---------------------------------------------------------------------------

  /** Admitted attempts are counted exactly and never exceed the budget, and no more
      codes are compared than attempts were admitted. */
  lemma BudgetIsKept(run: seq<State>, steps: seq<Step>, k: nat, id: Id)
    requires IsRun(run, steps) && k < |run| && id in run[k].challenges
    ensures var c, log := run[k].challenges[id], run[k].log;
            Comparisons(log, id) <= Admissions(log, id) == c.attempts <= c.maxAttempts
  {
    RunKeepsInv(run, steps, k);
    assert ChallengeHolds(run[k].challenges, run[k].log, id) && Paid(run[k].calls, run[k].log, id);
  }

  /** No admission is ever refunded, no definition changes, and consumption is final,
      between any two moments of a run. */
  lemma {:induction false} NothingIsRefunded(run: seq<State>, steps: seq<Step>, j: nat, k: nat)
    requires IsRun(run, steps) && j <= k < |run|
    ensures Evolves(run[j].challenges, run[k].challenges)
    decreases k
  {
    if j < k {
      NothingIsRefunded(run, steps, j, k - 1);
      RunKeepsInv(run, steps, k - 1);
      StepKeepsInv(run[k - 1], steps[k - 1]);
    }
  }

  predicate AnsweredVerified(s: State, c: CallId) {
    c in s.calls && s.calls[c].pc.Answered? && s.calls[c].pc.answer.Verified?
  }

  /** At most one call ever reports a challenge as verified, and only with a time
      before the challenge's expiry. */
  lemma VerifiedOnceInTime(run: seq<State>, steps: seq<Step>, k: nat, c: CallId, d: CallId)
    requires IsRun(run, steps) && k < |run| && AnsweredVerified(run[k], c)
    ensures var s := run[k];
            && s.calls[c].id in s.challenges && s.challenges[s.calls[c].id].Consumed()
            && s.calls[c].pc.answer.at < s.challenges[s.calls[c].id].expiresAt
            && (AnsweredVerified(s, d) && s.calls[d].id == s.calls[c].id ==> d == c)
  {
    RunKeepsInv(run, steps, k);
    var s := run[k];
    assert WellPlaced(s.challenges, s.calls[c]);
    assert OneHolder(s.calls, s.log, s.calls[c].id) && HoldsConsumption(s.calls[c], s.calls[c].id);
    assert ChallengeHolds(s.challenges, s.log, s.calls[c].id);
  }

  /** The service's consistency check on a reserved record never rejects a store
      that keeps its contract. */
  lemma ConsistencyCheckNeverRejects(run: seq<State>, steps: seq<Step>, k: nat, c: CallId)
    requires IsRun(run, steps) && k < |run| && c in run[k].calls && run[k].calls[c].pc.Reserved?
    ensures Consistent(run[k].calls[c].pc.found, run[k].calls[c].pc.reserved)
  {
    RunKeepsInv(run, steps, k);
    assert WellPlaced(run[k].challenges, run[k].calls[c]);
  }

  /** For whatever a store may return: the call goes on after its admission exactly with the
      challenge it found, in its own definition, unconsumed, charged for more than was found
      and within the budget, while it is in time. */
  lemma ConfirmedExactly(s: State, found: Challenge, reserved: Challenge)
    ensures Confirm(s, found, reserved).pc.Verifying? <==>
            && reserved == found.(attempts := reserved.attempts, consumedAt := None)
            && found.attempts < reserved.attempts <= found.maxAttempts && s.clock < found.expiresAt
    ensures !Confirm(s, found, reserved).pc.Verifying? ==>
              Confirm(s, found, reserved).pc == Answered(if Consistent(found, reserved) then Refused(Expired)
                                                         else ServiceUnavailable)
  {
  }

  /** A call reports "verified" only if it was admitted, then compared a matching code,
      then consumed the challenge itself. */
  lemma VerifiedCallsWentThrough(run: seq<State>, steps: seq<Step>, k: nat, c: CallId)
    requires IsRun(run, steps) && k < |run| && AnsweredVerified(run[k], c)
    ensures WentThrough(run[k].log, c, run[k].calls[c].id)
  {
    RunKeepsInv(run, steps, k);
    assert Progressed(run[k].log, c, run[k].calls[c]);
  }

  // ----- Refusals are true ------------------------------------------------------------------

  /** At moment `j`, before `k`, call `c` was in flight for challenge `id`. */
  predicate InFlight(run: seq<State>, k: nat, j: nat, c: CallId, id: Id) {
    j < k <= |run| && c in run[j].calls && run[j].calls[c].id == id && !run[j].calls[c].pc.Answered?
  }

  /** The challenge was stored at that moment. */
  predicate StoredAt(run: seq<State>, k: nat, j: nat, c: CallId, id: Id) {
    InFlight(run, k, j, c, id) && id in run[j].challenges
  }

  /** The clock showed `at` at that moment. */
  predicate ShownAt(run: seq<State>, k: nat, m: nat, c: CallId, id: Id, at: Time) {
    InFlight(run, k, m, c, id) && run[m].clock == at
  }

  /** While call `c` was in flight, before moment `k`, there was a moment at which the
      reason held of the stored challenge; for expiry, by a clock value shown then too. */
  ghost predicate TrueBefore(run: seq<State>, k: nat, c: CallId, id: Id, error: ChallengeError) {
    match error
    case Invalid => exists j: nat :: InFlight(run, k, j, c, id) && id !in run[j].challenges
    case Replayed => exists j: nat :: StoredAt(run, k, j, c, id) && run[j].challenges[id].Consumed()
    case AttemptsExhausted => exists j: nat :: StoredAt(run, k, j, c, id) && run[j].challenges[id].Exhausted()
    case Expired =>
      exists j: nat, m: nat, at: Time ::
        StoredAt(run, k, j, c, id) && ShownAt(run, k, m, c, id, at) && run[j].challenges[id].ExpiredAt(at)
  }

  /** Clock values that a position rests on were read by this call before. */
  ghost predicate ReadBefore(run: seq<State>, k: nat, c: CallId, id: Id, pc: Pc) {
    match pc
    case Reserving(_, at) => exists m: nat :: ShownAt(run, k, m, c, id, at)
    case Compared(reserved, TooLate) => exists m: nat, at: Time :: ShownAt(run, k, m, c, id, at) && reserved.ExpiredAt(at)
    case _ => true
  }

  lemma LaterStillRead(run: seq<State>, k: nat, c: CallId, id: Id, pc: Pc)
    requires k + 1 <= |run| && ReadBefore(run, k, c, id, pc)
    ensures ReadBefore(run, k + 1, c, id, pc)
  {
    match pc
    case Reserving(_, at) =>
      var m: nat :| ShownAt(run, k, m, c, id, at);
      assert ShownAt(run, k + 1, m, c, id, at);
    case Compared(reserved, TooLate) =>
      var m: nat, at: Time :| ShownAt(run, k, m, c, id, at) && reserved.ExpiredAt(at);
      assert ShownAt(run, k + 1, m, c, id, at);
    case _ =>
  }

  lemma NextReads(run: seq<State>, k: nat, c: CallId, call: Call, work: Work)
    requires InFlight(run, k + 1, k, c, call.id)
    requires Next(run[k], c, call, work).pc.Reserving? || Next(run[k], c, call, work).pc.Compared?
    ensures ReadBefore(run, k + 1, c, call.id, Next(run[k], c, call, work).pc)
  {
    assert ShownAt(run, k + 1, k, c, call.id, run[k].clock);
  }

  lemma CallMoves(run: seq<State>, steps: seq<Step>, k: nat, c: CallId)
    requires IsRun(run, steps) && k + 1 < |run| && c in run[k + 1].calls
    ensures || (c in run[k].calls && run[k + 1].calls[c] == run[k].calls[c])
            || Quiet(run[k + 1].calls[c].pc)
            || (c in run[k].calls && !run[k].calls[c].pc.Answered? && steps[k].Advance? && steps[k].call == c
                && run[k + 1].calls[c] == run[k].calls[c].(pc := Next(run[k], c, run[k].calls[c], steps[k].work).pc))
  {
    assert Enabled(run[k], steps[k]) && run[k + 1] == Apply(run[k], steps[k]);
  }

  /** Every event was committed by a call that had begun. */
  ghost predicate EventsHaveCallers(s: State) {
    forall n :: 0 <= n < |s.log| ==> s.log[n].call in s.calls
  }

  lemma StepKeepsCallers(run: seq<State>, steps: seq<Step>, k: nat)
    requires IsRun(run, steps) && k + 1 < |run| && EventsHaveCallers(run[k])
    ensures EventsHaveCallers(run[k + 1])
  {
    assert Enabled(run[k], steps[k]) && run[k + 1] == Apply(run[k], steps[k]);
  }

  lemma {:induction false} RunHasCallers(run: seq<State>, steps: seq<Step>, k: nat)
    requires IsRun(run, steps) && k < |run|
    ensures EventsHaveCallers(run[k])
  {
    if k > 0 {
      RunHasCallers(run, steps, k - 1);
      StepKeepsCallers(run, steps, k - 1);
    }
  }

  lemma {:induction false} PositionsRead(run: seq<State>, steps: seq<Step>, k: nat, c: CallId)
    requires IsRun(run, steps) && k < |run| && c in run[k].calls
    ensures ReadBefore(run, k, c, run[k].calls[c].id, run[k].calls[c].pc)
  {
    var pc := run[k].calls[c].pc;
    if k > 0 && (pc.Reserving? || pc.Compared?) {
      CallMoves(run, steps, k - 1, c);
      if c in run[k - 1].calls && run[k].calls[c] == run[k - 1].calls[c] {
        PositionsRead(run, steps, k - 1, c);
        LaterStillRead(run, k - 1, c, run[k].calls[c].id, pc);
      } else {
        NextReads(run, k - 1, c, run[k - 1].calls[c], steps[k - 1].work);
      }
    }
  }

  lemma LaterStillTrue(run: seq<State>, k: nat, c: CallId, id: Id, error: ChallengeError)
    requires k + 1 <= |run| && TrueBefore(run, k, c, id, error)
    ensures TrueBefore(run, k + 1, c, id, error)
  {
    match error
    case Invalid =>
      var j: nat :| InFlight(run, k, j, c, id) && id !in run[j].challenges;
      assert InFlight(run, k + 1, j, c, id);
    case Replayed =>
      var j: nat :| StoredAt(run, k, j, c, id) && run[j].challenges[id].Consumed();
      assert StoredAt(run, k + 1, j, c, id);
    case AttemptsExhausted =>
      var j: nat :| StoredAt(run, k, j, c, id) && run[j].challenges[id].Exhausted();
      assert StoredAt(run, k + 1, j, c, id);
    case Expired =>
      var j: nat, m: nat, at: Time :|
        StoredAt(run, k, j, c, id) && ShownAt(run, k, m, c, id, at) && run[j].challenges[id].ExpiredAt(at);
      assert StoredAt(run, k + 1, j, c, id) && ShownAt(run, k + 1, m, c, id, at);
  }

  predicate RefusesWith(pc: Pc, error: ChallengeError) {
    pc == Answered(Refused(error))
  }

  /** The refusal that a step decides on is true of the challenge it finds stored. */
  lemma StepRefusesTruly(run: seq<State>, k: nat, c: CallId, call: Call, work: Work, error: ChallengeError)
    requires InFlight(run, k + 1, k, c, call.id) && call == run[k].calls[c]
    requires WellPlaced(run[k].challenges, call) && ReadBefore(run, k, c, call.id, call.pc)
    requires RefusesWith(Next(run[k], c, call, work).pc, error)
    ensures TrueBefore(run, k + 1, c, call.id, error)
  {
    LaterStillRead(run, k, c, call.id, call.pc);
    assert ShownAt(run, k + 1, k, c, call.id, run[k].clock);
    assert call.id in run[k].challenges ==> StoredAt(run, k + 1, k, c, call.id);
  }

  /** A refusal never lies: a challenge is reported missing, used, exhausted or expired
      only if it was, at a moment while the call was in flight, by a clock shown in flight. */
  lemma {:induction false} RefusalsAreTrue(run: seq<State>, steps: seq<Step>, k: nat, c: CallId, error: ChallengeError)
    requires IsRun(run, steps) && k < |run| && c in run[k].calls && RefusesWith(run[k].calls[c].pc, error)
    ensures TrueBefore(run, k, c, run[k].calls[c].id, error)
  {
    if k > 0 {
      CallMoves(run, steps, k - 1, c);
      if c in run[k - 1].calls && run[k].calls[c] == run[k - 1].calls[c] {
        RefusalsAreTrue(run, steps, k - 1, c, error);
        LaterStillTrue(run, k - 1, c, run[k].calls[c].id, error);
      } else {
        RunKeepsInv(run, steps, k - 1);
        CallIsPlaced(run[k - 1].challenges, run[k - 1].calls, c);
        PositionsRead(run, steps, k - 1, c);
        StepRefusesTruly(run, k - 1, c, run[k - 1].calls[c], steps[k - 1].work, error);
      }
    }
  }
}
