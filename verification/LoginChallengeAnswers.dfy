/** What the answer of a verification tells of the code that was compared, and of the
    attempts that are left. */
module LoginChallengeAnswers {
  import opened Common
  import opened LoginChallengeStore
  import opened LoginChallengeProtocol
  import opened LoginChallengeTheorems

  // ----- A call's own events ---------------------------------------------------------------

  predicate Compares(e: Event, c: CallId) {
    e.CodeCompared? && e.call == c
  }

  predicate Consumes(e: Event, c: CallId) {
    e.ConsumedBy? && e.call == c
  }

  /** Call `c` has been admitted to nothing, and done nothing. */
  ghost predicate Silent(log: seq<Event>, c: CallId) {
    forall n :: 0 <= n < |log| ==> log[n].call != c
  }

  /** Call `c` has not had its code compared. */
  ghost predicate Uncompared(log: seq<Event>, c: CallId) {
    forall n :: 0 <= n < |log| ==> !Compares(log[n], c)
  }

  ghost predicate Unspent(log: seq<Event>, c: CallId) {
    forall n :: 0 <= n < |log| ==> !Consumes(log[n], c)
  }

  /** Position `j` is the one comparison that call `c` has made. */
  ghost predicate ComparesAt(log: seq<Event>, j: nat, c: CallId, id: Id, matches: bool) {
    && j < |log| && log[j] == CodeCompared(c, id, matches)
    && forall n :: 0 <= n < |log| && Compares(log[n], c) ==> n == j
  }

  ghost predicate ComparedOnce(log: seq<Event>, c: CallId, id: Id, matches: bool) {
    exists j: nat :: ComparesAt(log, j, c, id, matches)
  }

  /** Position `i` is the admission of call `c`, the `count`-th to this challenge. */
  predicate AdmitsAs(log: seq<Event>, i: nat, c: CallId, id: Id, count: nat) {
    i < |log| && log[i] == Admitted(c, id) && Admissions(log[..i + 1], id) == count
  }

  ghost predicate AdmittedAs(log: seq<Event>, c: CallId, id: Id, count: nat) {
    exists i: nat :: AdmitsAs(log, i, c, id, count)
  }

  /** The admission of call `c` left further attempts, or was the last one. */
  ghost predicate LeftAttempts(challenges: Challenges, log: seq<Event>, c: CallId, id: Id, left: bool) {
    id in challenges && exists count: nat :: AdmittedAs(log, c, id, count) && left == (count < challenges[id].maxAttempts)
  }

  // ----- What an answer tells -----------------------------------------------------------------

  ghost predicate Tells(challenges: Challenges, log: seq<Event>, c: CallId, id: Id, answer: Answer) {
    match answer
    case Verified(_) => ComparedOnce(log, c, id, true)
    case InvalidCode => ComparedOnce(log, c, id, false) && Unspent(log, c) && LeftAttempts(challenges, log, c, id, true)
    case ServiceUnavailable => Uncompared(log, c) && Unspent(log, c)
    case Refused(error) => TellsRefusal(challenges, log, c, id, error)
    case Aborted => true
  }

  ghost predicate TellsRefusal(challenges: Challenges, log: seq<Event>, c: CallId, id: Id, error: ChallengeError) {
    match error
    case Invalid => Silent(log, c)
    case AttemptsExhausted =>
      || Silent(log, c)
      || (ComparedOnce(log, c, id, false) && Unspent(log, c) && LeftAttempts(challenges, log, c, id, false))
    case Replayed => Silent(log, c) || (ComparedOnce(log, c, id, true) && Unspent(log, c))
    case Expired => true
  }

  /** What the history says of a call at its position. */
  ghost predicate Shows(challenges: Challenges, log: seq<Event>, c: CallId, call: Call) {
    match call.pc
    case Reserved(_, reserved) =>
      Uncompared(log, c) && Unspent(log, c) && AdmittedAs(log, c, call.id, reserved.attempts)
    case Verifying(reserved) =>
      Uncompared(log, c) && Unspent(log, c) && AdmittedAs(log, c, call.id, reserved.attempts)
    case Compared(reserved, comparison) =>
      && Unspent(log, c) && AdmittedAs(log, c, call.id, reserved.attempts)
      && (if comparison.Matched? || comparison.Mismatched? then ComparedOnce(log, c, call.id, comparison.Matched?)
          else Uncompared(log, c))
    case Consuming(_, _) => ComparedOnce(log, c, call.id, true) && Unspent(log, c)
    case Spent(_, consumed) => ComparedOnce(log, c, call.id, true) && (!consumed ==> Unspent(log, c))
    case Finishing(_) => ComparedOnce(log, c, call.id, true)
    case Answered(answer) => Tells(challenges, log, c, call.id, answer)
    case _ => Silent(log, c)
  }

  // ----- Steps -----------------------------------------------------------------------------------

  /** What was said stays said when others act. */
  lemma OthersLeaveEvents(log: seq<Event>, e: Event, c: CallId, id: Id)
    requires e.call != c
    ensures Silent(log, c) ==> Silent(log + [e], c)
    ensures Uncompared(log, c) ==> Uncompared(log + [e], c)
    ensures Unspent(log, c) ==> Unspent(log + [e], c)
    ensures forall matches :: ComparedOnce(log, c, id, matches) ==> ComparedOnce(log + [e], c, id, matches)
    ensures forall count :: AdmittedAs(log, c, id, count) ==> AdmittedAs(log + [e], c, id, count)
  {
    var longer := log + [e];
    forall matches | ComparedOnce(log, c, id, matches)
      ensures ComparedOnce(longer, c, id, matches)
    {
      var j: nat :| ComparesAt(log, j, c, id, matches);
      assert ComparesAt(longer, j, c, id, matches);
    }
    forall count: nat | AdmittedAs(log, c, id, count)
      ensures AdmittedAs(longer, c, id, count)
    {
      AdmissionIsKept(log, e, c, id, count);
    }
  }

  lemma AdmissionIsKept(log: seq<Event>, e: Event, c: CallId, id: Id, count: nat)
    requires AdmittedAs(log, c, id, count)
    ensures AdmittedAs(log + [e], c, id, count)
  {
    var i: nat :| AdmitsAs(log, i, c, id, count);
    assert (log + [e])[..i + 1] == log[..i + 1];
    assert AdmitsAs(log + [e], i, c, id, count);
  }

  lemma AttemptsStayLeft(
    before: Challenges, after: Challenges, log: seq<Event>, longer: seq<Event>, c: CallId, id: Id, left: bool)
    requires Evolves(before, after) && LeftAttempts(before, log, c, id, left)
    requires forall count :: AdmittedAs(log, c, id, count) ==> AdmittedAs(longer, c, id, count)
    ensures LeftAttempts(after, longer, c, id, left)
  {
    var count: nat :| AdmittedAs(log, c, id, count) && left == (count < before[id].maxAttempts);
    assert AdmittedAs(longer, c, id, count);
  }

  lemma ShowsStands(before: Challenges, after: Challenges, log: seq<Event>, event: Option<Event>, c: CallId, call: Call)
    requires Evolves(before, after) && Shows(before, log, c, call) && (event.Some? ==> event.value.call != c)
    ensures Shows(after, Logged(log, event), c, call)
  {
    hide Silent, Uncompared, Unspent, ComparedOnce, AdmittedAs, Evolves, LeftAttempts;
    if event.Some? {
      OthersLeaveEvents(log, event.value, c, call.id);
    }
    if LeftAttempts(before, log, c, call.id, true) {
      AttemptsStayLeft(before, after, log, Logged(log, event), c, call.id, true);
    }
    if LeftAttempts(before, log, c, call.id, false) {
      AttemptsStayLeft(before, after, log, Logged(log, event), c, call.id, false);
    }
  }

  /** An admission is the first thing a call does. */
  lemma AdmittingShows(log: seq<Event>, c: CallId, id: Id)
    requires Silent(log, c)
    ensures var longer := log + [Admitted(c, id)];
            Uncompared(longer, c) && Unspent(longer, c) && AdmittedAs(longer, c, id, Admissions(longer, id))
  {
    var longer := log + [Admitted(c, id)];
    assert longer[..|log| + 1] == longer;
    assert AdmitsAs(longer, |log|, c, id, Admissions(longer, id));
  }

  lemma ComparingShows(log: seq<Event>, c: CallId, id: Id, matches: bool, count: nat)
    requires Uncompared(log, c) && Unspent(log, c) && AdmittedAs(log, c, id, count)
    ensures var longer := log + [CodeCompared(c, id, matches)];
            ComparedOnce(longer, c, id, matches) && Unspent(longer, c) && AdmittedAs(longer, c, id, count)
  {
    AdmissionIsKept(log, CodeCompared(c, id, matches), c, id, count);
    assert ComparesAt(log + [CodeCompared(c, id, matches)], |log|, c, id, matches);
  }

  lemma ConsumingShows(log: seq<Event>, c: CallId, id: Id)
    requires ComparedOnce(log, c, id, true)
    ensures ComparedOnce(log + [ConsumedBy(c, id)], c, id, true)
  {
    var j: nat :| ComparesAt(log, j, c, id, true);
    assert ComparesAt(log + [ConsumedBy(c, id)], j, c, id, true);
  }

  lemma JudgingShows(s: State, c: CallId, call: Call, work: Work)
    requires call.pc.Compared? && WellPlaced(s.challenges, call) && Shows(s.challenges, s.log, c, call)
    ensures Shows(s.challenges, s.log, c, call.(pc := Next(s, c, call, work).pc))
  {
    hide Silent, Uncompared, Unspent, ComparedOnce, AdmittedAs;
    assert AdmittedAs(s.log, c, call.id, call.pc.reserved.attempts);
  }

  lemma ReservingShows(s: State, c: CallId, call: Call, work: Work)
    requires call.pc.Reserving? && ChallengeHolds(s.challenges, s.log, call.id) && Shows(s.challenges, s.log, c, call)
    ensures var o := Next(s, c, call, work); Shows(o.challenges, Logged(s.log, o.event), c, call.(pc := o.pc))
  {
    hide Silent, Uncompared, Unspent, AdmittedAs, Admissions, Consumptions;
    AdmittingShows(s.log, c, call.id);
    CountsAfter(s.log, Admitted(c, call.id), call.id);
  }

  lemma VerifyingShows(s: State, c: CallId, call: Call, work: Work)
    requires call.pc.Verifying? && Shows(s.challenges, s.log, c, call)
    ensures var o := Next(s, c, call, work); Shows(o.challenges, Logged(s.log, o.event), c, call.(pc := o.pc))
  {
    hide Uncompared, Unspent, ComparedOnce, AdmittedAs;
    if work.PoolRan? {
      ComparingShows(s.log, c, call.id, work.matches, call.pc.reserved.attempts);
    }
  }

  lemma SpendingShows(s: State, c: CallId, call: Call, work: Work)
    requires call.pc.Consuming? && Shows(s.challenges, s.log, c, call)
    ensures var o := Next(s, c, call, work); Shows(o.challenges, Logged(s.log, o.event), c, call.(pc := o.pc))
  {
    hide Unspent, ComparedOnce;
    ConsumingShows(s.log, c, call.id);
  }

  lemma ReadingShows(s: State, c: CallId, call: Call, work: Work)
    requires !call.pc.Reserving? && !call.pc.Verifying? && !call.pc.Consuming? && !call.pc.Compared?
    requires WellPlaced(s.challenges, call) && Shows(s.challenges, s.log, c, call)
    ensures var o := Next(s, c, call, work); Shows(o.challenges, Logged(s.log, o.event), c, call.(pc := o.pc))
  {
    hide Silent, Uncompared, Unspent, ComparedOnce, AdmittedAs;
  }

  lemma NextShows(s: State, c: CallId, call: Call, work: Work)
    requires WellPlaced(s.challenges, call) && ChallengeHolds(s.challenges, s.log, call.id)
    requires Shows(s.challenges, s.log, c, call)
    ensures var o := Next(s, c, call, work); Shows(o.challenges, Logged(s.log, o.event), c, call.(pc := o.pc))
  {
    hide Shows, WellPlaced, ChallengeHolds;
    if call.pc.Compared? {
      JudgingShows(s, c, call, work);
    } else if call.pc.Reserving? {
      ReservingShows(s, c, call, work);
    } else if call.pc.Verifying? {
      VerifyingShows(s, c, call, work);
    } else if call.pc.Consuming? {
      SpendingShows(s, c, call, work);
    } else {
      ReadingShows(s, c, call, work);
    }
  }

  /** Step `k` of a run, seen from call `c`. */
  lemma StepIsOwnOrNot(run: seq<State>, steps: seq<Step>, k: nat, c: CallId)
    requires IsRun(run, steps) && k + 1 < |run| && c in run[k + 1].calls
    ensures k < |steps|
    ensures if steps[k].Advance? && steps[k].call == c then
              && c in run[k].calls
              && var o := Next(run[k], c, run[k].calls[c], steps[k].work);
                 && run[k + 1].calls[c] == run[k].calls[c].(pc := o.pc)
                 && run[k + 1].challenges == o.challenges && run[k + 1].log == Logged(run[k].log, o.event)
            else
              && OthersAct(run[k].log, run[k + 1].log, c)
              && (c in run[k].calls ==>
                    run[k + 1].calls[c] == run[k].calls[c] || run[k + 1].calls[c].pc == Answered(Aborted))
              && (c !in run[k].calls ==> run[k + 1].calls[c].pc == Started)
  {
    assert Enabled(run[k], steps[k]) && run[k + 1] == Apply(run[k], steps[k]);
    if steps[k].Advance? {
      var d := steps[k].call;
      var e := Next(run[k], d, run[k].calls[d], steps[k].work).event;
      OwnEventsOnly(run[k], d, run[k].calls[d], steps[k].work);
      assert d != c ==> OthersLog(run[k].log, run[k + 1].log, e, c);
    } else {
      assert OthersLog(run[k].log, run[k + 1].log, None, c);
    }
  }

  predicate OthersLog(log: seq<Event>, longer: seq<Event>, e: Option<Event>, c: CallId) {
    longer == Logged(log, e) && (e.Some? ==> e.value.call != c)
  }

  ghost predicate OthersAct(log: seq<Event>, longer: seq<Event>, c: CallId) {
    exists e :: OthersLog(log, longer, e, c)
  }

  lemma OwnEventsOnly(s: State, c: CallId, call: Call, work: Work)
    ensures Next(s, c, call, work).event.Some? ==> Next(s, c, call, work).event.value.call == c
  {
  }

  lemma {:induction false} RunShows(run: seq<State>, steps: seq<Step>, k: nat, c: CallId)
    requires IsRun(run, steps) && k < |run| && c in run[k].calls
    ensures Shows(run[k].challenges, run[k].log, c, run[k].calls[c])
  {
    hide Next, Shows, Inv;
    if k > 0 {
      StepIsOwnOrNot(run, steps, k - 1, c);
      if c in run[k - 1].calls {
        RunShows(run, steps, k - 1, c);
        StepShows(run, steps, k - 1, c);
      } else {
        NewCallShows(run, steps, k - 1, c);
      }
    }
  }

  lemma NewCallShows(run: seq<State>, steps: seq<Step>, k: nat, c: CallId)
    requires IsRun(run, steps) && k + 1 < |run| && c !in run[k].calls && c in run[k + 1].calls
    ensures Shows(run[k + 1].challenges, run[k + 1].log, c, run[k + 1].calls[c])
  {
    RunHasCallers(run, steps, k);
    assert Enabled(run[k], steps[k]) && run[k + 1] == Apply(run[k], steps[k]);
  }

  lemma StepShows(run: seq<State>, steps: seq<Step>, k: nat, c: CallId)
    requires IsRun(run, steps) && k + 1 < |run| && c in run[k].calls && c in run[k + 1].calls
    requires Shows(run[k].challenges, run[k].log, c, run[k].calls[c])
    ensures Shows(run[k + 1].challenges, run[k + 1].log, c, run[k + 1].calls[c])
  {
    hide Next, IsRun, Evolves;
    StepIsOwnOrNot(run, steps, k, c);
    if steps[k].Advance? && steps[k].call == c {
      RunKeepsInv(run, steps, k);
      CallIsPlaced(run[k].challenges, run[k].calls, c);
      assert ChallengeHolds(run[k].challenges, run[k].log, run[k].calls[c].id);
      NextShows(run[k], c, run[k].calls[c], steps[k].work);
    } else if run[k + 1].calls[c] == run[k].calls[c] {
      NothingIsRefunded(run, steps, k, k + 1);
      var e: Option<Event> :| OthersLog(run[k].log, run[k + 1].log, e, c);
      ShowsStands(run[k].challenges, run[k + 1].challenges, run[k].log, e, c, run[k].calls[c]);
    }
  }

  /** Every answer tells the truth about the comparison. A wrong code was compared, and
      did not match; it is called invalid with attempts left, exhausted with none. A
      matching code leads to "verified", unless the challenge expired or another call
      consumed it first. Any other refusal comes before the call was admitted. */
  lemma AnswersFollowComparison(run: seq<State>, steps: seq<Step>, k: nat, c: CallId)
    requires IsRun(run, steps) && k < |run| && c in run[k].calls && run[k].calls[c].pc.Answered?
    ensures Tells(run[k].challenges, run[k].log, c, run[k].calls[c].id, run[k].calls[c].pc.answer)
    ensures forall n :: 0 <= n < |run[k].log| && run[k].log[n] == CodeCompared(c, run[k].calls[c].id, true) ==>
                          var answer := run[k].calls[c].pc.answer;
                          || answer.Verified? || answer.Aborted?
                          || (answer.Refused? && (answer.error.Expired? || answer.error.Replayed?))
    ensures forall n :: 0 <= n < |run[k].log| && run[k].log[n] == ConsumedBy(c, run[k].calls[c].id) ==>
                          var answer := run[k].calls[c].pc.answer;
                          answer.Verified? || answer.Aborted? || answer == Refused(Expired)
  {
    RunShows(run, steps, k, c);
    TruthOfMatch(run[k].challenges, run[k].log, c, run[k].calls[c].id, run[k].calls[c].pc.answer);
  }

  lemma TruthOfMatch(challenges: Challenges, log: seq<Event>, c: CallId, id: Id, answer: Answer)
    requires Tells(challenges, log, c, id, answer)
    ensures forall n :: 0 <= n < |log| && log[n] == CodeCompared(c, id, true) ==>
                          || answer.Verified? || answer.Aborted?
                          || (answer.Refused? && (answer.error.Expired? || answer.error.Replayed?))
    ensures forall n :: 0 <= n < |log| && log[n] == ConsumedBy(c, id) ==>
                          answer.Verified? || answer.Aborted? || answer == Refused(Expired)
  {
    forall n | 0 <= n < |log| && log[n] == CodeCompared(c, id, true)
      ensures || answer.Verified? || answer.Aborted?
              || (answer.Refused? && (answer.error.Expired? || answer.error.Replayed?))
    {
      assert Compares(log[n], c);
    }
    forall n | 0 <= n < |log| && log[n] == ConsumedBy(c, id)
      ensures answer.Verified? || answer.Aborted? || answer == Refused(Expired)
    {
      assert Consumes(log[n], c);
    }
  }

  // ----- The password pool --------------------------------------------------------------------

  /** In step `j` the pool gave call `c` this report, when the challenge was in time. */
  predicate PoolReports(run: seq<State>, steps: seq<Step>, j: nat, c: CallId, work: Work) {
    && j < |run| && j < |steps| && steps[j] == Advance(c, work) && c in run[j].calls && run[j].calls[c].pc.Verifying?
    && (work.PoolRan? ==> !run[j].calls[c].pc.reserved.ExpiredAt(run[j].clock))
  }

  lemma OnlyThePoolCompares(s: State, c: CallId, call: Call, work: Work)
    ensures var e := Next(s, c, call, work).event;
            e.Some? && e.value.CodeCompared? ==>
              call.pc.Verifying? && work == PoolRan(e.value.matches) && !call.pc.reserved.ExpiredAt(s.clock)
  {
  }

  /** What the history says of a comparison is what the pool reported, in a step of the
      call that was taken before the challenge expired. */
  lemma {:induction false} ComparisonsAreThePools(run: seq<State>, steps: seq<Step>, k: nat, n: nat)
    requires IsRun(run, steps) && k < |run| && n < |run[k].log| && run[k].log[n].CodeCompared?
    ensures exists j: nat :: j < k && PoolReports(run, steps, j, run[k].log[n].call, PoolRan(run[k].log[n].matches))
  {
    hide Next;
    if k > 0 {
      assert Enabled(run[k - 1], steps[k - 1]) && run[k] == Apply(run[k - 1], steps[k - 1]);
      if n < |run[k - 1].log| {
        ComparisonsAreThePools(run, steps, k - 1, n);
      } else {
        var c := steps[k - 1].call;
        OwnEventsOnly(run[k - 1], c, run[k - 1].calls[c], steps[k - 1].work);
        OnlyThePoolCompares(run[k - 1], c, run[k - 1].calls[c], steps[k - 1].work);
        assert PoolReports(run, steps, k - 1, c, PoolRan(run[k].log[n].matches));
      }
    }
  }

  /** The pool's report that it could not run, on its way to the answer. */
  predicate RestsOnNoWork(pc: Pc) {
    (pc.Compared? && pc.comparison.NotRun?) || pc == Answered(ServiceUnavailable)
  }

  lemma OnlyNoWorkIsUnavailable(s: State, c: CallId, call: Call, work: Work)
    requires WellPlaced(s.challenges, call) && !RestsOnNoWork(call.pc) && RestsOnNoWork(Next(s, c, call, work).pc)
    ensures call.pc.Verifying? && work == PoolUnavailable
  {
  }

  /** "Unavailable" is answered only if the pool did not run for this call; the check of
      the reserved record never is the reason. */
  lemma {:induction false} UnavailableMeansNoWork(run: seq<State>, steps: seq<Step>, k: nat, c: CallId)
    requires IsRun(run, steps) && k < |run| && c in run[k].calls && RestsOnNoWork(run[k].calls[c].pc)
    ensures exists j: nat :: j < k && PoolReports(run, steps, j, c, PoolUnavailable)
  {
    hide Next;
    if k > 0 {
      CallMoves(run, steps, k - 1, c);
      if c in run[k - 1].calls && RestsOnNoWork(run[k - 1].calls[c].pc) {
        UnavailableMeansNoWork(run, steps, k - 1, c);
      } else {
        RunKeepsInv(run, steps, k - 1);
        CallIsPlaced(run[k - 1].challenges, run[k - 1].calls, c);
        OnlyNoWorkIsUnavailable(run[k - 1], c, run[k - 1].calls[c], steps[k - 1].work);
        assert PoolReports(run, steps, k - 1, c, PoolUnavailable);
      }
    }
  }
}
