/** What the verdict of a guard, or a denial, says about the store. */
module RateLimitGuard {
  import opened Common
  import opened RateLimitPolicy
  import opened RateLimitMemoryStore
  import opened RateLimitProtocol

  predicate Locks(found: Option<Snapshot>, now: Time) {
    && found.Some? && found.value.state.expiresAt > now
    && found.value.state.lockedUntil.Some? && found.value.state.lockedUntil.value > now
  }

  /** In force only where no lockout is. */
  predicate Throttles(found: Option<Snapshot>, now: Time) {
    && found.Some? && found.value.state.expiresAt > now && !Locks(found, now)
    && found.value.state.backoffUntil.Some? && found.value.state.backoffUntil.value > now
  }

  /** What was found holds nothing off, or for no longer than is reported. */
  predicate Reported(found: Option<Snapshot>, now: Time, locked: Option<Time>, backoff: Option<Time>) {
    && (Locks(found, now) ==> locked.Some? && found.value.state.lockedUntil.value <= locked.value)
    && (Throttles(found, now) ==> backoff.Some? && found.value.state.backoffUntil.value <= backoff.value)
  }

  // ----- A guard's own readings ---------------------------------------------------------------

  /** Guarding of `keys` by call `c` for the clock value `now`, in a run. */
  datatype Visit = Visit(run: seq<State>, steps: seq<Step>, c: CallId, keys: seq<Key>, now: Time)

  /** Step `j`, before moment `k`, is the one in which this guard reads its `n`-th key. */
  predicate ReadsKey(v: Visit, k: nat, n: nat, j: nat) {
    && j < k <= |v.run| && j < |v.steps| && n < |v.keys|
    && v.steps[j].Advance? && v.steps[j].call == v.c && v.c in v.run[j].calls
    && var call := v.run[j].calls[v.c];
       call.Guarding? && call.keys == v.keys && call.now == v.now && call.i == n
  }

  /** What that step finds stored. */
  function Found(v: Visit, n: nat, j: nat): Option<Snapshot>
    requires n < |v.keys| && j < |v.run|
  {
    Lookup(v.run[j].entries, v.keys[n])
  }

  /** The guard read its `n`-th key, found the observed version, and accounts for it. */
  ghost predicate Accounted(v: Visit, k: nat, n: nat, o: Observation, locked: Option<Time>, backoff: Option<Time>) {
    exists j: nat :: ReadsKey(v, k, n, j)
                && o == Observation(v.keys[n], RevisionOf(Found(v, n, j)), |v.run[j].log|)
                && Reported(Found(v, n, j), v.now, locked, backoff)
  }

  /** The lockout until `until` is one that the guard read. */
  ghost predicate LockSeen(v: Visit, k: nat, i: nat, until: Time) {
    exists j: nat, n: nat :: n < i && ReadsKey(v, k, n, j)
                        && Locks(Found(v, n, j), v.now) && Found(v, n, j).value.state.lockedUntil == Some(until)
  }

  ghost predicate BackoffSeen(v: Visit, k: nat, i: nat, until: Time) {
    exists j: nat, n: nat :: n < i && ReadsKey(v, k, n, j)
                        && Throttles(Found(v, n, j), v.now) && Found(v, n, j).value.state.backoffUntil == Some(until)
  }

  /** The report on the first `|permit|` keys, from the guard's own readings of each of
      them: the versions found, the latest lockout and the latest backoff. */
  ghost predicate Reports(v: Visit, k: nat, permit: seq<Observation>, locked: Option<Time>, backoff: Option<Time>) {
    && |permit| <= |v.keys|
    && (forall n :: 0 <= n < |permit| ==> Accounted(v, k, n, permit[n], locked, backoff))
    && (locked.Some? ==> LockSeen(v, k, |permit|, locked.value))
    && (backoff.Some? ==> BackoffSeen(v, k, |permit|, backoff.value))
  }

  lemma LaterReadsKey(v: Visit, k: nat, n: nat, j: nat)
    requires ReadsKey(v, k, n, j) && k + 1 <= |v.run|
    ensures ReadsKey(v, k + 1, n, j)
  {
  }

  lemma LaterSeesLock(v: Visit, k: nat, i: nat, more: nat, until: Time)
    requires k + 1 <= |v.run| && i <= more && LockSeen(v, k, i, until)
    ensures LockSeen(v, k + 1, more, until)
  {
    var j: nat, n: nat :| n < i && ReadsKey(v, k, n, j)
                          && Locks(Found(v, n, j), v.now) && Found(v, n, j).value.state.lockedUntil == Some(until);
    LaterReadsKey(v, k, n, j);
  }

  lemma LaterSeesBackoff(v: Visit, k: nat, i: nat, more: nat, until: Time)
    requires k + 1 <= |v.run| && i <= more && BackoffSeen(v, k, i, until)
    ensures BackoffSeen(v, k + 1, more, until)
  {
    var j: nat, n: nat :| n < i && ReadsKey(v, k, n, j)
                          && Throttles(Found(v, n, j), v.now) && Found(v, n, j).value.state.backoffUntil == Some(until);
    LaterReadsKey(v, k, n, j);
  }

  /** No earlier than `earlier`, which may be nothing. */
  predicate NoEarlier(earlier: Option<Time>, later: Option<Time>) {
    earlier.Some? ==> later.Some? && earlier.value <= later.value
  }

  lemma LaterAccounts(v: Visit, k: nat, n: nat, o: Observation, locked: Option<Time>, backoff: Option<Time>,
                      locked': Option<Time>, backoff': Option<Time>)
    requires k + 1 <= |v.run| && Accounted(v, k, n, o, locked, backoff)
    requires NoEarlier(locked, locked') && NoEarlier(backoff, backoff')
    ensures Accounted(v, k + 1, n, o, locked', backoff')
  {
    var j: nat :| ReadsKey(v, k, n, j)
                  && o == Observation(v.keys[n], RevisionOf(Found(v, n, j)), |v.run[j].log|)
                  && Reported(Found(v, n, j), v.now, locked, backoff);
    LaterReadsKey(v, k, n, j);
  }

  lemma LaterStillReports(v: Visit, k: nat, permit: seq<Observation>, locked: Option<Time>, backoff: Option<Time>)
    requires k + 1 <= |v.run| && Reports(v, k, permit, locked, backoff)
    ensures Reports(v, k + 1, permit, locked, backoff)
  {
    forall n | 0 <= n < |permit|
      ensures Accounted(v, k + 1, n, permit[n], locked, backoff)
    {
      LaterAccounts(v, k, n, permit[n], locked, backoff, locked, backoff);
    }
    if locked.Some? {
      LaterSeesLock(v, k, |permit|, |permit|, locked.value);
    }
    if backoff.Some? {
      LaterSeesBackoff(v, k, |permit|, |permit|, backoff.value);
    }
  }

  /** One more key, read in step `k`. */
  lemma OneMoreKey(v: Visit, k: nat, permit: seq<Observation>, locked: Option<Time>, backoff: Option<Time>,
                   locked': Option<Time>, backoff': Option<Time>)
    requires Reports(v, k, permit, locked, backoff) && ReadsKey(v, k + 1, |permit|, k)
    requires NoEarlier(locked, locked') && NoEarlier(backoff, backoff')
    requires Reported(Found(v, |permit|, k), v.now, locked', backoff')
    requires locked' == locked ||
             (Locks(Found(v, |permit|, k), v.now) && locked' == Found(v, |permit|, k).value.state.lockedUntil)
    requires backoff' == backoff ||
             (Throttles(Found(v, |permit|, k), v.now) && backoff' == Found(v, |permit|, k).value.state.backoffUntil)
    ensures var o := Observation(v.keys[|permit|], RevisionOf(Found(v, |permit|, k)), |v.run[k].log|);
            Reports(v, k + 1, permit + [o], locked', backoff')
  {
    var i, o := |permit|, Observation(v.keys[|permit|], RevisionOf(Found(v, |permit|, k)), |v.run[k].log|);
    var more := permit + [o];
    forall n | 0 <= n < |more|
      ensures Accounted(v, k + 1, n, more[n], locked', backoff')
    {
      if n < i {
        assert more[n] == permit[n];
        LaterAccounts(v, k, n, permit[n], locked, backoff, locked', backoff');
      }
    }
    if locked'.Some? && locked' == locked {
      LaterSeesLock(v, k, i, i + 1, locked.value);
    }
    if backoff'.Some? && backoff' == backoff {
      LaterSeesBackoff(v, k, i, i + 1, backoff.value);
    }
  }

  // ----- Verdicts -------------------------------------------------------------------------------

  /** The call began guarding these keys when the clock read this instant. */
  ghost predicate Began(v: Visit, k: nat) {
    exists j: nat :: j < k && j < |v.run| && j < |v.steps| && v.steps[j] == BeginGuarding(v.c, v.keys) && v.run[j].clock == v.now
  }

  /** A report on all the keys. */
  ghost predicate ReportsAll(v: Visit, k: nat, permit: seq<Observation>, locked: Option<Time>, backoff: Option<Time>) {
    |permit| == |v.keys| && Reports(v, k, permit, locked, backoff)
  }

  /** What a call's position in guarding, or its verdict, reports. */
  ghost predicate Justified(v: Visit, k: nat, call: Call) {
    && Began(v, k)
    && match call
       case Guarding(keys, i, now, permit, locked, backoff) =>
         keys == v.keys && now == v.now && |permit| == i && Reports(v, k, permit, locked, backoff)
       case Permitted(permit) => ReportsAll(v, k, permit, None, None)
       case Answered(Locked(until)) => exists permit, backoff :: ReportsAll(v, k, permit, Some(until), backoff)
       case Answered(Throttled(until)) => exists permit :: ReportsAll(v, k, permit, None, Some(until))
       case _ => true
  }

  ghost predicate IsJustified(run: seq<State>, steps: seq<Step>, k: nat, c: CallId, call: Call) {
    exists keys, now :: Justified(Visit(run, steps, c, keys, now), k, call)
  }

  predicate HasVerdict(call: Call) {
    call.Guarding? || call.Permitted? || (call.Answered? && (call.answer.Locked? || call.answer.Throttled?))
  }

  lemma LaterStillBegan(v: Visit, k: nat)
    requires Began(v, k)
    ensures Began(v, k + 1)
  {
  }

  lemma LaterStillJustified(v: Visit, k: nat, call: Call)
    requires k + 1 <= |v.run| && HasVerdict(call) && Justified(v, k, call)
    ensures Justified(v, k + 1, call)
  {
    LaterStillBegan(v, k);
    match call
    case Guarding(_, _, _, permit, locked, backoff) => LaterStillReports(v, k, permit, locked, backoff);
    case Permitted(permit) => LaterStillReports(v, k, permit, None, None);
    case Answered(Locked(until)) =>
      var permit, backoff :| ReportsAll(v, k, permit, Some(until), backoff);
      LaterStillReports(v, k, permit, Some(until), backoff);
      assert ReportsAll(v, k + 1, permit, Some(until), backoff);
    case Answered(Throttled(until)) =>
      var permit :| ReportsAll(v, k, permit, None, Some(until));
      LaterStillReports(v, k, permit, None, Some(until));
      assert ReportsAll(v, k + 1, permit, None, Some(until));
  }

  /** One step of a guarding call. */
  lemma GuardStepJustifies(v: Visit, k: nat)
    requires k + 1 <= |v.run| && k < |v.steps| && v.steps[k].Advance? && v.steps[k].call == v.c
    requires v.c in v.run[k].calls && v.run[k].calls[v.c].Guarding? && Justified(v, k, v.run[k].calls[v.c])
    ensures Justified(v, k + 1, Guard(v.run[k], v.run[k].calls[v.c]).call)
  {
    hide Began, Reports;
    LaterStillBegan(v, k);
    var call := v.run[k].calls[v.c];
    var next := Guard(v.run[k], call).call;
    if call.i < |v.keys| {
      OneMoreKey(v, k, call.permit, call.locked, call.backoff, next.locked, next.backoff);
    } else {
      LaterStillReports(v, k, call.permit, call.locked, call.backoff);
      ReportIsShort(v, k, call.permit, call.locked, call.backoff);
      assert ReportsAll(v, k + 1, call.permit, call.locked, call.backoff);
    }
  }

  lemma ReportIsShort(v: Visit, k: nat, permit: seq<Observation>, locked: Option<Time>, backoff: Option<Time>)
    requires Reports(v, k, permit, locked, backoff)
    ensures |permit| <= |v.keys|
  {
  }

  /** How a call comes to have a verdict, or to be on the way to one. */
  lemma VerdictMoves(cfg: Config, run: seq<State>, steps: seq<Step>, k: nat, c: CallId)
    requires IsRun(cfg, run, steps) && k + 1 < |run| && c in run[k + 1].calls && HasVerdict(run[k + 1].calls[c])
    ensures || (c in run[k].calls && run[k + 1].calls[c] == run[k].calls[c])
            || (c in run[k].calls && run[k].calls[c].Guarding? && steps[k].Advance? && steps[k].call == c
                && run[k + 1].calls[c] == Guard(run[k], run[k].calls[c]).call)
            || (steps[k].BeginGuarding? && steps[k].call == c
                && run[k + 1].calls[c] == Guarding(steps[k].keys, 0, run[k].clock, [], None, None))
  {
    assert Enabled(cfg, run[k], steps[k]) && run[k + 1] == Apply(cfg, run[k], steps[k]);
  }

  lemma BeginningIsJustified(run: seq<State>, steps: seq<Step>, k: nat, c: CallId, keys: seq<Key>, now: Time)
    requires k < |run| && k < |steps| && steps[k] == BeginGuarding(c, keys) && run[k].clock == now
    ensures IsJustified(run, steps, k + 1, c, Guarding(keys, 0, now, [], None, None))
  {
    var v := Visit(run, steps, c, keys, now);
    assert Began(v, k + 1);
    assert Justified(v, k + 1, Guarding(keys, 0, now, [], None, None));
  }

  /** Every verdict of a guard is justified by its own readings, one step for each key:
      a permit lists the versions read, and each key held nothing off as it was read; a
      refusal names the latest lockout, or failing any lockout the latest backoff, among
      the keys as they were read. */
  lemma {:induction false} VerdictIsJustified(cfg: Config, run: seq<State>, steps: seq<Step>, k: nat, c: CallId)
    requires IsRun(cfg, run, steps) && k < |run| && c in run[k].calls && HasVerdict(run[k].calls[c])
    ensures IsJustified(run, steps, k, c, run[k].calls[c])
  {
    if k > 0 {
      VerdictMoves(cfg, run, steps, k - 1, c);
      if steps[k - 1].BeginGuarding? && steps[k - 1].call == c {
        NewCallBegins(cfg, run, steps, k - 1, c);
        BeginningIsJustified(run, steps, k - 1, c, steps[k - 1].keys, run[k - 1].clock);
      } else {
        VerdictIsJustified(cfg, run, steps, k - 1, c);
        var keys, now :| Justified(Visit(run, steps, c, keys, now), k - 1, run[k - 1].calls[c]);
        var v := Visit(run, steps, c, keys, now);
        if run[k].calls[c] == run[k - 1].calls[c] {
          LaterStillJustified(v, k - 1, run[k].calls[c]);
        } else {
          GuardStepJustifies(v, k - 1);
        }
        assert Justified(v, k, run[k].calls[c]);
      }
    }
  }

  lemma NewCallBegins(cfg: Config, run: seq<State>, steps: seq<Step>, k: nat, c: CallId)
    requires IsRun(cfg, run, steps) && k + 1 < |run| && steps[k].BeginGuarding? && steps[k].call == c
    ensures c !in run[k].calls
  {
    assert Enabled(cfg, run[k], steps[k]);
  }

  // ----- Denials ------------------------------------------------------------------------------

  /** In this step the call read the key it stands at, and it was held off. */
  ghost predicate SeesHold(s: State, step: Step, c: CallId) {
    && step.Advance? && step.call == c && c in s.calls && s.calls[c].Reading?
    && var call := s.calls[c];
       && call.enforce && call.i < |call.keys|
       && call.keys[call.i] in s.entries && Active(s.entries[call.keys[call.i]].state, call.now)
  }

  lemma DenialMoves(cfg: Config, run: seq<State>, steps: seq<Step>, k: nat, c: CallId)
    requires IsRun(cfg, run, steps) && k + 1 < |run| && c in run[k + 1].calls && run[k + 1].calls[c] == Answered(Denied)
    ensures (c in run[k].calls && run[k].calls[c] == Answered(Denied)) || SeesHold(run[k], steps[k], c)
  {
    assert Enabled(cfg, run[k], steps[k]) && run[k + 1] == Apply(cfg, run[k], steps[k]);
  }

  /** A request is denied only if it read one of its keys as locked or backing off. */
  lemma {:induction false} DenialIsJustified(cfg: Config, run: seq<State>, steps: seq<Step>, k: nat, c: CallId)
    requires IsRun(cfg, run, steps) && k < |run| && c in run[k].calls && run[k].calls[c] == Answered(Denied)
    ensures exists j: nat :: j < k && SeesHold(run[j], steps[j], c)
  {
    if k > 0 {
      DenialMoves(cfg, run, steps, k - 1, c);
      if c in run[k - 1].calls && run[k - 1].calls[c] == Answered(Denied) {
        DenialIsJustified(cfg, run, steps, k - 1, c);
      }
    }
  }
}
