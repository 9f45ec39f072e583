/** What abuse protection guarantees over whole runs, whatever the interleaving of
    recorders, guards, clears and reclamation. */
module RateLimitTheorems {
  import opened Common
  import opened RateLimitPolicy
  import opened RateLimitMemoryStore
  import opened RateLimitProtocol
  import opened RateLimitInvariants

  // ----- No increment is lost --------------------------------------------------------

  function StampAt(log: seq<Event>, n: nat): Time {
    if n < |log| && log[n].Committed? then log[n].stamp else 0
  }

  function StampsOf(log: seq<Event>, attempts: seq<nat>): seq<Time> {
    seq(|attempts|, j requires 0 <= j < |attempts| => StampAt(log, attempts[j]))
  }

  /** Where the window of the last of these attempts starts: a window lasts from its first
      attempt until an attempt that comes at its end or later, which starts the next. */
  function WindowStart(window: Duration, stamps: seq<Time>): (start: nat)
    requires stamps != []
    ensures start < |stamps|
  {
    if |stamps| == 1 then 0
    else
      var last := |stamps| - 1;
      var start := WindowStart(window, stamps[..last]);
      if stamps[last] < stamps[start] + window then start else last
  }

  /** Every later attempt of a window is stamped before its end; and a window that is not
      the first starts at or past the end of the window before it. */
  lemma {:induction false} WindowStartHolds(window: Duration, stamps: seq<Time>)
    requires stamps != [] && window > 0
    ensures var start := WindowStart(window, stamps);
            && (forall j :: start <= j < |stamps| ==> stamps[j] < stamps[start] + window)
            && (start > 0 ==> stamps[WindowStart(window, stamps[..start])] + window <= stamps[start])
  {
    var start, last := WindowStart(window, stamps), |stamps| - 1;
    if |stamps| > 1 {
      WindowStartHolds(window, stamps[..last]);
      if start < last {
        assert stamps[..last][..start] == stamps[..start];
      }
    }
  }

  /** `state` counts every attempt from position `first` on, and none before; there its
      window starts, and there it has not yet been forgotten. */
  ghost predicate CountsFrom(window: Duration, log: seq<Event>, attempts: seq<nat>, state: RateState, first: nat) {
    && first < |attempts| && first == WindowStart(window, StampsOf(log, attempts))
    && state.firstAttemptAt + window <= state.expiresAt
    && (forall j :: 0 <= j < |attempts| ==> attempts[j] < |log| && log[attempts[j]].Committed?)
    && state.attempts == Min(|attempts| - first, U32_MAX)
    && state.firstAttemptAt == log[attempts[first]].stamp
    && state.lastAttemptAt == log[attempts[|attempts| - 1]].stamp
  }

  /** One more attempt is counted in the window, or opens the next. */
  lemma CountsOneMore(p: Policy, log: seq<Event>, attempts: seq<nat>, before: RateState, state: RateState, first: nat)
    requires attempts != [] && CountsFrom(p.window, log, attempts[..|attempts| - 1], before, first)
    requires attempts[|attempts| - 1] < |log| && log[attempts[|attempts| - 1]].Committed?
    requires state.lastAttemptAt == log[attempts[|attempts| - 1]].stamp
    requires state.firstAttemptAt + p.window <= state.expiresAt
    requires if InWindow(Some(before), p, state.lastAttemptAt)
             then state.attempts == Min(before.attempts + 1, U32_MAX) && state.firstAttemptAt == before.firstAttemptAt
             else state.attempts == 1 && state.firstAttemptAt == state.lastAttemptAt
    ensures exists start: nat :: CountsFrom(p.window, log, attempts, state, start)
  {
    var init := attempts[..|attempts| - 1];
    assert StampsOf(log, attempts)[..|init|] == StampsOf(log, init);
    assert CountsFrom(p.window, log, attempts, state, if InWindow(Some(before), p, state.lastAttemptAt) then first else |init|);
  }

  lemma {:induction false} FoldCounts(p: Policy, key: Key, log: seq<Event>, attempts: seq<nat>)
    requires ValidPolicy(p) && attempts != []
    requires forall j :: 0 <= j < |attempts| ==> CommitsAt(log, attempts[j], key)
    requires Folded(p, key, log, attempts).Success?
    ensures Folded(p, key, log, attempts).value.Some?
    ensures exists first: nat :: CountsFrom(p.window, log, attempts, Folded(p, key, log, attempts).value.value, first)
  {
    hide NextState, CountsFrom;
    var n, init := attempts[|attempts| - 1], attempts[..|attempts| - 1];
    assert CommitsAt(log, n, key);
    var before := Folded(p, key, log, init).value;
    var state := NextState(key, before, p, log[n].stamp).value;
    NextStateHolds(key, before, p, log[n].stamp);
    if init == [] {
      FirstCount(p, log, n, state);
      assert attempts == [n];
    } else {
      FoldCounts(p, key, log, init);
      var first: nat :| CountsFrom(p.window, log, init, before.value, first);
      CountsOneMore(p, log, attempts, before.value, state, first);
    }
  }

  lemma FirstCount(p: Policy, log: seq<Event>, n: nat, state: RateState)
    requires n < |log| && log[n].Committed? && state.attempts == 1
    requires state.firstAttemptAt == state.lastAttemptAt == log[n].stamp
    requires state.firstAttemptAt + p.window <= state.expiresAt
    ensures CountsFrom(p.window, log, [n], state, 0)
  {
  }

  /** In every reachable state, each stored counter is the transition function folded
      over all attempts committed since its entry came into being, in commit order;
      it counts each of them back to the start of its window, which is determined by
      their stamps alone. */
  lemma NoIncrementIsLost(cfg: Config, run: seq<State>, steps: seq<Step>, k: nat, key: Key)
    requires IsRun(cfg, run, steps) && ValidConfig(cfg) && k < |run|
    ensures Mirrors(cfg, run[k].entries, run[k].log, key)
    ensures key in run[k].entries ==>
              exists first ::
                CountsFrom(PolicyOf(cfg, key).window, run[k].log, Attempts(run[k].log, key), run[k].entries[key].state, first)
  {
    RunKeepsInv(cfg, run, steps, k);
    assert Mirrors(cfg, run[k].entries, run[k].log, key);
    if key in run[k].entries {
      AttemptsAreCommits(run[k].log, key);
      FoldCounts(PolicyOf(cfg, key), key, run[k].log, Attempts(run[k].log, key));
    }
  }

  // ----- A retry means interference ---------------------------------------------------

  /** Steps of other calls, and of the environment, leave a call where it was. */
  lemma CallMoves(cfg: Config, run: seq<State>, steps: seq<Step>, k: nat, c: CallId)
    requires IsRun(cfg, run, steps) && k + 1 < |run| && c in run[k + 1].calls
    requires run[k + 1].calls[c].Swapping?
    ensures c in run[k].calls
    ensures run[k + 1].calls[c] == run[k].calls[c] || ReadsAt(run, steps, k, c, run[k + 1].calls[c])
  {
    assert Enabled(cfg, run[k], steps[k]) && run[k + 1] == Apply(cfg, run[k], steps[k]);
  }

  /** Step `j` is the one in which call `c`, in this very try, read the entry that it is
      now about to replace. */
  predicate ReadsAt(run: seq<State>, steps: seq<Step>, j: nat, c: CallId, swap: Call)
    requires swap.Swapping?
  {
    && j < |run| && j < |steps| && steps[j].Advance? && steps[j].call == c && c in run[j].calls
    && run[j].calls[c] == Reading(swap.keys, swap.i, swap.now, swap.enforce, swap.tries) && swap.i < |swap.keys|
    && Lookup(run[j].entries, swap.keys[swap.i]) == swap.seen && |run[j].log| == swap.mark
  }

  lemma {:induction false} SwapRemembersRead(cfg: Config, run: seq<State>, steps: seq<Step>, k: nat, c: CallId)
    requires IsRun(cfg, run, steps) && k < |run| && c in run[k].calls && run[k].calls[c].Swapping?
    ensures exists j: nat :: j < k && ReadsAt(run, steps, j, c, run[k].calls[c])
  {
    if k > 0 {
      CallMoves(cfg, run, steps, k - 1, c);
      if run[k - 1].calls[c] == run[k].calls[c] {
        SwapRemembersRead(cfg, run, steps, k - 1, c);
      } else {
        assert ReadsAt(run, steps, k - 1, c, run[k].calls[c]);
      }
    }
  }

  ghost predicate TouchedBetween(log: seq<Event>, from: nat, key: Key) {
    exists n :: from <= n < |log| && Touches(log[n], key)
  }

  /** A compare-and-swap fails only if, after the step in which this try read the entry,
      another commit, a clear or a reclamation of the same key took effect. */
  lemma RetryMeansInterference(cfg: Config, run: seq<State>, steps: seq<Step>, k: nat, c: CallId)
    requires IsRun(cfg, run, steps) && k < |run| && c in run[k].calls && run[k].calls[c].Swapping?
    requires Swap(run[k], c, run[k].calls[c]).event.None?
    ensures var call := run[k].calls[c];
            && call.i < |call.keys|
            && exists j: nat :: j < k && ReadsAt(run, steps, j, c, call)
                           && TouchedBetween(run[k].log, |run[j].log|, call.keys[call.i])
  {
    RunKeepsInv(cfg, run, steps, k);
    var call := run[k].calls[c];
    assert WellPlaced(cfg, run[k].entries, run[k].log, call);
    assert !UntouchedSince(run[k].log, call.mark, call.keys[call.i]);
    SwapRemembersRead(cfg, run, steps, k, c);
    var j: nat :| j < k && ReadsAt(run, steps, j, c, call);
    assert TouchedBetween(run[k].log, |run[j].log|, call.keys[call.i]);
  }

  // ----- A clear spares later failures --------------------------------------------------

  /** A clear erases an entry only if every attempt folded into it was committed
      before the permit's guard read that entry -- even if the entry had been
      cleared, expired and re-created in between. */
  lemma ClearSparesLaterFailures(cfg: Config, s: State, c: CallId)
    requires Inv(cfg, s) && c in s.calls && s.calls[c].Clearing?
    requires ClearOne(s, s.calls[c]).event.Some?
    ensures var o := s.calls[c].permit[s.calls[c].i];
            && o.key in s.entries && Attempts(s.log, o.key) != []
            && forall j :: 0 <= j < |Attempts(s.log, o.key)| ==> Attempts(s.log, o.key)[j] < o.mark
  {
    var o := s.calls[c].permit[s.calls[c].i];
    assert WellPlaced(cfg, s.entries, s.log, s.calls[c]);
    assert ObservedBefore(s.log, o) && Mirrors(cfg, s.entries, s.log, o.key);
    LatestAttemptIsObserved(cfg, s.entries, s.log, o);
    AttemptsAreCommits(s.log, o.key);
  }

  lemma LatestAttemptIsObserved(cfg: Config, entries: Entries, log: seq<Event>, o: Observation)
    requires Mirrors(cfg, entries, log, o.key) && RevisionsDiffer(log)
    requires o.revision.Some? && WasCommitted(log, o.key, o.revision.value, o.mark)
    requires Revision(entries, o.key) == o.revision
    ensures var attempts := Attempts(log, o.key); attempts != [] && attempts[|attempts| - 1] < o.mark
  {
    var attempts := Attempts(log, o.key);
    var m := attempts[|attempts| - 1];
    var n :| 0 <= n < o.mark && CommitsAt(log, n, o.key) && log[n].snapshot.revision == o.revision.value;
    assert CommitsAt(log, m, o.key) && log[m].snapshot == entries[o.key];
    assert log[n].snapshot.revision == log[m].snapshot.revision;
  }

  function PermitOf(c: Call): seq<Observation> {
    match c
    case Guarding(_, _, _, permit, _, _) => permit
    case Permitted(permit) => permit
    case Clearing(permit, _) => permit
    case _ => []
  }

  /** At moment `j`, when the log was `mark` long, the guard of call `c` stood at `key`
      and its step was to read it. */
  predicate GuardsAt(run: seq<State>, steps: seq<Step>, j: nat, c: CallId, key: Key, mark: nat) {
    && j < |run| && j < |steps| && c in run[j].calls && run[j].calls[c].Guarding?
    && run[j].calls[c].i < |run[j].calls[c].keys| && run[j].calls[c].keys[run[j].calls[c].i] == key
    && steps[j].Advance? && steps[j].call == c && |run[j].log| == mark
  }

  lemma PermitGrowsByReading(cfg: Config, run: seq<State>, steps: seq<Step>, k: nat, c: CallId, o: Observation)
    requires IsRun(cfg, run, steps) && k + 1 < |run| && c in run[k + 1].calls
    requires o in PermitOf(run[k + 1].calls[c])
    ensures c in run[k].calls
    ensures o in PermitOf(run[k].calls[c]) || GuardsAt(run, steps, k, c, o.key, o.mark)
  {
    assert Enabled(cfg, run[k], steps[k]) && run[k + 1] == Apply(cfg, run[k], steps[k]);
  }

  /** The mark of an observation is the moment at which this call's guard made it. */
  lemma {:induction false} PermitRemembersReads(
    cfg: Config, run: seq<State>, steps: seq<Step>, k: nat, c: CallId, o: Observation)
    requires IsRun(cfg, run, steps) && k < |run| && c in run[k].calls && o in PermitOf(run[k].calls[c])
    ensures exists j: nat :: j < k && GuardsAt(run, steps, j, c, o.key, o.mark)
  {
    if k > 0 {
      PermitGrowsByReading(cfg, run, steps, k - 1, c, o);
      if o in PermitOf(run[k - 1].calls[c]) {
        PermitRemembersReads(cfg, run, steps, k - 1, c, o);
      } else {
        assert GuardsAt(run, steps, k - 1, c, o.key, o.mark);
      }
    }
  }

  /** Over a whole run: what a successful login clears was there when its guard read
      this very key. */
  lemma LoginClearsOnlyWhatItSaw(cfg: Config, run: seq<State>, steps: seq<Step>, k: nat, c: CallId)
    requires IsRun(cfg, run, steps) && k < |run| && c in run[k].calls && run[k].calls[c].Clearing?
    requires ClearOne(run[k], run[k].calls[c]).event.Some?
    ensures var key := run[k].calls[c].permit[run[k].calls[c].i].key;
            exists j: nat :: j < k && GuardsAt(run, steps, j, c, key, |run[j].log|)
                        && forall a :: a in Attempts(run[k].log, key) ==> a < |run[j].log|
  {
    RunKeepsInv(cfg, run, steps, k);
    ClearSparesLaterFailures(cfg, run[k], c);
    var o := run[k].calls[c].permit[run[k].calls[c].i];
    assert o in PermitOf(run[k].calls[c]);
    PermitRemembersReads(cfg, run, steps, k, c, o);
    var j: nat :| j < k && GuardsAt(run, steps, j, c, o.key, o.mark);
    assert GuardsAt(run, steps, j, c, o.key, |run[j].log|);
  }

  // ----- Spacing of admissions -----------------------------------------------------------

  predicate AdmitsAt(log: seq<Event>, n: nat, key: Key) {
    CommitsAt(log, n, key) && IsRequestFlow(key.flow)
  }

  /** Commits carry honest times, and hold attempts off for the delay of their count. */
  ghost predicate Stamped(cfg: Config, s: State) {
    forall n :: 0 <= n < |s.log| && s.log[n].Committed? ==>
      && s.log[n].stamp <= s.log[n].committedAt <= s.clock
      && HeldUntil(s.log[n].snapshot.state) ==
         s.log[n].stamp + Delay(PolicyOf(cfg, s.log[n].key), s.log[n].snapshot.state.attempts)
      && s.log[n].stamp <= HeldUntil(s.log[n].snapshot.state) <= s.log[n].snapshot.state.expiresAt
  }

  ghost predicate CallsTimed(s: State) {
    forall c :: c in s.calls && (s.calls[c].Reading? || s.calls[c].Swapping?) ==> s.calls[c].now <= s.clock
  }

  /** An admission is over, or it is the version that is stored. */
  ghost predicate Settled(s: State) {
    forall n: nat, key :: AdmitsAt(s.log, n, key) ==>
      || HeldUntil(s.log[n].snapshot.state) <= s.clock
      || Lookup(s.entries, key) == Some(s.log[n].snapshot)
  }

  /** No admission commits before every earlier one of its key is over. */
  ghost predicate Spaced(log: seq<Event>) {
    forall n: nat, m: nat, key :: n < m && AdmitsAt(log, n, key) && AdmitsAt(log, m, key) ==>
      HeldUntil(log[n].snapshot.state) <= log[m].committedAt
  }

  ghost predicate Timely(cfg: Config, s: State) {
    Stamped(cfg, s) && CallsTimed(s) && Settled(s) && Spaced(s.log)
  }

  /** What an event must satisfy to keep admissions apart. */
  ghost predicate Orderly(cfg: Config, s: State, e: Event) {
    match e
    case Committed(_, key, snapshot, stamp, committedAt) =>
      && stamp <= committedAt == s.clock
      && HeldUntil(snapshot.state) == stamp + Delay(PolicyOf(cfg, key), snapshot.state.attempts)
      && stamp <= HeldUntil(snapshot.state) <= snapshot.state.expiresAt
      && (IsRequestFlow(key.flow) && key in s.entries ==> HeldUntil(s.entries[key].state) <= s.clock)
    case Erased(key, _) => !IsRequestFlow(key.flow)
    case Reclaimed(keys) =>
      forall key :: key in keys && key in s.entries ==> HeldUntil(s.entries[key].state) <= s.clock
  }

  lemma EarlierAdmissionsAreOver(cfg: Config, s: State, e: Event, n: nat, key: Key)
    requires Settled(s) && Orderly(cfg, s, e) && AdmitsAt(s.log, n, key) && Touches(e, key)
    ensures HeldUntil(s.log[n].snapshot.state) <= s.clock
  {
  }

  lemma EventKeepsSettled(cfg: Config, s: State, entries': Entries, e: Event)
    requires Settled(s) && Orderly(cfg, s, e) && Follows(s.entries, entries', e)
    ensures Settled(s.(entries := entries', log := s.log + [e]))
  {
    var s' := s.(entries := entries', log := s.log + [e]);
    forall n: nat, key | AdmitsAt(s'.log, n, key)
      ensures HeldUntil(s'.log[n].snapshot.state) <= s'.clock || Lookup(entries', key) == Some(s'.log[n].snapshot)
    {
      if n < |s.log| {
        assert AdmitsAt(s.log, n, key);
        if Touches(e, key) {
          EarlierAdmissionsAreOver(cfg, s, e, n, key);
        } else {
          FollowingLeavesOthers(s.entries, entries', e, key);
        }
      }
    }
  }

  lemma EventKeepsSpaced(cfg: Config, s: State, e: Event)
    requires Settled(s) && Spaced(s.log) && Orderly(cfg, s, e)
    ensures Spaced(s.log + [e])
  {
    var log' := s.log + [e];
    forall n: nat, m: nat, key | n < m && AdmitsAt(log', n, key) && AdmitsAt(log', m, key)
      ensures HeldUntil(log'[n].snapshot.state) <= log'[m].committedAt
    {
      assert AdmitsAt(s.log, n, key);
      if m < |s.log| {
        assert AdmitsAt(s.log, m, key);
      } else {
        EarlierAdmissionsAreOver(cfg, s, e, n, key);
      }
    }
  }

  lemma EventKeepsTimely(cfg: Config, s: State, entries': Entries, e: Event)
    requires Timely(cfg, s) && Orderly(cfg, s, e) && Follows(s.entries, entries', e)
    ensures Timely(cfg, s.(entries := entries', log := s.log + [e]))
  {
    EventKeepsSettled(cfg, s, entries', e);
    EventKeepsSpaced(cfg, s, e);
  }

  /** Every stored state came out of the transition function. */
  lemma StoredStateHolds(cfg: Config, entries: Entries, log: seq<Event>, key: Key)
    requires ValidConfig(cfg) && Mirrors(cfg, entries, log, key) && key in entries
    ensures HeldUntil(entries[key].state) <= entries[key].state.expiresAt
    ensures entries[key].state.lastAttemptAt == log[Attempts(log, key)[|Attempts(log, key)| - 1]].stamp
  {
    var attempts := Attempts(log, key);
    var n := attempts[|attempts| - 1];
    NextStateHolds(key, Folded(PolicyOf(cfg, key), key, log, attempts[..|attempts| - 1]).value, PolicyOf(cfg, key), log[n].stamp);
  }

  /** A state that is not active holds nothing off any more. */
  lemma InactiveIsOver(state: RateState, now: Time)
    requires !Active(state, now) && HeldUntil(state) <= state.expiresAt && state.lastAttemptAt <= now
    ensures HeldUntil(state) <= now
  {
  }

  lemma SwapIsOrderly(cfg: Config, s: State, id: CallId, c: Call)
    requires ValidConfig(cfg) && Timely(cfg, s) && AllMirror(cfg, s.entries, s.log) && RevisionsDiffer(s.log)
    requires c.Swapping? && WellPlaced(cfg, s.entries, s.log, c) && c.now <= s.clock
    requires Swap(s, id, c).event.Some?
    ensures Orderly(cfg, s, Swap(s, id, c).event.value)
  {
    var key := c.keys[c.i];
    SwapIsPlaced(cfg, s, id, c);
    NextStateHolds(key, StateOf(c.seen), PolicyOf(cfg, key), c.now);
    DelayIsNotNegative(PolicyOf(cfg, key), c.replacement.state.attempts);
    assert key in c.keys;
    if IsRequestFlow(key.flow) && key in s.entries {
      assert Mirrors(cfg, s.entries, s.log, key);
      StoredStateHolds(cfg, s.entries, s.log, key);
      LastAttemptIsPast(cfg, s, key);
      if !Active(s.entries[key].state, c.now) && s.entries[key].state.lastAttemptAt > c.now {
        StaleReaderIsOver(cfg, s, key, c.now);
      } else {
        InactiveIsOver(s.entries[key].state, c.now);
      }
    }
  }

  lemma DelayIsNotNegative(p: Policy, attempts: nat)
    requires ValidPolicy(p)
    ensures Delay(p, attempts) >= 0
  {
    BackoffIsMonotone(p, 0, attempts);
  }

  lemma LastAttemptIsPast(cfg: Config, s: State, key: Key)
    requires ValidConfig(cfg) && Stamped(cfg, s) && Mirrors(cfg, s.entries, s.log, key) && key in s.entries
    ensures s.entries[key].state.lastAttemptAt <= s.clock
  {
    StoredStateHolds(cfg, s.entries, s.log, key);
    var attempts := Attempts(s.log, key);
    var n := attempts[|attempts| - 1];
    assert s.log[n].Committed? && s.log[n].stamp <= s.clock;
  }

  /** A state without delay that was stamped after this reader's clock is over too. */
  lemma StaleReaderIsOver(cfg: Config, s: State, key: Key, now: Time)
    requires ValidConfig(cfg) && Stamped(cfg, s) && Mirrors(cfg, s.entries, s.log, key) && key in s.entries
    requires !Active(s.entries[key].state, now) && s.entries[key].state.lastAttemptAt > now && now <= s.clock
    ensures HeldUntil(s.entries[key].state) <= s.clock
  {
    StoredStateHolds(cfg, s.entries, s.log, key);
    LastAttemptIsPast(cfg, s, key);
  }

  lemma ReclaimIsOrderly(cfg: Config, s: State, keys: set<Key>)
    requires ValidConfig(cfg) && AllMirror(cfg, s.entries, s.log)
    requires forall key :: key in keys ==> key in s.entries && s.entries[key].state.expiresAt <= s.clock
    ensures Orderly(cfg, s, Reclaimed(keys))
  {
    forall key | key in keys
      ensures HeldUntil(s.entries[key].state) <= s.clock
    {
      assert Mirrors(cfg, s.entries, s.log, key);
      StoredStateHolds(cfg, s.entries, s.log, key);
    }
  }

  /** Reclamation never drops a backoff or lockout that is still running. */
  lemma ReclaimedIsOver(cfg: Config, run: seq<State>, steps: seq<Step>, k: nat, key: Key)
    requires IsRun(cfg, run, steps) && ValidConfig(cfg) && k < |steps|
    requires steps[k].Reclaim? && key in steps[k].expired
    ensures key in run[k].entries && HeldUntil(run[k].entries[key].state) <= run[k].clock
  {
    RunKeepsInv(cfg, run, steps, k);
    assert Enabled(cfg, run[k], steps[k]);
    ReclaimIsOrderly(cfg, run[k], steps[k].expired);
  }

  lemma CallStepKeepsTimely(cfg: Config, s: State, c: CallId, revision: Id)
    requires ValidConfig(cfg) && Inv(cfg, s) && Timely(cfg, s) && Enabled(cfg, s, Advance(c, revision))
    ensures Timely(cfg, Apply(cfg, s, Advance(c, revision)))
  {
    hide NextState, Active;
    var call, o := s.calls[c], Next(cfg, s, c, s.calls[c], revision);
    NextIsLegitimate(cfg, s, c, call, revision);
    if o.event.Some? {
      if call.Swapping? {
        SwapIsOrderly(cfg, s, c, call);
      }
      EventKeepsTimely(cfg, s, o.entries, o.event.value);
    }
  }

  lemma StepKeepsTimely(cfg: Config, s: State, step: Step)
    requires ValidConfig(cfg) && Inv(cfg, s) && Timely(cfg, s) && Enabled(cfg, s, step)
    requires step.Tick? ==> s.clock <= step.clock
    ensures Timely(cfg, Apply(cfg, s, step))
  {
    match step
    case Reclaim(keys) =>
      ReclaimIsOrderly(cfg, s, keys);
      EventKeepsTimely(cfg, s, s.entries - keys, Reclaimed(keys));
    case Advance(c, revision) => CallStepKeepsTimely(cfg, s, c, revision);
    case _ =>
  }

  lemma {:induction false} RunIsTimely(cfg: Config, run: seq<State>, steps: seq<Step>, k: nat)
    requires IsRun(cfg, run, steps) && ValidConfig(cfg) && SharedClock(run) && k < |run|
    ensures Timely(cfg, run[k])
  {
    if k > 0 {
      RunIsTimely(cfg, run, steps, k - 1);
      RunKeepsInv(cfg, run, steps, k - 1);
      assert run[k - 1].clock <= run[k].clock;
      StepKeepsTimely(cfg, run[k - 1], steps[k - 1]);
    }
  }

  /** Under one shared clock: after an admission of a request key, stamped `t`, that
      left `count` on the counter, no later admission of that key commits before
      `t` plus the backoff of `count`, or plus the lockout once it reached the limit. */
  lemma AdmissionsAreSpaced(cfg: Config, run: seq<State>, steps: seq<Step>, k: nat, n: nat, m: nat, key: Key)
    requires IsRun(cfg, run, steps) && ValidConfig(cfg) && SharedClock(run) && k < |run|
    requires key.flow == PasswordResetRequest || key.flow == LoginCodeRequest
    requires n < m && CommitsAt(run[k].log, n, key) && CommitsAt(run[k].log, m, key)
    ensures run[k].log[m].committedAt >=
            run[k].log[n].stamp + Delay(cfg.request, run[k].log[n].snapshot.state.attempts)
  {
    assert AdmitsAt(run[k].log, n, key) && AdmitsAt(run[k].log, m, key);
    RunIsTimely(cfg, run, steps, k);
  }

  /** Codes and passwords are counted as failures under one policy; requests for a mail
      are admitted under the other. */
  lemma FlowsHavePolicies(cfg: Config, bucket: Bucket, value: string)
    ensures forall flow: Flow ::
              flow.PasswordLogin? || flow.LoginCodeVerification? || flow.TotpVerification?
              || flow.PasswordResetTokenConsumption? ==>
                PolicyOf(cfg, Key(flow, bucket, value)) == cfg.credential && !Enforces([Key(flow, bucket, value)])
    ensures forall flow: Flow ::
              flow.PasswordResetRequest? || flow.LoginCodeRequest? ==>
                PolicyOf(cfg, Key(flow, bucket, value)) == cfg.request && Enforces([Key(flow, bucket, value)])
  {
  }

  // ----- The memory store takes these steps ------------------------------------------------

  function ExpiredKeys(entries: Entries, now: Time): set<Key> {
    set key | key in entries && entries[key].state.expiresAt <= now
  }

  /** The filter of the memory store is a reclamation step of the protocol, so each of
      its operations is a reclamation followed by the plain operation. */
  lemma PurgeIsReclaim(cfg: Config, s: State)
    ensures Enabled(cfg, s, Reclaim(ExpiredKeys(s.entries, s.clock)))
    ensures Apply(cfg, s, Reclaim(ExpiredKeys(s.entries, s.clock))).entries == Unexpired(s.entries, s.clock)
  {
  }
}
