/** The recording, guarding and clearing loops of src/service.rs over the memory store.
    Ghost state follows every call as a run of the protocol, so whatever is proved of
    all runs holds of these loops. */
module RateLimitService {
  import opened Common
  import opened RateLimitPolicy
  import opened RateLimitMemoryStore
  import opened RateLimitProtocol
  import opened RateLimitInvariants
  import opened RateLimitTheorems
  import opened RateLimitRecording
  import RateLimitGuard
  import RateLimitAnswers

  /** An entry of a permit, without history. */
  datatype Seen = Seen(key: Key, revision: Option<Id>)

  function SeenOf(permit: seq<Observation>): (seen: seq<Seen>)
    ensures |seen| == |permit|
    ensures forall i :: 0 <= i < |permit| ==> seen[i] == Seen(permit[i].key, permit[i].revision)
  {
    if permit == [] then []
    else SeenOf(permit[..|permit| - 1]) + [Seen(permit[|permit| - 1].key, permit[|permit| - 1].revision)]
  }

  datatype Verdict = Permit(seen: seq<Seen>) | Refusal(answer: Answer)

  /** Revisions drawn so far are the numbers below `next`. */
  ghost predicate DrawnBelow(log: seq<Event>, next: Id) {
    forall n :: 0 <= n < |log| && log[n].Committed? ==> log[n].snapshot.revision < next
  }

  lemma LongerRun(cfg: Config, run: seq<State>, steps: seq<Step>, step: Step)
    requires IsRun(cfg, run, steps) && Enabled(cfg, run[|run| - 1], step)
    ensures IsRun(cfg, run + [Apply(cfg, run[|run| - 1], step)], steps + [step])
  {
    var run', steps' := run + [Apply(cfg, run[|run| - 1], step)], steps + [step];
    forall i | 0 <= i < |steps'|
      ensures Enabled(cfg, run'[i], steps'[i]) && run'[i + 1] == Apply(cfg, run'[i], steps'[i])
    {
      if i < |steps| {
        assert run'[i] == run[i] && run'[i + 1] == run[i + 1] && steps'[i] == steps[i];
      }
    }
  }

  /** The run ends in `now`, and the two counters are ahead of it. */
  ghost predicate Tracks(cfg: Config, run: seq<State>, steps: seq<Step>, now: State, nextCall: CallId, nextRevision: Id) {
    && run != [] && IsRun(cfg, run, steps) && run[|run| - 1] == now
    && CallsBelow(now.calls, nextCall) && DrawnBelow(now.log, nextRevision)
  }

  /** A step of call `c` that the counters allow. */
  ghost predicate Ready(s: State, c: CallId, nextRevision: Id) {
    && c in s.calls && !s.calls[c].Permitted? && !s.calls[c].Answered?
    && (s.calls[c].Swapping? ==>
          s.calls[c].replacement.revision < nextRevision && FreshRevision(s.log, s.calls[c].replacement.revision))
  }

  ghost function Advanced(cfg: Config, s: State, c: CallId, revision: Id): State
    requires c in s.calls
  {
    var o := Next(cfg, s, c, s.calls[c], revision);
    s.(entries := o.entries, calls := s.calls[c := o.call], log := Logged(s.log, o.event))
  }

  lemma AdvanceTracks(cfg: Config, run: seq<State>, steps: seq<Step>, s: State, nextCall: CallId, nextRevision: Id,
                      c: CallId, revision: Id)
    requires Tracks(cfg, run, steps, s, nextCall, nextRevision) && Ready(s, c, nextRevision)
    ensures Tracks(cfg, run + [Advanced(cfg, s, c, revision)], steps + [Advance(c, revision)],
                   Advanced(cfg, s, c, revision), nextCall, nextRevision)
  {
    LongerRun(cfg, run, steps, Advance(c, revision));
  }

  lemma SwapAdvances(cfg: Config, s: State, c: CallId)
    requires c in s.calls && s.calls[c].Swapping? && s.calls[c].i < |s.calls[c].keys|
    ensures var call := s.calls[c];
            var key, after := call.keys[call.i], Advanced(cfg, s, c, 0);
            && c in after.calls
            && (Revision(s.entries, key) == RevisionOf(call.seen) ==>
                  && after.entries == s.entries[key := call.replacement]
                  && after.calls[c] == Reading(call.keys, call.i + 1, call.now, call.enforce, 0)
                  && AddsCommit(s.log, after.log, c, key, call.now))
            && (Revision(s.entries, key) != RevisionOf(call.seen) ==>
                  && after.entries == s.entries && after.log == s.log
                  && after.calls[c] == Reading(call.keys, call.i, call.now, call.enforce, call.tries + 1))
  {
    var call := s.calls[c];
    OwnEventIsAdded(s.log, RateLimitProtocol.Event.Committed(c, call.keys[call.i], call.replacement, call.now, s.clock), c);
  }

  lemma ReadAdvances(cfg: Config, s: State, c: CallId, revision: Id)
    requires c in s.calls && s.calls[c].Reading?
    ensures var call, after := s.calls[c], Advanced(cfg, s, c, revision);
            && c in after.calls && after.entries == s.entries && after.log == s.log
            && after.calls[c] ==
               if call.i >= |call.keys| then Answered(Recorded)
               else if call.tries >= MAX_RATE_LIMIT_CAS_RETRIES then Answered(RetryLimit)
               else
                 var key := call.keys[call.i];
                 var seen := Lookup(s.entries, key);
                 var next := NextState(key, StateOf(seen), PolicyOf(cfg, key), call.now);
                 if call.enforce && seen.Some? && Active(seen.value.state, call.now) then Answered(Denied)
                 else if next.Failure? then Answered(Failed)
                 else Swapping(call.keys, call.i, call.now, call.enforce, call.tries, seen,
                               Snapshot(next.value, revision), |s.log|)
  {
  }

  lemma NextStateIsForKey(key: Key, current: Option<RateState>, p: Policy, now: Time)
    ensures NextState(key, current, p, now).Success? ==> NextState(key, current, p, now).value.key == key
  {
  }

  lemma GuardAdvances(cfg: Config, s: State, c: CallId)
    requires c in s.calls && s.calls[c].Guarding? && s.calls[c].i < |s.calls[c].keys|
    ensures var call, after := s.calls[c], Advanced(cfg, s, c, 0);
            var found := Lookup(s.entries, call.keys[call.i]);
            var until := if found.Some? && found.value.state.expiresAt > call.now then found else None;
            var locks := until.Some? && until.value.state.lockedUntil.Some? && until.value.state.lockedUntil.value > call.now;
            var holds := until.Some? && until.value.state.backoffUntil.Some? && until.value.state.backoffUntil.value > call.now;
            && c in after.calls && after.entries == s.entries && after.log == s.log
            && after.calls[c] ==
               Guarding(call.keys, call.i + 1, call.now,
                        call.permit + [Observation(call.keys[call.i], RevisionOf(found), |s.log|)],
                        if locks then Some(MaxTime(call.locked, until.value.state.lockedUntil.value)) else call.locked,
                        if !locks && holds then Some(MaxTime(call.backoff, until.value.state.backoffUntil.value))
                        else call.backoff)
  {
  }

  lemma ClearAdvances(cfg: Config, s: State, c: CallId)
    requires c in s.calls && s.calls[c].Clearing? && s.calls[c].i < |s.calls[c].permit|
    ensures var call := s.calls[c];
            var o, after := call.permit[call.i], Advanced(cfg, s, c, 0);
            && c in after.calls && after.calls[c] == Clearing(call.permit, call.i + 1)
            && after.entries == if o.revision.Some? && Revision(s.entries, o.key) == o.revision
                                then s.entries - {o.key} else s.entries
  {
  }

  lemma TickTracks(cfg: Config, run: seq<State>, steps: seq<Step>, s: State, nextCall: CallId, nextRevision: Id, now: Time)
    requires Tracks(cfg, run, steps, s, nextCall, nextRevision)
    ensures Tracks(cfg, run + [s.(clock := now)], steps + [Tick(now)], s.(clock := now), nextCall, nextRevision)
  {
    LongerRun(cfg, run, steps, Tick(now));
  }

  ghost function AfterReclaim(s: State, at: Time): State {
    s.(clock := at, entries := Unexpired(s.entries, at), log := s.log + [Reclaimed(ExpiredKeys(s.entries, at))])
  }

  lemma ReclaimTracks(cfg: Config, run: seq<State>, steps: seq<Step>, s: State, nextCall: CallId, nextRevision: Id, at: Time)
    requires Tracks(cfg, run, steps, s, nextCall, nextRevision) && s.clock == at
    ensures Tracks(cfg, run + [AfterReclaim(s, at)], steps + [Reclaim(ExpiredKeys(s.entries, at))],
                   AfterReclaim(s, at), nextCall, nextRevision)
  {
    PurgeIsReclaim(cfg, s);
    LongerRun(cfg, run, steps, Reclaim(ExpiredKeys(s.entries, at)));
    assert Apply(cfg, s, Reclaim(ExpiredKeys(s.entries, at))) == AfterReclaim(s, at);
  }

  lemma AbortTracks(cfg: Config, run: seq<State>, steps: seq<Step>, s: State, nextCall: CallId, nextRevision: Id, c: CallId)
    requires Tracks(cfg, run, steps, s, nextCall, nextRevision) && c in s.calls && !s.calls[c].Answered?
    ensures Tracks(cfg, run + [s.(calls := s.calls[c := Answered(Aborted)])], steps + [Abort(c)],
                   s.(calls := s.calls[c := Answered(Aborted)]), nextCall, nextRevision)
  {
    LongerRun(cfg, run, steps, Abort(c));
  }

  lemma ResolveTracks(cfg: Config, run: seq<State>, steps: seq<Step>, s: State, nextCall: CallId, nextRevision: Id, c: CallId)
    requires Tracks(cfg, run, steps, s, nextCall, nextRevision) && c in s.calls && s.calls[c].Permitted?
    ensures Tracks(cfg, run + [s.(calls := s.calls[c := Clearing(s.calls[c].permit, 0)])], steps + [Resolve(c, true)],
                   s.(calls := s.calls[c := Clearing(s.calls[c].permit, 0)]), nextCall, nextRevision)
  {
    LongerRun(cfg, run, steps, Resolve(c, true));
  }

  lemma NewCallHasNoCommits(cfg: Config, run: seq<State>, steps: seq<Step>, s: State, nextCall: CallId, nextRevision: Id)
    requires Tracks(cfg, run, steps, s, nextCall, nextRevision)
    ensures nextCall !in s.calls && CommitsOf(s.log, nextCall) == []
  {
    HistoryAccounts(cfg, run, steps, |run| - 1, nextCall);
  }

  lemma BeginTracks(cfg: Config, run: seq<State>, steps: seq<Step>, s: State, nextCall: CallId, nextRevision: Id, step: Step)
    requires Tracks(cfg, run, steps, s, nextCall, nextRevision)
    requires step.BeginRecording? || step.BeginGuarding?
    requires step.call == nextCall && (OneKind(step.keys, false) || (step.BeginRecording? && OneKind(step.keys, true)))
    ensures Enabled(cfg, s, step)
    ensures Tracks(cfg, run + [Apply(cfg, s, step)], steps + [step], Apply(cfg, s, step), nextCall + 1, nextRevision)
  {
    LongerRun(cfg, run, steps, step);
  }

  /** What a call has drawn and not yet stored, if anything, is still unused. */
  ghost predicate Unused(log: seq<Event>, drawn: Option<Id>, next: Id) {
    drawn.Some? ==> drawn.value < next && FreshRevision(log, drawn.value)
  }

  lemma UnusedAfterReclaim(s: State, at: Time, drawn: Option<Id>, next: Id, c: CallId)
    requires Unused(s.log, drawn, next)
    ensures Unused(AfterReclaim(s, at).log, drawn, next)
    ensures KeepsCommits(s.log, AfterReclaim(s, at).log, c)
  {
    OtherEventIsKept(s.log, Reclaimed(ExpiredKeys(s.entries, at)), c);
  }

  /** Why this store does not take a replacement: it is over by the store's clock, or
      it would be one entry too many. */
  predicate StoreRefuses(s: State, capacity: nat, replacement: RateState) {
    || replacement.expiresAt <= s.clock
    || (replacement.key !in s.entries && |s.entries| >= capacity)
  }

  predicate TransitionRefused(cfg: Config, capacity: nat, s: State, key: Key, current: Option<RateState>, now: Time) {
    var next := NextState(key, current, PolicyOf(cfg, key), now);
    next.Success? && StoreRefuses(s, capacity, next.value)
  }

  /** The store does not take what an attempt on `key` amounts to. */
  ghost predicate AttemptRefused(cfg: Config, capacity: nat, s: State, key: Key, now: Time) {
    exists current :: TransitionRefused(cfg, capacity, s, key, current, now)
  }

  /** Call `c` has recorded the keys before `i` and no more; if it aborted there, the
      store had refused the attempt on key `i`. */
  ghost predicate StoppedAt(
    cfg: Config, capacity: nat, s: State, c: CallId, keys: seq<Key>, i: nat, now: Time, answer: Answer)
  {
    && i < |keys| && Records(s.log, c, keys, i, now)
    && (answer.Aborted? ==> AttemptRefused(cfg, capacity, s, keys[i], now))
  }

  lemma NextDrawIsFresh(log: seq<Event>, next: Id)
    requires DrawnBelow(log, next)
    ensures FreshRevision(log, next) && DrawnBelow(log, next + 1)
  {
  }

  class RateLimiter {
    const cfg: Config
    const store: MemoryAuthRateLimitStore
    var nextRevision: Id
    ghost var nextCall: CallId
    ghost var state: State
    ghost var run: seq<State>
    ghost var steps: seq<Step>

    ghost predicate Valid()
      reads this, store, store.states
    {
      && store.Valid() && state.entries == store.states.entries
      && Tracks(cfg, run, steps, state, nextCall, nextRevision)
    }

    /** The state is where the history has come to. */
    lemma HistoryEndsNow()
      requires Valid()
      ensures run != [] && run[|run| - 1] == state && |run| == |steps| + 1
    {
    }

    /** The run so far is a beginning of the current one. */
    twostate predicate Continues()
      reads this
    {
      old(run) <= run && old(steps) <= steps
    }

    constructor (cfg: Config, capacity: nat, start: Time)
      requires capacity > 0
      ensures Valid() && this.cfg == cfg && steps == [] && fresh(store) && fresh(store.states)
    {
      this.cfg := cfg;
      store := new MemoryAuthRateLimitStore(capacity);
      nextRevision, nextCall := 0, 0;
      state := State(map[], map[], start, []);
      run, steps := [State(map[], map[], start, [])], [];
    }

    /** The store reclaims under its lock before every operation. */
    ghost method TakeReclaim(at: Time)
      requires Tracks(cfg, run, steps, state, nextCall, nextRevision)
      modifies `state, `run, `steps
      ensures Tracks(cfg, run, steps, state, nextCall, nextRevision) && Continues()
      ensures state == AfterReclaim(old(state), at)
    {
      hide IsRun, Tracks, Unexpired;
      TickTracks(cfg, run, steps, state, nextCall, nextRevision, at);
      run, steps, state := run + [state.(clock := at)], steps + [Tick(at)], state.(clock := at);
      ReclaimTracks(cfg, run, steps, state, nextCall, nextRevision, at);
      run, steps, state :=
        run + [AfterReclaim(state, at)], steps + [Reclaim(ExpiredKeys(state.entries, at))], AfterReclaim(state, at);
    }

    /** One step of call `c`. */
    ghost method TakeAdvance(c: CallId, revision: Id)
      requires Tracks(cfg, run, steps, state, nextCall, nextRevision) && Ready(state, c, nextRevision)
      modifies `state, `run, `steps
      ensures Tracks(cfg, run, steps, state, nextCall, nextRevision) && Continues()
      ensures c in old(state).calls && state == Advanced(cfg, old(state), c, revision)
    {
      AdvanceTracks(cfg, run, steps, state, nextCall, nextRevision, c, revision);
      run, steps, state :=
        run + [Advanced(cfg, state, c, revision)], steps + [Advance(c, revision)], Advanced(cfg, state, c, revision);
    }

    ghost method TakeTick(at: Time)
      requires Valid()
      modifies `state, `run, `steps
      ensures Valid() && Continues() && state == old(state).(clock := at) && steps == old(steps) + [Tick(at)]
    {
      TickTracks(cfg, run, steps, state, nextCall, nextRevision, at);
      run, steps, state := run + [state.(clock := at)], steps + [Tick(at)], state.(clock := at);
    }

    ghost method TakeAbort(c: CallId)
      requires Valid() && c in state.calls && !state.calls[c].Answered?
      modifies `state, `run, `steps
      ensures Valid() && Continues() && state == old(state).(calls := old(state).calls[c := Answered(Aborted)])
    {
      AbortTracks(cfg, run, steps, state, nextCall, nextRevision, c);
      state := state.(calls := state.calls[c := Answered(Aborted)]);
      run, steps := run + [state], steps + [Abort(c)];
    }

    /** Any steps of other calls, of the clock and of reclamation, while `c` awaits the
        store. Identities are never drawn twice, so what `c` has drawn stays unused, and
        no other call commits as `c`. Callers rely on the contract only; what happens
        meanwhile is not theirs to know. */
    method AwaitTurn(ghost c: CallId, ghost drawn: Option<Id>)
      requires Valid() && c in state.calls && Unused(state.log, drawn, nextRevision)
      modifies this, store.states
      ensures Valid() && Continues() && Unused(state.log, drawn, nextRevision)
      ensures c in state.calls && state.calls[c] == old(state).calls[c]
      ensures KeepsCommits(old(state).log, state.log, c)
    {
      hide IsRun, Unused, Tracks, IndexAgrees, CommitsOf;
      var at: Time := *;
      UnusedAfterReclaim(state, at, drawn, nextRevision, c);
      var _ := store.PurgeExpired(at);
      TakeReclaim(at);
    }

    /** `Uuid::new_v4`. */
    method DrawRevision() returns (revision: Id)
      requires Valid()
      modifies `nextRevision
      ensures Valid() && Unused(state.log, Some(revision), nextRevision)
    {
      NextDrawIsFresh(state.log, nextRevision);
      revision := nextRevision;
      nextRevision := nextRevision + 1;
    }

    /** One read of the store, some time later. */
    method Observe(ghost c: CallId, key: Key, ghost drawn: Option<Id>) returns (found: Option<Snapshot>)
      requires Valid() && c in state.calls && Unused(state.log, drawn, nextRevision)
      modifies this, store.states
      ensures Valid() && Continues() && Unused(state.log, drawn, nextRevision)
      ensures c in state.calls && state.calls[c] == old(state).calls[c]
      ensures KeepsCommits(old(state).log, state.log, c)
      ensures found == Lookup(state.entries, key)
    {
      hide IsRun, Unused, Tracks, IndexAgrees, Unexpired, KeepsCommits;
      AwaitTurn(c, drawn);
      ghost var awaited := state.log;
      var at: Time := *;
      UnusedAfterReclaim(state, at, drawn, nextRevision, c);
      found := store.Find(key, at);
      TakeReclaim(at);
      KeptThenKept(old(state).log, awaited, state.log, c);
    }

    /** One compare-and-swap, some time later; a store failure ends the call. */
    method Exchange(ghost c: CallId, key: Key, expected: Option<Id>, replacement: Snapshot)
      returns (swapped: Result<bool, StoreError>)
      requires Valid() && c in state.calls && state.calls[c].Swapping?
      requires Unused(state.log, Some(replacement.revision), nextRevision)
      requires var call := state.calls[c];
               && call.i < |call.keys| && call.keys[call.i] == key == replacement.state.key
               && RevisionOf(call.seen) == expected && call.replacement == replacement
      modifies this, store.states
      ensures Valid() && Continues() && c in state.calls
      ensures var call := old(state).calls[c];
              state.calls[c] == match swapped
                                case Failure(_) => Answered(Aborted)
                                case Success(true) => Reading(call.keys, call.i + 1, call.now, call.enforce, 0)
                                case Success(false) => Reading(call.keys, call.i, call.now, call.enforce, call.tries + 1)
      ensures swapped.Failure? ==> StoreRefuses(state, store.capacity, replacement.state)
      ensures if swapped == Success(true)
              then AddsCommit(old(state).log, state.log, c, key, old(state).calls[c].now)
              else KeepsCommits(old(state).log, state.log, c)
    {
      hide IsRun, FreshRevision, Tracks, IndexAgrees, Unexpired, KeepsCommits, AddsCommit;
      hide Next, Swap, Advanced, Logged, Revision, MemoryAuthRateLimitStore.Valid, MemoryState.Valid;
      AwaitTurn(c, Some(replacement.revision));
      ghost var awaited := state.log;
      var at: Time := *;
      UnusedAfterReclaim(state, at, Some(replacement.revision), nextRevision, c);
      swapped := store.CompareExchange(key, expected, replacement, at);
      TakeReclaim(at);
      KeptThenKept(old(state).log, awaited, state.log, c);
      ghost var reclaimed := state.log;
      SwapAdvances(cfg, state, c);
      if swapped.Failure? {
        TakeAbort(c);
      } else {
        TakeAdvance(c, 0);
        if swapped.value {
          KeptThenAdded(old(state).log, reclaimed, state.log, c, key, old(state).calls[c].now);
        }
      }
    }

    /** The first half of a try: the entry as it is read, and what the call makes of it. */
    method ReadEntry(ghost c: CallId, ghost keys: seq<Key>, ghost i: nat, key: Key, now: Time, enforce: bool, ghost tries: nat)
      returns (current: Option<Snapshot>, revision: Id)
      requires Valid() && c in state.calls && i < |keys| && keys[i] == key && tries < MAX_RATE_LIMIT_CAS_RETRIES
      requires state.calls[c] == Reading(keys, i, now, enforce, tries)
      modifies this, store.states
      ensures Valid() && Continues() && c in state.calls
      ensures Unused(state.log, Some(revision), nextRevision) && KeepsCommits(old(state).log, state.log, c)
      ensures var next := NextState(key, StateOf(current), PolicyOf(cfg, key), now);
              if enforce && current.Some? && Active(current.value.state, now) then state.calls[c] == Answered(Denied)
              else if next.Failure? then state.calls[c] == Answered(Failed)
              else
                && state.calls[c].Swapping?
                && state.calls[c] == Swapping(keys, i, now, enforce, tries, current, Snapshot(next.value, revision),
                                              state.calls[c].mark)
    {
      hide IsRun, FreshRevision, Tracks, IndexAgrees, Unexpired, Active, Next, Advanced, Logged;
      hide NextState, PolicyOf, Lookup, Swap, Read, MemoryAuthRateLimitStore.Valid, MemoryState.Valid, KeepsCommits;
      revision := DrawRevision();
      current := Observe(c, key, Some(revision));
      ReadAdvances(cfg, state, c, revision);
      TakeAdvance(c, revision);
    }

    /** `record_rate_limit_attempt_for_key`: exactly one transition of this key committed
        by this call, or none and the reason why. */
    method RecordAttemptForKey(ghost c: CallId, ghost keys: seq<Key>, ghost i: nat, key: Key, now: Time, enforce: bool)
      returns (answer: Answer)
      requires Valid() && c in state.calls && i < |keys| && keys[i] == key
      requires state.calls[c] == Reading(keys, i, now, enforce, 0)
      modifies this, store.states
      ensures Valid() && Continues() && c in state.calls
      ensures state.calls[c] == if answer == Recorded then Reading(keys, i + 1, now, enforce, 0) else Answered(answer)
      ensures answer.Recorded? || answer.Denied? || answer.Failed? || answer.RetryLimit? || answer.Aborted?
      ensures answer.Aborted? ==> AttemptRefused(cfg, store.capacity, state, key, now)
      ensures if answer.Recorded? then AddsCommit(old(state).log, state.log, c, key, now)
              else KeepsCommits(old(state).log, state.log, c)
    {
      hide IsRun, FreshRevision, Tracks, IndexAgrees, Unexpired, Active, Next, Advanced, Logged;
      hide NextState, PolicyOf, Lookup, Swap, Read, AddsCommit, CommitsOf;
      hide MemoryAuthRateLimitStore.Valid, MemoryState.Valid;
      for tries := 0 to MAX_RATE_LIMIT_CAS_RETRIES
        invariant Valid() && Continues() && c in state.calls
        invariant state.calls[c] == Reading(keys, i, now, enforce, tries)
        invariant KeepsCommits(old(state).log, state.log, c)
      {
        var current, revision := ReadEntry(c, keys, i, key, now, enforce, tries);
        ghost var read := state.log;
        if enforce && current.Some? && Active(current.value.state, now) {
          return Denied;
        }
        var next := NextState(key, StateOf(current), PolicyOf(cfg, key), now);
        NextStateIsForKey(key, StateOf(current), PolicyOf(cfg, key), now);
        if next.Failure? {
          return Failed;
        }
        var swapped := Exchange(c, key, RevisionOf(current), Snapshot(next.value, revision));
        if swapped.Failure? {
          assert TransitionRefused(cfg, store.capacity, state, key, StateOf(current), now);
          return Aborted;
        }
        if swapped.value {
          KeptThenAdded(old(state).log, read, state.log, c, key, now);
          return Recorded;
        }
      }
      ReadAdvances(cfg, state, c, 0);
      TakeAdvance(c, 0);
      return RetryLimit;
    }

    /** A new call, begun by `step`. */
    ghost method Begin(step: Step) returns (c: CallId)
      requires Valid()
      requires step.BeginRecording? || step.BeginGuarding?
      requires step.call == nextCall && (OneKind(step.keys, false) || (step.BeginRecording? && OneKind(step.keys, true)))
      modifies `state, `run, `steps, `nextCall
      ensures Valid() && Continues() && c == old(nextCall) && steps == old(steps) + [step]
      ensures c in state.calls && CommitsOf(state.log, c) == []
      ensures state.calls[c] == if step.BeginRecording?
                                then Reading(step.keys, 0, old(state).clock, Enforces(step.keys), 0)
                                else Guarding(step.keys, 0, old(state).clock, [], None, None)
    {
      hide IsRun, FreshRevision, Tracks, IndexAgrees, Unexpired, MemoryAuthRateLimitStore.Valid, MemoryState.Valid;
      NewCallHasNoCommits(cfg, run, steps, state, nextCall, nextRevision);
      BeginTracks(cfg, run, steps, state, nextCall, nextRevision, step);
      c := nextCall;
      state := Apply(cfg, state, step);
      run, steps, nextCall := run + [state], steps + [step], nextCall + 1;
    }

    /** The loop over the keys of one call, all stamped with the same instant. */
    method RecordKeys(ghost c: CallId, keys: seq<Key>, now: Time, enforce: bool) returns (answer: Answer)
      requires Valid() && c in state.calls && state.calls[c] == Reading(keys, 0, now, enforce, 0)
      requires CommitsOf(state.log, c) == []
      modifies this, store.states
      ensures Valid() && Continues() && c in state.calls && state.calls[c] == Answered(answer)
      ensures answer.Recorded? ==> Records(state.log, c, keys, |keys|, now)
      ensures !answer.Recorded? ==> exists i: nat :: StoppedAt(cfg, store.capacity, state, c, keys, i, now, answer)
      ensures answer.Recorded? || answer.Denied? || answer.Failed? || answer.RetryLimit? || answer.Aborted?
    {
      hide IsRun, FreshRevision, Tracks, IndexAgrees, Unexpired, CommitsOf, AddsCommit, KeepsCommits;
      hide MemoryAuthRateLimitStore.Valid, MemoryState.Valid;
      for i := 0 to |keys|
        invariant Valid() && Continues() && c in state.calls
        invariant state.calls[c] == Reading(keys, i, now, enforce, 0)
        invariant Records(state.log, c, keys, i, now)
      {
        ghost var before := state.log;
        var outcome := RecordAttemptForKey(c, keys, i, keys[i], now, enforce);
        RecordsGrow(before, state.log, c, keys, i, now);
        if outcome != Recorded {
          assert StoppedAt(cfg, store.capacity, state, c, keys, i, now, outcome);
          return outcome;
        }
      }
      TakeAdvance(c, 0);
      return Recorded;
    }

    /** `record_rate_limit_attempt` and `record_rate_limit_request_if_allowed`: the clock
        is read once, before the loop. The call that answers is the one begun here; the
        keys it passed before it stopped are recorded, each by one commit of its own. */
    method Record(keys: seq<Key>, now: Time) returns (answer: Answer, ghost c: CallId)
      requires Valid() && (OneKind(keys, true) || OneKind(keys, false))
      modifies this, store.states
      ensures Valid() && Continues()
      ensures c == old(nextCall) && c in state.calls && state.calls[c] == Answered(answer)
      ensures old(steps) + [Tick(now), BeginRecording(c, keys)] <= steps
      ensures answer.Recorded? ==> Records(state.log, c, keys, |keys|, now)
      ensures !answer.Recorded? ==> exists i: nat :: StoppedAt(cfg, store.capacity, state, c, keys, i, now, answer)
      ensures answer.Recorded? || answer.Denied? || answer.Failed? || answer.RetryLimit? || answer.Aborted?
    {
      hide IsRun, FreshRevision, Tracks, IndexAgrees, Unexpired;
      hide MemoryAuthRateLimitStore.Valid, MemoryState.Valid;
      TakeTick(now);
      c := Begin(BeginRecording(nextCall, keys));
      assert steps == old(steps) + [Tick(now), BeginRecording(c, keys)];
      answer := RecordKeys(c, keys, now, keys != [] && IsRequestFlow(keys[0].flow));
    }

    /** One key of the guard's loop. */
    method Inspect(ghost c: CallId, key: Key, now: Time, lockedUntil: Option<Time>, backoffUntil: Option<Time>)
      returns (seen: Seen, locked: Option<Time>, backoff: Option<Time>)
      requires Valid() && c in state.calls && state.calls[c].Guarding?
      requires var call := state.calls[c];
               call.i < |call.keys| && call.keys[call.i] == key && call.now == now
               && call.locked == lockedUntil && call.backoff == backoffUntil
      modifies this, store.states
      ensures Valid() && Continues() && c in state.calls && state.calls[c].Guarding?
      ensures var call := old(state).calls[c];
              state.calls[c] == Guarding(call.keys, call.i + 1, now, state.calls[c].permit, locked, backoff)
      ensures SeenOf(state.calls[c].permit) == SeenOf(old(state).calls[c].permit) + [seen]
    {
      hide IsRun, FreshRevision, Tracks, IndexAgrees, Unexpired, Next, Advanced, Logged, Guard, Lookup;
      hide MemoryAuthRateLimitStore.Valid, MemoryState.Valid;
      var found := Observe(c, key, None);
      ghost var before := state.calls[c].permit;
      GuardAdvances(cfg, state, c);
      TakeAdvance(c, 0);
      assert state.calls[c].permit[..|before|] == before;
      seen, locked, backoff := Seen(key, RevisionOf(found)), lockedUntil, backoffUntil;
      if found.Some? && found.value.state.expiresAt > now {
        var until := found.value.state;
        if until.lockedUntil.Some? && until.lockedUntil.value > now {
          locked := Some(MaxTime(lockedUntil, until.lockedUntil.value));
        } else if until.backoffUntil.Some? && until.backoffUntil.value > now {
          backoff := Some(MaxTime(backoffUntil, until.backoffUntil.value));
        }
      }
    }

    /** `reject_if_rate_limited`: reads every key, then reports the latest lockout, or
        else the latest backoff, or else a permit naming the versions it saw. */
    method RejectIfRateLimited(keys: seq<Key>, now: Time) returns (verdict: Verdict, ghost c: CallId)
      requires Valid() && OneKind(keys, false)
      modifies this, store.states
      ensures Valid() && Continues() && c == old(nextCall) && c in state.calls
      ensures old(steps) + [Tick(now), BeginGuarding(c, keys)] <= steps
      ensures match verdict
              case Permit(seen) => state.calls[c].Permitted? && seen == SeenOf(state.calls[c].permit)
              case Refusal(answer) => state.calls[c] == Answered(answer) && (answer.Locked? || answer.Throttled?)
    {
      hide IsRun, FreshRevision, Tracks, IndexAgrees, Unexpired;
      hide MemoryAuthRateLimitStore.Valid, MemoryState.Valid;
      TakeTick(now);
      c := Begin(BeginGuarding(nextCall, keys));
      assert steps == old(steps) + [Tick(now), BeginGuarding(c, keys)];
      var lockedUntil: Option<Time>, backoffUntil: Option<Time> := None, None;
      var observations: seq<Seen> := [];
      for i := 0 to |keys|
        invariant Valid() && Continues() && c in state.calls
        invariant old(steps) + [Tick(now), BeginGuarding(c, keys)] <= steps
        invariant state.calls[c].Guarding?
        invariant state.calls[c] == Guarding(keys, i, now, state.calls[c].permit, lockedUntil, backoffUntil)
        invariant observations == SeenOf(state.calls[c].permit)
      {
        var seen;
        seen, lockedUntil, backoffUntil := Inspect(c, keys[i], now, lockedUntil, backoffUntil);
        observations := observations + [seen];
      }
      TakeAdvance(c, 0);
      if lockedUntil.Some? {
        return Refusal(Locked(lockedUntil.value)), c;
      }
      if backoffUntil.Some? {
        return Refusal(Throttled(backoffUntil.value)), c;
      }
      return Permit(observations), c;
    }

    /** One conditional clear, some time later. */
    method Forget(ghost c: CallId, ghost observed: seq<Observation>, ghost i: nat, seen: Seen)
      requires Valid() && c in state.calls && state.calls[c] == Clearing(observed, i)
      requires i < |observed| && seen == Seen(observed[i].key, observed[i].revision)
      modifies this, store.states
      ensures Valid() && Continues() && c in state.calls && state.calls[c] == Clearing(observed, i + 1)
    {
      hide IsRun, FreshRevision, Tracks, IndexAgrees, Unexpired;
      hide Next, ClearOne, Advanced, Logged, MemoryAuthRateLimitStore.Valid, MemoryState.Valid;
      AwaitTurn(c, None);
      var at: Time := *;
      var _ := store.Clear(seen.key, seen.revision, at);
      TakeReclaim(at);
      RemovingAbsent(state.entries, seen.key);
      ClearAdvances(cfg, state, c);
      TakeAdvance(c, 0);
    }

    /** `clear_rate_limit_attempts` after a success, with the permit its guard returned. */
    method ClearAttempts(ghost c: CallId, permit: seq<Seen>)
      requires Valid() && c in state.calls && state.calls[c].Permitted? && permit == SeenOf(state.calls[c].permit)
      modifies this, store.states
      ensures Valid() && Continues() && c in state.calls && state.calls[c] == Answered(Cleared)
      ensures old(steps) + [Resolve(c, true)] <= steps
      ensures RateLimitAnswers.ClearedAll(run, steps, |run| - 1, c, old(state.calls[c].permit))
    {
      hide IsRun, FreshRevision, Tracks, IndexAgrees, Unexpired, MemoryAuthRateLimitStore.Valid, MemoryState.Valid;
      ghost var observed, permitted := state.calls[c].permit, |run| - 1;
      HistoryEndsNow();
      ResolveTracks(cfg, run, steps, state, nextCall, nextRevision, c);
      state := state.(calls := state.calls[c := Clearing(observed, 0)]);
      run, steps := run + [state], steps + [Resolve(c, true)];
      for i := 0 to |permit|
        invariant Valid() && Continues() && c in state.calls && state.calls[c] == Clearing(observed, i)
        invariant old(steps) + [Resolve(c, true)] <= steps
      {
        Forget(c, observed, i, permit[i]);
      }
      TakeAdvance(c, 0);
      PermitWasCleared(permitted, c, observed);
    }

    lemma PermitWasCleared(m: nat, c: CallId, permit: seq<Observation>)
      requires Valid() && m < |run| && c in run[m].calls && run[m].calls[c] == Permitted(permit)
      requires c in state.calls && state.calls[c] == Answered(Cleared)
      ensures run != [] && RateLimitAnswers.ClearedAll(run, steps, |run| - 1, c, permit)
    {
      hide IsRun, RateLimitAnswers.ClearedAll;
      RateLimitAnswers.ThatPermitIsCleared(cfg, run, steps, m, |run| - 1, c, permit);
    }
  }

  /** Since a limiter's history is a run, what holds of runs holds of its store: every
      stored counter accounts for every attempt recorded since its entry was created. */
  lemma StoredCountersAreExact(limiter: RateLimiter, key: Key)
    requires limiter.Valid() && ValidConfig(limiter.cfg)
    ensures Mirrors(limiter.cfg, limiter.store.states.entries, limiter.state.log, key)
    ensures key in limiter.store.states.entries ==>
              exists first ::
                CountsFrom(PolicyOf(limiter.cfg, key).window, limiter.state.log, Attempts(limiter.state.log, key),
                           limiter.store.states.entries[key].state, first)
  {
    NoIncrementIsLost(limiter.cfg, limiter.run, limiter.steps, |limiter.run| - 1, key);
  }

  /** Every permit and refusal these loops have given is justified by what they read. */
  lemma VerdictsAreJustified(limiter: RateLimiter, c: CallId)
    requires limiter.Valid() && c in limiter.state.calls && RateLimitGuard.HasVerdict(limiter.state.calls[c])
    ensures RateLimitGuard.IsJustified(limiter.run, limiter.steps, |limiter.run| - 1, c, limiter.state.calls[c])
  {
    RateLimitGuard.VerdictIsJustified(limiter.cfg, limiter.run, limiter.steps, |limiter.run| - 1, c);
  }

  /** Whatever a recording or a clear has answered is due: "denied" by a key it read as
      active, "retry limit" by the swaps it lost, "failed" by a key it could not count,
      "cleared" by a turn of its own for every observation. */
  lemma AnswersAreDue(limiter: RateLimiter, c: CallId)
    requires limiter.Valid() && c in limiter.state.calls
    ensures var run, steps, k := limiter.run, limiter.steps, |limiter.run| - 1;
            match limiter.state.calls[c]
            case Answered(Recorded) => RateLimitRecording.RecordedAll(run, steps, k, run[k].log, c)
            case Answered(Denied) => exists j: nat :: j < k && RateLimitGuard.SeesHold(run[j], steps[j], c)
            case Answered(Cleared) => exists permit :: RateLimitAnswers.ClearedAll(run, steps, k, c, permit)
            case Answered(RetryLimit) => exists i: nat :: RateLimitAnswers.LostAllOn(run, steps, k, c, i)
            case Answered(Failed) => RateLimitAnswers.CouldNotCount(limiter.cfg, run, steps, k, c)
            case _ => true
  {
    hide IsRun, RateLimitGuard.SeesHold, RateLimitAnswers.ClearedAll;
    var cfg, run, steps, k := limiter.cfg, limiter.run, limiter.steps, |limiter.run| - 1;
    RunIsAsLong(cfg, run, steps);
    match limiter.state.calls[c]
    case Answered(Recorded) => RecordedIsCommitted(cfg, run, steps, k, c);
    case Answered(Denied) => RateLimitGuard.DenialIsJustified(cfg, run, steps, k, c);
    case Answered(Cleared) => RateLimitAnswers.ClearedCallsCleared(cfg, run, steps, k, c);
    case Answered(RetryLimit) => RateLimitAnswers.GivingUpIsDue(cfg, run, steps, k, c);
    case Answered(Failed) => RateLimitAnswers.GivingUpIsDue(cfg, run, steps, k, c);
    case _ =>
  }

  lemma RunIsAsLong(cfg: Config, run: seq<State>, steps: seq<Step>)
    requires IsRun(cfg, run, steps)
    ensures |run| == |steps| + 1
  {
  }

  lemma RemovingAbsent(entries: Entries, key: Key)
    ensures key !in entries ==> entries - {key} == entries
  {
  }
}
