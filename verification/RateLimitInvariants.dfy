/** What every step of the abuse-counter protocol keeps. */
module RateLimitInvariants {
  import opened Common
  import opened RateLimitPolicy
  import opened RateLimitMemoryStore
  import opened RateLimitProtocol

  // ----- The history of one key ---------------------------------------------------

  predicate CommitsAt(log: seq<Event>, n: nat, key: Key) {
    n < |log| && log[n].Committed? && log[n].key == key
  }

  predicate Touches(e: Event, key: Key) {
    match e
    case Committed(_, k, _, _, _) => k == key
    case Erased(k, _) => k == key
    case Reclaimed(keys) => key in keys
  }

  /** Positions of the commits on `key` since its entry last came into being. */
  function Attempts(log: seq<Event>, key: Key): seq<nat> {
    if log == [] then []
    else
      var before, e := Attempts(log[..|log| - 1], key), log[|log| - 1];
      if !Touches(e, key) then before
      else if e.Committed? then before + [|log| - 1]
      else []
  }

  lemma AttemptsAfter(log: seq<Event>, e: Event, key: Key)
    ensures Attempts(log + [e], key) ==
            if !Touches(e, key) then Attempts(log, key)
            else if e.Committed? then Attempts(log, key) + [|log|]
            else []
  {
    assert (log + [e])[..|log|] == log;
  }

  /** The positions are commits on this key, in order, and nothing between the
      first of them and the end of the log has removed the entry. */
  lemma {:induction false} AttemptsAreCommits(log: seq<Event>, key: Key)
    ensures forall j :: 0 <= j < |Attempts(log, key)| ==> CommitsAt(log, Attempts(log, key)[j], key)
    ensures forall i, j :: 0 <= i < j < |Attempts(log, key)| ==> Attempts(log, key)[i] < Attempts(log, key)[j]
    ensures forall n :: 0 <= n < |log| && Touches(log[n], key) && Attempts(log, key) != [] && Attempts(log, key)[0] <= n ==>
                          n in Attempts(log, key)
  {
    if log != [] {
      AttemptsAreCommits(log[..|log| - 1], key);
    }
  }

  /** The transition function, folded over the stamps of the given commits. */
  function Folded(p: Policy, key: Key, log: seq<Event>, attempts: seq<nat>): Result<Option<RateState>, RateError> {
    if attempts == [] then Success(None)
    else
      var n := attempts[|attempts| - 1];
      if n < |log| && log[n].Committed? then
        var before :- Folded(p, key, log, attempts[..|attempts| - 1]);
        var next :- NextState(key, before, p, log[n].stamp);
        Success(Some(next))
      else Success(None)
  }

  lemma {:induction false} FoldedOnLongerLog(p: Policy, key: Key, log: seq<Event>, e: Event, attempts: seq<nat>)
    requires forall j :: 0 <= j < |attempts| ==> attempts[j] < |log|
    ensures Folded(p, key, log + [e], attempts) == Folded(p, key, log, attempts)
  {
    if attempts != [] {
      FoldedOnLongerLog(p, key, log, e, attempts[..|attempts| - 1]);
    }
  }

  // ----- The store mirrors its history ---------------------------------------------

  /** The stored state of `key` is the fold of all attempts committed since the entry
      came into being, and the stored version is that of the latest of them. */
  ghost predicate Mirrors(cfg: Config, entries: Entries, log: seq<Event>, key: Key) {
    var attempts := Attempts(log, key);
    && Folded(PolicyOf(cfg, key), key, log, attempts) == Success(StateOf(Lookup(entries, key)))
    && (key in entries <==> attempts != [])
    && (attempts != [] ==>
          var n := attempts[|attempts| - 1];
          CommitsAt(log, n, key) && log[n].snapshot == entries[key])
  }

  ghost predicate AllMirror(cfg: Config, entries: Entries, log: seq<Event>) {
    forall key :: Mirrors(cfg, entries, log, key)
  }

  /** Every commit drew its own revision. */
  ghost predicate RevisionsDiffer(log: seq<Event>) {
    forall n, m :: 0 <= n < m < |log| && log[n].Committed? && log[m].Committed? ==>
      log[n].snapshot.revision != log[m].snapshot.revision
  }

  ghost predicate UntouchedSince(log: seq<Event>, mark: nat, key: Key) {
    forall n :: mark <= n < |log| ==> !Touches(log[n], key)
  }

  /** Version `seen` of `key` was committed at some position below `mark`. */
  ghost predicate WasCommitted(log: seq<Event>, key: Key, revision: Id, mark: nat) {
    exists n :: 0 <= n < mark && CommitsAt(log, n, key) && log[n].snapshot.revision == revision
  }

  ghost predicate SeenBefore(log: seq<Event>, key: Key, seen: Snapshot) {
    exists n: nat :: CommitsAt(log, n, key) && log[n].snapshot == seen
  }

  ghost predicate ObservedBefore(log: seq<Event>, o: Observation) {
    o.revision.Some? ==> WasCommitted(log, o.key, o.revision.value, o.mark)
  }

  ghost predicate AllObserved(log: seq<Event>, permit: seq<Observation>) {
    forall i :: 0 <= i < |permit| ==> ObservedBefore(log, permit[i]) && !IsRequestFlow(permit[i].key.flow)
  }

  ghost predicate WellPlaced(cfg: Config, entries: Entries, log: seq<Event>, c: Call) {
    match c
    case Reading(keys, _, _, enforce, _) => OneKind(keys, enforce)
    case Swapping(keys, i, now, enforce, _, seen, replacement, mark) =>
      && OneKind(keys, enforce) && i < |keys| && mark <= |log|
      && (seen.Some? ==> SeenBefore(log, keys[i], seen.value))
      && NextState(keys[i], StateOf(seen), PolicyOf(cfg, keys[i]), now) == Success(replacement.state)
      && (enforce && seen.Some? ==> !Active(seen.value.state, now))
      && (UntouchedSince(log, mark, keys[i]) ==> Lookup(entries, keys[i]) == seen)
    case Guarding(keys, _, _, permit, _, _) => OneKind(keys, false) && AllObserved(log, permit)
    case Permitted(permit) => AllObserved(log, permit)
    case Clearing(permit, _) => AllObserved(log, permit)
    case Answered(_) => true
  }

  ghost predicate CallsHold(cfg: Config, entries: Entries, log: seq<Event>, calls: map<CallId, Call>) {
    forall c :: c in calls ==> WellPlaced(cfg, entries, log, calls[c])
  }

  ghost predicate Inv(cfg: Config, s: State) {
    && AllMirror(cfg, s.entries, s.log)
    && RevisionsDiffer(s.log)
    && CallsHold(cfg, s.entries, s.log, s.calls)
  }

  // ----- One more event ---------------------------------------------------------------

  /** `entries'` is `entries` after the event `e`, which changes only what it touches. */
  ghost predicate Follows(entries: Entries, entries': Entries, e: Event) {
    match e
    case Committed(_, key, snapshot, _, _) => entries' == entries[key := snapshot]
    case Erased(key, _) => entries' == entries - {key}
    case Reclaimed(keys) => entries' == entries - keys
  }

  lemma FollowingLeavesOthers(entries: Entries, entries': Entries, e: Event, key: Key)
    requires Follows(entries, entries', e) && !Touches(e, key)
    ensures Lookup(entries', key) == Lookup(entries, key)
  {
  }

  lemma UntouchedKeyMirrors(cfg: Config, entries: Entries, entries': Entries, log: seq<Event>, e: Event, key: Key)
    requires Mirrors(cfg, entries, log, key) && Lookup(entries', key) == Lookup(entries, key) && !Touches(e, key)
    ensures Mirrors(cfg, entries', log + [e], key)
  {
    AttemptsAfter(log, e, key);
    AttemptsAreCommits(log, key);
    FoldedOnLongerLog(PolicyOf(cfg, key), key, log, e, Attempts(log, key));
  }

  lemma RemovedKeyMirrors(cfg: Config, entries: Entries, entries': Entries, log: seq<Event>, e: Event, key: Key)
    requires Follows(entries, entries', e) && Touches(e, key) && !e.Committed?
    ensures Mirrors(cfg, entries', log + [e], key)
  {
    AttemptsAfter(log, e, key);
  }

  lemma CommittedKeyMirrors(cfg: Config, entries: Entries, entries': Entries, log: seq<Event>, e: Event)
    requires e.Committed? && Mirrors(cfg, entries, log, e.key) && Follows(entries, entries', e)
    requires NextState(e.key, StateOf(Lookup(entries, e.key)), PolicyOf(cfg, e.key), e.stamp) == Success(e.snapshot.state)
    ensures Mirrors(cfg, entries', log + [e], e.key)
  {
    var p, key, log' := PolicyOf(cfg, e.key), e.key, log + [e];
    AttemptsAfter(log, e, key);
    AttemptsAreCommits(log, key);
    var attempts := Attempts(log, key);
    FoldedOnLongerLog(p, key, log, e, attempts);
    assert (attempts + [|log|])[..|attempts|] == attempts;
  }

  /** What a committed event must satisfy: it continues the stored state. */
  ghost predicate Continues(cfg: Config, entries: Entries, e: Event) {
    e.Committed? ==>
      NextState(e.key, StateOf(Lookup(entries, e.key)), PolicyOf(cfg, e.key), e.stamp) == Success(e.snapshot.state)
  }

  lemma EventKeepsMirrors(cfg: Config, entries: Entries, entries': Entries, log: seq<Event>, e: Event)
    requires AllMirror(cfg, entries, log) && Follows(entries, entries', e) && Continues(cfg, entries, e)
    ensures AllMirror(cfg, entries', log + [e])
  {
    forall key
      ensures Mirrors(cfg, entries', log + [e], key)
    {
      if !Touches(e, key) {
        FollowingLeavesOthers(entries, entries', e, key);
        UntouchedKeyMirrors(cfg, entries, entries', log, e, key);
      } else if e.Committed? {
        CommittedKeyMirrors(cfg, entries, entries', log, e);
      } else {
        RemovedKeyMirrors(cfg, entries, entries', log, e, key);
      }
    }
  }

  lemma EventKeepsObservations(log: seq<Event>, e: Event, permit: seq<Observation>)
    requires AllObserved(log, permit)
    ensures AllObserved(log + [e], permit)
  {
    forall i | 0 <= i < |permit| && permit[i].revision.Some?
      ensures WasCommitted(log + [e], permit[i].key, permit[i].revision.value, permit[i].mark)
    {
      var o := permit[i];
      assert ObservedBefore(log, o);
      var n :| 0 <= n < o.mark && CommitsAt(log, n, o.key) && log[n].snapshot.revision == o.revision.value;
      assert CommitsAt(log + [e], n, o.key);
    }
  }

  lemma EventKeepsSeen(log: seq<Event>, e: Event, key: Key, seen: Snapshot)
    requires SeenBefore(log, key, seen)
    ensures SeenBefore(log + [e], key, seen)
  {
    var n: nat :| CommitsAt(log, n, key) && log[n].snapshot == seen;
    assert CommitsAt(log + [e], n, key);
  }

  lemma EventKeepsUntouched(
    entries: Entries, entries': Entries, log: seq<Event>, e: Event, mark: nat, key: Key, seen: Option<Snapshot>)
    requires Follows(entries, entries', e)
    requires UntouchedSince(log, mark, key) ==> Lookup(entries, key) == seen
    requires mark <= |log|
    ensures UntouchedSince(log + [e], mark, key) ==> Lookup(entries', key) == seen
  {
    if UntouchedSince(log + [e], mark, key) {
      assert (log + [e])[|log|] == e;
      forall n | mark <= n < |log|
        ensures !Touches(log[n], key)
      {
        assert (log + [e])[n] == log[n];
      }
      FollowingLeavesOthers(entries, entries', e, key);
    }
  }

  lemma EventKeepsPlace(cfg: Config, entries: Entries, entries': Entries, log: seq<Event>, e: Event, c: Call)
    requires Follows(entries, entries', e) && WellPlaced(cfg, entries, log, c)
    ensures WellPlaced(cfg, entries', log + [e], c)
  {
    match c
    case Swapping(keys, i, _, _, _, seen, _, mark) =>
      if seen.Some? {
        EventKeepsSeen(log, e, keys[i], seen.value);
      }
      EventKeepsUntouched(entries, entries', log, e, mark, keys[i], seen);
    case Guarding(_, _, _, permit, _, _) => EventKeepsObservations(log, e, permit);
    case Permitted(permit) => EventKeepsObservations(log, e, permit);
    case Clearing(permit, _) => EventKeepsObservations(log, e, permit);
    case _ =>
  }

  lemma EventKeepsCalls(
    cfg: Config, entries: Entries, entries': Entries, log: seq<Event>, e: Event, calls: map<CallId, Call>)
    requires Follows(entries, entries', e) && CallsHold(cfg, entries, log, calls)
    ensures CallsHold(cfg, entries', log + [e], calls)
  {
    forall c | c in calls
      ensures WellPlaced(cfg, entries', log + [e], calls[c])
    {
      EventKeepsPlace(cfg, entries, entries', log, e, calls[c]);
    }
  }

  lemma EventKeepsRevisions(log: seq<Event>, e: Event)
    requires RevisionsDiffer(log) && (e.Committed? ==> FreshRevision(log, e.snapshot.revision))
    ensures RevisionsDiffer(log + [e])
  {
  }

  lemma EventKeepsInv(cfg: Config, s: State, entries': Entries, e: Event)
    requires Inv(cfg, s) && Follows(s.entries, entries', e) && Continues(cfg, s.entries, e)
    requires e.Committed? ==> FreshRevision(s.log, e.snapshot.revision)
    ensures Inv(cfg, s.(entries := entries', log := s.log + [e]))
  {
    EventKeepsMirrors(cfg, s.entries, entries', s.log, e);
    EventKeepsRevisions(s.log, e);
    EventKeepsCalls(cfg, s.entries, entries', s.log, e, s.calls);
  }

  // ----- One step of a call -------------------------------------------------------------

  /** A version read from the store was committed before. */
  lemma FoundWasCommitted(cfg: Config, entries: Entries, log: seq<Event>, key: Key)
    requires Mirrors(cfg, entries, log, key) && key in entries
    ensures SeenBefore(log, key, entries[key])
    ensures WasCommitted(log, key, entries[key].revision, |log|)
  {
    var attempts := Attempts(log, key);
    var n := attempts[|attempts| - 1];
    assert CommitsAt(log, n, key) && log[n].snapshot == entries[key];
  }

  lemma ReadIsPlaced(cfg: Config, s: State, c: Call, revision: Id)
    requires AllMirror(cfg, s.entries, s.log) && c.Reading? && WellPlaced(cfg, s.entries, s.log, c)
    ensures WellPlaced(cfg, s.entries, s.log, Read(cfg, s, c, revision).call)
  {
    if c.i < |c.keys| && c.keys[c.i] in s.entries {
      assert Mirrors(cfg, s.entries, s.log, c.keys[c.i]);
      FoundWasCommitted(cfg, s.entries, s.log, c.keys[c.i]);
    }
  }

  lemma GuardIsPlaced(cfg: Config, s: State, c: Call)
    requires AllMirror(cfg, s.entries, s.log) && c.Guarding? && WellPlaced(cfg, s.entries, s.log, c)
    ensures WellPlaced(cfg, s.entries, s.log, Guard(s, c).call)
  {
    if c.i < |c.keys| {
      var key := c.keys[c.i];
      assert key in c.keys;
      if key in s.entries {
        assert Mirrors(cfg, s.entries, s.log, key);
        FoundWasCommitted(cfg, s.entries, s.log, key);
      }
    }
  }

  /** The revision identifies the version: a successful comparison means that the
      entry is the one that was read. */
  lemma MatchingRevisionIsSeen(cfg: Config, entries: Entries, log: seq<Event>, key: Key, seen: Option<Snapshot>)
    requires Mirrors(cfg, entries, log, key) && RevisionsDiffer(log)
    requires seen.Some? ==> SeenBefore(log, key, seen.value)
    requires Revision(entries, key) == RevisionOf(seen)
    ensures Lookup(entries, key) == seen
  {
    if seen.Some? {
      var n: nat :| CommitsAt(log, n, key) && log[n].snapshot == seen.value;
      var attempts := Attempts(log, key);
      var m := attempts[|attempts| - 1];
      assert CommitsAt(log, m, key) && log[m].snapshot == entries[key];
      assert log[n].snapshot.revision == log[m].snapshot.revision;
    }
  }

  lemma SwapIsPlaced(cfg: Config, s: State, id: CallId, c: Call)
    requires c.Swapping? && WellPlaced(cfg, s.entries, s.log, c)
    requires AllMirror(cfg, s.entries, s.log) && RevisionsDiffer(s.log)
    ensures Swap(s, id, c).call.Reading? && OneKind(Swap(s, id, c).call.keys, Swap(s, id, c).call.enforce)
    ensures Swap(s, id, c).event.Some? ==>
              && Swap(s, id, c).event.value.Committed?
              && Swap(s, id, c).event.value.snapshot == c.replacement
              && Follows(s.entries, Swap(s, id, c).entries, Swap(s, id, c).event.value)
              && Continues(cfg, s.entries, Swap(s, id, c).event.value)
              && Lookup(s.entries, c.keys[c.i]) == c.seen
    ensures Swap(s, id, c).event.None? ==> Swap(s, id, c).entries == s.entries
  {
    var key := c.keys[c.i];
    assert Mirrors(cfg, s.entries, s.log, key);
    if Revision(s.entries, key) == RevisionOf(c.seen) {
      MatchingRevisionIsSeen(cfg, s.entries, s.log, key, c.seen);
    }
  }

  lemma ClearOneIsPlaced(cfg: Config, s: State, c: Call)
    requires c.Clearing? && WellPlaced(cfg, s.entries, s.log, c)
    ensures WellPlaced(cfg, s.entries, s.log, ClearOne(s, c).call)
    ensures ClearOne(s, c).event.Some? ==>
              ClearOne(s, c).event.value.Erased? && Follows(s.entries, ClearOne(s, c).entries, ClearOne(s, c).event.value)
    ensures ClearOne(s, c).event.None? ==> ClearOne(s, c).entries == s.entries
  {
  }

  /** What one step of a call does: it is well placed afterwards, and the entries
      change only by a legitimate event. */
  lemma NextIsLegitimate(cfg: Config, s: State, id: CallId, c: Call, revision: Id)
    requires AllMirror(cfg, s.entries, s.log) && RevisionsDiffer(s.log)
    requires WellPlaced(cfg, s.entries, s.log, c)
    requires c.Swapping? ==> FreshRevision(s.log, c.replacement.revision)
    ensures var o := Next(cfg, s, id, c, revision);
            && WellPlaced(cfg, s.entries, s.log, o.call)
            && (o.event.None? ==> o.entries == s.entries)
            && (o.event.Some? ==>
                  && Follows(s.entries, o.entries, o.event.value) && Continues(cfg, s.entries, o.event.value)
                  && (o.event.value.Committed? ==> FreshRevision(s.log, o.event.value.snapshot.revision)))
  {
    match c
    case Reading(_, _, _, _, _) => ReadIsPlaced(cfg, s, c, revision);
    case Swapping(_, _, _, _, _, _, _, _) => SwapIsPlaced(cfg, s, id, c);
    case Guarding(_, _, _, _, _, _) => GuardIsPlaced(cfg, s, c);
    case Clearing(_, _) => ClearOneIsPlaced(cfg, s, c);
    case _ =>
  }

  lemma PlacedCallJoins(cfg: Config, s: State, c: CallId, call: Call)
    requires Inv(cfg, s) && WellPlaced(cfg, s.entries, s.log, call)
    ensures Inv(cfg, s.(calls := s.calls[c := call]))
  {
  }

  lemma OutcomeKeepsInv(cfg: Config, s: State, c: CallId, o: Outcome)
    requires Inv(cfg, s) && WellPlaced(cfg, s.entries, s.log, o.call)
    requires o.event.None? ==> o.entries == s.entries
    requires o.event.Some? ==>
               && Follows(s.entries, o.entries, o.event.value) && Continues(cfg, s.entries, o.event.value)
               && (o.event.value.Committed? ==> FreshRevision(s.log, o.event.value.snapshot.revision))
    ensures Inv(cfg, s.(entries := o.entries, calls := s.calls[c := o.call], log := Logged(s.log, o.event)))
  {
    var joined := s.(calls := s.calls[c := o.call]);
    PlacedCallJoins(cfg, s, c, o.call);
    if o.event.Some? {
      EventKeepsInv(cfg, joined, o.entries, o.event.value);
    }
  }

  lemma ObservedKeysAreCredential(log: seq<Event>, permit: seq<Observation>)
    requires AllObserved(log, permit)
    ensures OneKind(KeysOf(permit), false)
  {
    if permit != [] {
      forall i | 0 <= i < |permit[1..]|
        ensures ObservedBefore(log, permit[1..][i]) && !IsRequestFlow(permit[1..][i].key.flow)
      {
        assert permit[1..][i] == permit[i + 1];
      }
      ObservedKeysAreCredential(log, permit[1..]);
    }
  }

  lemma StepKeepsInv(cfg: Config, s: State, step: Step)
    requires Inv(cfg, s) && Enabled(cfg, s, step)
    ensures Inv(cfg, Apply(cfg, s, step))
  {
    match step
    case Tick(_) =>
    case Reclaim(keys) => EventKeepsInv(cfg, s, s.entries - keys, Reclaimed(keys));
    case BeginRecording(c, keys) => PlacedCallJoins(cfg, s, c, Reading(keys, 0, s.clock, Enforces(keys), 0));
    case BeginGuarding(c, keys) => PlacedCallJoins(cfg, s, c, Guarding(keys, 0, s.clock, [], None, None));
    case Resolve(c, succeeded) =>
      var permit := s.calls[c].permit;
      ObservedKeysAreCredential(s.log, permit);
      PlacedCallJoins(cfg, s, c, if succeeded then Clearing(permit, 0)
                                 else Reading(KeysOf(permit), 0, s.clock, false, 0));
    case Advance(c, revision) =>
      NextIsLegitimate(cfg, s, c, s.calls[c], revision);
      OutcomeKeepsInv(cfg, s, c, Next(cfg, s, c, s.calls[c], revision));
    case Abort(c) => PlacedCallJoins(cfg, s, c, Answered(Aborted));
  }

  lemma {:induction false} RunKeepsInv(cfg: Config, run: seq<State>, steps: seq<Step>, k: nat)
    requires IsRun(cfg, run, steps) && k < |run|
    ensures Inv(cfg, run[k])
  {
    if k == 0 {
      EmptyHolds(cfg, run[0]);
    } else {
      RunKeepsInv(cfg, run, steps, k - 1);
      StepKeepsInv(cfg, run[k - 1], steps[k - 1]);
    }
  }

  lemma EmptyHolds(cfg: Config, s: State)
    requires Init(s)
    ensures Inv(cfg, s)
  {
  }
}
