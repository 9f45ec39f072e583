/** Recording, guarding and clearing of abuse counters as one state machine over a
    store with compare-and-swap and conditional clear (src/service.rs, src/stores.rs). */
module RateLimitProtocol {
  import opened Common
  import opened RateLimitPolicy
  import opened RateLimitMemoryStore

  const MAX_RATE_LIMIT_CAS_RETRIES: nat := 256

  /** The two policies of the service. */
  datatype Config = Config(credential: Policy, request: Policy)

  ghost predicate ValidConfig(cfg: Config) {
    ValidPolicy(cfg.credential) && ValidPolicy(cfg.request)
  }

  /** Email requests are throttled by admission; every other flow counts failures. */
  predicate IsRequestFlow(flow: Flow) {
    flow == PasswordResetRequest || flow == LoginCodeRequest
  }

  function PolicyOf(cfg: Config, key: Key): Policy {
    if IsRequestFlow(key.flow) then cfg.request else cfg.credential
  }

  type CallId = nat

  /** What a guard saw for one key, and (history) how long the log was then. */
  datatype Observation = Observation(key: Key, revision: Option<Id>, mark: nat)

  datatype Answer =
    | Recorded
    | Denied
    | Locked(until: Time)
    | Throttled(until: Time)
    | Cleared
    | Failed
    | Aborted
    | RetryLimit

  /** Where a call stands. `now` is read once, before the loop over the keys.
      `mark` is history: the length of the log when the entry was read. */
  datatype Call =
    | Reading(keys: seq<Key>, i: nat, now: Time, enforce: bool, tries: nat)
    | Swapping(keys: seq<Key>, i: nat, now: Time, enforce: bool, tries: nat,
               seen: Option<Snapshot>, replacement: Snapshot, mark: nat)
    | Guarding(keys: seq<Key>, i: nat, now: Time, permit: seq<Observation>, locked: Option<Time>, backoff: Option<Time>)
    | Permitted(permit: seq<Observation>)
    | Clearing(permit: seq<Observation>, i: nat)
    | Answered(answer: Answer)

  /** What has happened to entries, in commit order. */
  datatype Event =
    | Committed(call: CallId, key: Key, snapshot: Snapshot, stamp: Time, committedAt: Time)
    | Erased(key: Key, revision: Id)
    | Reclaimed(keys: set<Key>)

  datatype State = State(entries: Entries, calls: map<CallId, Call>, clock: Time, log: seq<Event>)

  datatype Step =
    | Tick(clock: Time)
    | Reclaim(expired: set<Key>)
    | BeginRecording(call: CallId, keys: seq<Key>)
    | BeginGuarding(call: CallId, keys: seq<Key>)
    | Resolve(call: CallId, succeeded: bool)
    | Advance(call: CallId, revision: Id)
    | Abort(call: CallId)

  predicate Init(s: State) {
    s.entries == map[] && s.calls == map[] && s.log == []
  }

  /** No stored version ever carried this revision. */
  predicate FreshRevision(log: seq<Event>, revision: Id) {
    forall n :: 0 <= n < |log| && log[n].Committed? ==> log[n].snapshot.revision != revision
  }

  function RevisionOf(seen: Option<Snapshot>): Option<Id> {
    if seen.Some? then Some(seen.value.revision) else None
  }

  function StateOf(seen: Option<Snapshot>): Option<RateState> {
    if seen.Some? then Some(seen.value.state) else None
  }

  datatype Outcome = Outcome(entries: Entries, call: Call, event: Option<Event>)

  function Stay(s: State, call: Call): Outcome {
    Outcome(s.entries, call, None)
  }

  /** The first half of the retry loop: find, refuse, compute the next state. */
  function Read(cfg: Config, s: State, c: Call, revision: Id): Outcome
    requires c.Reading?
  {
    if c.i >= |c.keys| then Stay(s, Answered(Recorded))
    else if c.tries >= MAX_RATE_LIMIT_CAS_RETRIES then Stay(s, Answered(RetryLimit))
    else
      var key := c.keys[c.i];
      var seen := Lookup(s.entries, key);
      if c.enforce && seen.Some? && Active(seen.value.state, c.now) then Stay(s, Answered(Denied))
      else match NextState(key, StateOf(seen), PolicyOf(cfg, key), c.now)
        case Failure(_) => Stay(s, Answered(Failed))
        case Success(next) =>
          Stay(s, Swapping(c.keys, c.i, c.now, c.enforce, c.tries, seen, Snapshot(next, revision), |s.log|))
  }

  /** The second half: compare and swap. */
  function Swap(s: State, id: CallId, c: Call): Outcome
    requires c.Swapping?
  {
    if c.i >= |c.keys| then Stay(s, Answered(Failed))
    else
      var key := c.keys[c.i];
      if Revision(s.entries, key) == RevisionOf(c.seen) then
        Outcome(s.entries[key := c.replacement],
                Reading(c.keys, c.i + 1, c.now, c.enforce, 0),
                Some(Committed(id, key, c.replacement, c.now, s.clock)))
      else Stay(s, Reading(c.keys, c.i, c.now, c.enforce, c.tries + 1))
  }

  /** One key of `reject_if_rate_limited`, or its verdict after the last one. */
  function Guard(s: State, c: Call): Outcome
    requires c.Guarding?
  {
    if c.i >= |c.keys| then
      Stay(s, if c.locked.Some? then Answered(Locked(c.locked.value))
              else if c.backoff.Some? then Answered(Throttled(c.backoff.value))
              else Permitted(c.permit))
    else
      var key := c.keys[c.i];
      var found := Lookup(s.entries, key);
      var permit := c.permit + [Observation(key, RevisionOf(found), |s.log|)];
      if found.None? || found.value.state.expiresAt <= c.now then
        Stay(s, c.(i := c.i + 1, permit := permit))
      else
        var state := found.value.state;
        if state.lockedUntil.Some? && state.lockedUntil.value > c.now then
          Stay(s, c.(i := c.i + 1, permit := permit, locked := Some(MaxTime(c.locked, state.lockedUntil.value))))
        else if state.backoffUntil.Some? && state.backoffUntil.value > c.now then
          Stay(s, c.(i := c.i + 1, permit := permit, backoff := Some(MaxTime(c.backoff, state.backoffUntil.value))))
        else Stay(s, c.(i := c.i + 1, permit := permit))
  }

  /** One observation of `clear_rate_limit_attempts`. */
  function ClearOne(s: State, c: Call): Outcome
    requires c.Clearing?
  {
    if c.i >= |c.permit| then Stay(s, Answered(Cleared))
    else
      var o := c.permit[c.i];
      if o.revision.Some? && Revision(s.entries, o.key) == o.revision then
        Outcome(s.entries - {o.key}, Clearing(c.permit, c.i + 1), Some(Erased(o.key, o.revision.value)))
      else Stay(s, Clearing(c.permit, c.i + 1))
  }

  function Next(cfg: Config, s: State, id: CallId, c: Call, revision: Id): Outcome {
    match c
    case Reading(_, _, _, _, _) => Read(cfg, s, c, revision)
    case Swapping(_, _, _, _, _, _, _, _) => Swap(s, id, c)
    case Guarding(_, _, _, _, _, _) => Guard(s, c)
    case Permitted(_) => Stay(s, c)
    case Clearing(_, _) => ClearOne(s, c)
    case Answered(_) => Stay(s, c)
  }

  function KeysOf(seen: seq<Observation>): seq<Key> {
    if seen == [] then [] else [seen[0].key] + KeysOf(seen[1..])
  }

  /** All keys of one call belong to one flow, hence to one kind of policy. */
  predicate OneKind(keys: seq<Key>, request: bool) {
    forall key :: key in keys ==> IsRequestFlow(key.flow) == request
  }

  ghost predicate Enabled(cfg: Config, s: State, step: Step) {
    match step
    case Tick(_) => true
    case Reclaim(keys) => forall key :: key in keys ==> key in s.entries && s.entries[key].state.expiresAt <= s.clock
    case BeginRecording(c, keys) => c !in s.calls && (OneKind(keys, true) || OneKind(keys, false))
    case BeginGuarding(c, keys) => c !in s.calls && OneKind(keys, false)
    case Resolve(c, _) => c in s.calls && s.calls[c].Permitted?
    case Advance(c, revision) =>
      && c in s.calls && !s.calls[c].Permitted? && !s.calls[c].Answered?
      && (s.calls[c].Swapping? ==> FreshRevision(s.log, s.calls[c].replacement.revision))
    case Abort(c) => c in s.calls && !s.calls[c].Answered?
  }

  function Logged(log: seq<Event>, event: Option<Event>): seq<Event> {
    if event.Some? then log + [event.value] else log
  }

  /** A request is admitted under its own policy: request flows enforce before they record. */
  predicate Enforces(keys: seq<Key>) {
    keys != [] && IsRequestFlow(keys[0].flow)
  }

  ghost function Apply(cfg: Config, s: State, step: Step): State
    requires Enabled(cfg, s, step)
  {
    match step
    case Tick(clock) => s.(clock := clock)
    case Reclaim(keys) => s.(entries := s.entries - keys, log := s.log + [Reclaimed(keys)])
    case BeginRecording(c, keys) => s.(calls := s.calls[c := Reading(keys, 0, s.clock, Enforces(keys), 0)])
    case BeginGuarding(c, keys) => s.(calls := s.calls[c := Guarding(keys, 0, s.clock, [], None, None)])
    case Resolve(c, succeeded) =>
      var permit := s.calls[c].permit;
      s.(calls := s.calls[c := if succeeded then Clearing(permit, 0) else Reading(KeysOf(permit), 0, s.clock, false, 0)])
    case Advance(c, revision) =>
      var o := Next(cfg, s, c, s.calls[c], revision);
      s.(entries := o.entries, calls := s.calls[c := o.call], log := Logged(s.log, o.event))
    case Abort(c) => s.(calls := s.calls[c := Answered(Aborted)])
  }

  ghost predicate IsRun(cfg: Config, run: seq<State>, steps: seq<Step>) {
    && |run| == |steps| + 1
    && Init(run[0])
    && forall i :: 0 <= i < |steps| ==> Enabled(cfg, run[i], steps[i]) && run[i + 1] == Apply(cfg, run[i], steps[i])
  }

  /** All instances and the store read one clock that never goes back. */
  ghost predicate SharedClock(run: seq<State>) {
    forall i, j :: 0 <= i <= j < |run| ==> run[i].clock <= run[j].clock
  }
}
