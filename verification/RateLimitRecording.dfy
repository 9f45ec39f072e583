/** What "recorded" means: which commits are a call's own. */
module RateLimitRecording {
  import opened Common
  import opened RateLimitPolicy
  import opened RateLimitMemoryStore
  import opened RateLimitProtocol

  predicate Commits(e: Event, c: CallId) {
    e.Committed? && e.call == c
  }

  /** Positions of the commits that call `c` made, in order. */
  function CommitsOf(log: seq<Event>, c: CallId): seq<nat> {
    if log == [] then []
    else CommitsOf(log[..|log| - 1], c) + if Commits(log[|log| - 1], c) then [|log| - 1] else []
  }

  lemma CommitsAfter(log: seq<Event>, e: Event, c: CallId)
    ensures CommitsOf(log + [e], c) == CommitsOf(log, c) + if Commits(e, c) then [|log|] else []
  {
    assert (log + [e])[..|log|] == log;
  }

  /** The positions rise, and are exactly those of the call's own commits. */
  lemma {:induction false} CommitsAreOwn(log: seq<Event>, c: CallId)
    ensures forall n: nat :: n in CommitsOf(log, c) <==> n < |log| && Commits(log[n], c)
    ensures forall i, j :: 0 <= i < j < |CommitsOf(log, c)| ==> CommitsOf(log, c)[i] < CommitsOf(log, c)[j]
  {
    if log != [] {
      CommitsAreOwn(log[..|log| - 1], c);
      var before := CommitsOf(log[..|log| - 1], c);
      forall i | 0 <= i < |before|
        ensures before[i] < |log| - 1
      {
        assert before[i] in before;
      }
    }
  }

  predicate CommitsKey(log: seq<Event>, n: nat, c: CallId, key: Key, now: Time) {
    n < |log| && Commits(log[n], c) && log[n].key == key && log[n].stamp == now
  }

  /** The commits of call `c` are one on each of the first `i` keys, in order, and no
      others, all stamped with the same instant. */
  ghost predicate Records(log: seq<Event>, c: CallId, keys: seq<Key>, i: nat, now: Time) {
    && i <= |keys| && |CommitsOf(log, c)| == i
    && forall n :: 0 <= n < i ==> CommitsKey(log, CommitsOf(log, c)[n], c, keys[n], now)
  }

  lemma OthersKeepRecords(log: seq<Event>, e: Event, c: CallId, keys: seq<Key>, i: nat, now: Time)
    requires Records(log, c, keys, i, now) && !Commits(e, c)
    ensures Records(log + [e], c, keys, i, now)
  {
    CommitsAfter(log, e, c);
    forall n | 0 <= n < i
      ensures CommitsKey(log + [e], CommitsOf(log, c)[n], c, keys[n], now)
    {
      assert CommitsKey(log, CommitsOf(log, c)[n], c, keys[n], now);
    }
  }

  lemma OwnCommitRecords(log: seq<Event>, e: Event, c: CallId, keys: seq<Key>, i: nat, now: Time)
    requires Records(log, c, keys, i, now) && i < |keys|
    requires Commits(e, c) && e.key == keys[i] && e.stamp == now
    ensures Records(log + [e], c, keys, i + 1, now)
  {
    CommitsAfter(log, e, c);
    assert CommitsKey(log + [e], |log|, c, keys[i], now);
    forall n | 0 <= n < i
      ensures CommitsKey(log + [e], CommitsOf(log, c)[n], c, keys[n], now)
    {
      assert CommitsKey(log, CommitsOf(log, c)[n], c, keys[n], now);
    }
  }

  /** The log grew, but not by commits of call `c`. */
  ghost predicate KeepsCommits(before: seq<Event>, after: seq<Event>, c: CallId) {
    before <= after && CommitsOf(after, c) == CommitsOf(before, c)
  }

  /** The log grew, and among what was added is exactly one commit of call `c`, on `key`. */
  ghost predicate AddsCommit(before: seq<Event>, after: seq<Event>, c: CallId, key: Key, now: Time) {
    && before <= after
    && exists n: nat :: |before| <= n && CommitsKey(after, n, c, key, now) && CommitsOf(after, c) == CommitsOf(before, c) + [n]
  }

  lemma KeptThenKept(a: seq<Event>, b: seq<Event>, d: seq<Event>, c: CallId)
    requires KeepsCommits(a, b, c) && KeepsCommits(b, d, c)
    ensures KeepsCommits(a, d, c)
  {
  }

  lemma KeptThenAdded(a: seq<Event>, b: seq<Event>, d: seq<Event>, c: CallId, key: Key, now: Time)
    requires KeepsCommits(a, b, c) && AddsCommit(b, d, c, key, now)
    ensures AddsCommit(a, d, c, key, now)
  {
  }

  lemma OtherEventIsKept(log: seq<Event>, e: Event, c: CallId)
    requires !Commits(e, c)
    ensures KeepsCommits(log, log + [e], c)
  {
    CommitsAfter(log, e, c);
  }

  lemma OwnEventIsAdded(log: seq<Event>, e: Event, c: CallId)
    requires Commits(e, c)
    ensures AddsCommit(log, log + [e], c, e.key, e.stamp)
  {
    CommitsAfter(log, e, c);
    assert CommitsKey(log + [e], |log|, c, e.key, e.stamp);
  }

  /** Commits that are recorded stay recorded, and one more on the next key extends them. */
  lemma RecordsGrow(before: seq<Event>, after: seq<Event>, c: CallId, keys: seq<Key>, i: nat, now: Time)
    requires Records(before, c, keys, i, now)
    ensures KeepsCommits(before, after, c) ==> Records(after, c, keys, i, now)
    ensures i < |keys| && AddsCommit(before, after, c, keys[i], now) ==> Records(after, c, keys, i + 1, now)
  {
    if before <= after {
      forall n | 0 <= n < i
        ensures CommitsKey(after, CommitsOf(before, c)[n], c, keys[n], now)
      {
        assert CommitsKey(before, CommitsOf(before, c)[n], c, keys[n], now);
      }
    }
  }

  // ----- The commits of a call, along a run ---------------------------------------------------

  /** A recording of `keys` begins: by itself, or after the call whose guard permitted it failed. */
  predicate BeginsRecording(s: State, step: Step, c: CallId, keys: seq<Key>, now: Time) {
    && s.clock == now
    && (step == BeginRecording(c, keys)
        || (step == Resolve(c, false) && c in s.calls && s.calls[c].Permitted? && KeysOf(s.calls[c].permit) == keys))
  }

  ghost predicate BeganRecording(run: seq<State>, steps: seq<Step>, k: nat, c: CallId, keys: seq<Key>, now: Time) {
    exists j: nat :: j < k && j < |run| && j < |steps| && BeginsRecording(run[j], steps[j], c, keys, now)
  }

  ghost predicate RecordedAll(run: seq<State>, steps: seq<Step>, k: nat, log: seq<Event>, c: CallId) {
    exists keys, now :: BeganRecording(run, steps, k, c, keys, now) && Records(log, c, keys, |keys|, now)
  }

  /** A recording that stopped at some key has recorded those before it. */
  ghost predicate RecordedSome(run: seq<State>, steps: seq<Step>, k: nat, log: seq<Event>, c: CallId) {
    exists keys, i: nat, now ::
      i < |keys| && BeganRecording(run, steps, k, c, keys, now) && Records(log, c, keys, i, now)
  }

  /** What the history says of a call at its position. */
  ghost predicate Accounts(run: seq<State>, steps: seq<Step>, k: nat, log: seq<Event>, c: CallId, call: Call) {
    match call
    case Reading(keys, i, now, _, _) => BeganRecording(run, steps, k, c, keys, now) && Records(log, c, keys, i, now)
    case Swapping(keys, i, now, _, _, _, _, _) =>
      BeganRecording(run, steps, k, c, keys, now) && Records(log, c, keys, i, now)
    case Answered(Recorded) => RecordedAll(run, steps, k, log, c)
    case Answered(Denied) => RecordedSome(run, steps, k, log, c)
    case Answered(RetryLimit) => RecordedSome(run, steps, k, log, c)
    case Answered(_) => true
    case _ => CommitsOf(log, c) == []
  }

  lemma LaterStillBegan(run: seq<State>, steps: seq<Step>, k: nat, c: CallId, keys: seq<Key>, now: Time)
    requires BeganRecording(run, steps, k, c, keys, now)
    ensures BeganRecording(run, steps, k + 1, c, keys, now)
  {
  }

  /** Other events, and time passing, leave the account as it was. */
  lemma AccountStands(run: seq<State>, steps: seq<Step>, k: nat, log: seq<Event>, e: Option<Event>, c: CallId, call: Call)
    requires Accounts(run, steps, k, log, c, call) && (e.Some? ==> !Commits(e.value, c))
    ensures Accounts(run, steps, k + 1, Logged(log, e), c, call)
  {
    if e.Some? {
      CommitsAfter(log, e.value, c);
    }
    match call
    case Reading(keys, i, now, _, _) => KeepsRecords(log, e, c, keys, i, now);
    case Swapping(keys, i, now, _, _, _, _, _) => KeepsRecords(log, e, c, keys, i, now);
    case Answered(Recorded) =>
      var keys, now :| BeganRecording(run, steps, k, c, keys, now) && Records(log, c, keys, |keys|, now);
      LaterStillBegan(run, steps, k, c, keys, now);
      KeepsRecords(log, e, c, keys, |keys|, now);
    case Answered(Denied) => StoppedStands(run, steps, k, log, e, c);
    case Answered(RetryLimit) => StoppedStands(run, steps, k, log, e, c);
    case _ =>
  }

  lemma StoppedStands(run: seq<State>, steps: seq<Step>, k: nat, log: seq<Event>, e: Option<Event>, c: CallId)
    requires RecordedSome(run, steps, k, log, c) && (e.Some? ==> !Commits(e.value, c))
    ensures RecordedSome(run, steps, k + 1, Logged(log, e), c)
  {
    var keys, i: nat, now :|
      i < |keys| && BeganRecording(run, steps, k, c, keys, now) && Records(log, c, keys, i, now);
    LaterStillBegan(run, steps, k, c, keys, now);
    KeepsRecords(log, e, c, keys, i, now);
  }

  lemma KeepsRecords(log: seq<Event>, e: Option<Event>, c: CallId, keys: seq<Key>, i: nat, now: Time)
    requires Records(log, c, keys, i, now) && (e.Some? ==> !Commits(e.value, c))
    ensures Records(Logged(log, e), c, keys, i, now)
  {
    if e.Some? {
      OthersKeepRecords(log, e.value, c, keys, i, now);
    }
  }

  lemma ReadAccounts(cfg: Config, run: seq<State>, steps: seq<Step>, k: nat, c: CallId, call: Call, revision: Id)
    requires k < |run| && call.Reading? && Accounts(run, steps, k, run[k].log, c, call)
    ensures Accounts(run, steps, k + 1, run[k].log, c, Read(cfg, run[k], call, revision).call)
  {
    LaterStillBegan(run, steps, k, c, call.keys, call.now);
  }

  lemma SwapAccounts(run: seq<State>, steps: seq<Step>, k: nat, c: CallId, call: Call)
    requires k < |run| && call.Swapping? && Accounts(run, steps, k, run[k].log, c, call)
    ensures var o := Swap(run[k], c, call); Accounts(run, steps, k + 1, Logged(run[k].log, o.event), c, o.call)
  {
    var o := Swap(run[k], c, call);
    LaterStillBegan(run, steps, k, c, call.keys, call.now);
    if o.event.Some? {
      OwnCommitRecords(run[k].log, o.event.value, c, call.keys, call.i, call.now);
    }
  }

  lemma QuietAccounts(cfg: Config, run: seq<State>, steps: seq<Step>, k: nat, c: CallId, call: Call, revision: Id)
    requires k < |run| && (call.Guarding? || call.Clearing?) && Accounts(run, steps, k, run[k].log, c, call)
    ensures var o := Next(cfg, run[k], c, call, revision); Accounts(run, steps, k + 1, Logged(run[k].log, o.event), c, o.call)
  {
    hide NextState, Read, Swap, Records, BeganRecording;
    var o := Next(cfg, run[k], c, call, revision);
    if o.event.Some? {
      CommitsAfter(run[k].log, o.event.value, c);
    }
  }

  /** Every step of the call itself. */
  lemma AdvanceAccounts(cfg: Config, run: seq<State>, steps: seq<Step>, k: nat, c: CallId, call: Call, revision: Id)
    requires k < |run| && !call.Permitted? && !call.Answered? && Accounts(run, steps, k, run[k].log, c, call)
    ensures var o := Next(cfg, run[k], c, call, revision); Accounts(run, steps, k + 1, Logged(run[k].log, o.event), c, o.call)
  {
    hide Accounts, Read, Swap, Guard, ClearOne;
    match call
    case Reading(_, _, _, _, _) =>
      ReadStays(cfg, run[k], call, revision);
      ReadAccounts(cfg, run, steps, k, c, call, revision);
    case Swapping(_, _, _, _, _, _, _, _) => SwapAccounts(run, steps, k, c, call);
    case _ => QuietAccounts(cfg, run, steps, k, c, call, revision);
  }

  lemma ReadStays(cfg: Config, s: State, call: Call, revision: Id)
    requires call.Reading?
    ensures Read(cfg, s, call, revision).event.None?
  {
  }

  /** Step `k` is a step of call `c`. */
  ghost predicate OwnStep(cfg: Config, run: seq<State>, steps: seq<Step>, k: nat, c: CallId)
    requires k + 1 < |run| && k < |steps|
  {
    && steps[k].Advance? && steps[k].call == c
    && c in run[k].calls && !run[k].calls[c].Permitted? && !run[k].calls[c].Answered? && c in run[k + 1].calls
    && var o := Next(cfg, run[k], c, run[k].calls[c], steps[k].revision);
       run[k + 1].calls[c] == o.call && run[k + 1].log == Logged(run[k].log, o.event)
  }

  /** Step `k` logs `e`, if anything, and does not advance call `c`. */
  ghost predicate OtherStep(run: seq<State>, steps: seq<Step>, k: nat, c: CallId, e: Option<Event>)
    requires k + 1 < |run| && k < |steps|
  {
    && run[k + 1].log == Logged(run[k].log, e) && (e.Some? ==> !Commits(e.value, c))
    && (c !in run[k + 1].calls ==> c !in run[k].calls)
    && (c in run[k + 1].calls ==>
          || (c in run[k].calls && run[k + 1].calls[c] == run[k].calls[c])
          || (e.None? && ByItself(run[k], steps[k], c, run[k + 1].calls[c])))
  }

  lemma StepAccounts(cfg: Config, run: seq<State>, steps: seq<Step>, k: nat, c: CallId)
    requires IsRun(cfg, run, steps) && k + 1 < |run|
    ensures OwnStep(cfg, run, steps, k, c) || exists e :: OtherStep(run, steps, k, c, e)
  {
    var s, step := run[k], steps[k];
    assert Enabled(cfg, s, step) && run[k + 1] == Apply(cfg, s, step);
    match step
    case Advance(d, revision) =>
      var e := Next(cfg, s, d, s.calls[d], revision).event;
      if d != c {
        if e.Some? {
          OthersCommitTheirs(cfg, s, d, s.calls[d], revision, c);
        }
        assert OtherStep(run, steps, k, c, e);
      }
    case Reclaim(keys) => assert OtherStep(run, steps, k, c, Some(Reclaimed(keys)));
    case _ => assert OtherStep(run, steps, k, c, None);
  }

  lemma OthersCommitTheirs(cfg: Config, s: State, d: CallId, call: Call, revision: Id, c: CallId)
    requires c != d && Next(cfg, s, d, call, revision).event.Some?
    ensures !Commits(Next(cfg, s, d, call, revision).event.value, c)
  {
  }

  /** The position a call is put into by beginning, being resolved, or being given up. */
  predicate ByItself(s: State, step: Step, c: CallId, call: Call) {
    match step
    case BeginRecording(d, keys) => d == c && c !in s.calls && call == Reading(keys, 0, s.clock, Enforces(keys), 0)
    case BeginGuarding(d, keys) => d == c && c !in s.calls && call == Guarding(keys, 0, s.clock, [], None, None)
    case Resolve(d, succeeded) =>
      && d == c && c in s.calls && s.calls[c].Permitted?
      && call == if succeeded then Clearing(s.calls[c].permit, 0)
                 else Reading(KeysOf(s.calls[c].permit), 0, s.clock, false, 0)
    case Abort(d) => d == c && call == Answered(Aborted)
    case _ => false
  }

  lemma BeginningAccounts(run: seq<State>, steps: seq<Step>, k: nat, c: CallId, call: Call)
    requires k < |run| && k < |steps| && ByItself(run[k], steps[k], c, call)
    requires c !in run[k].calls || run[k].calls[c].Permitted? ==> CommitsOf(run[k].log, c) == []
    ensures Accounts(run, steps, k + 1, run[k].log, c, call)
  {
    if call.Reading? {
      assert BeginsRecording(run[k], steps[k], c, call.keys, call.now);
    }
  }

  /** Along every run, the history accounts for each call: one that has not begun, or is
      still guarding, has committed nothing; one that records has committed once on each
      key it has passed. */
  lemma {:induction false} HistoryAccounts(cfg: Config, run: seq<State>, steps: seq<Step>, k: nat, c: CallId)
    requires IsRun(cfg, run, steps) && k < |run|
    ensures c !in run[k].calls ==> CommitsOf(run[k].log, c) == []
    ensures c in run[k].calls ==> Accounts(run, steps, k, run[k].log, c, run[k].calls[c])
  {
    if k > 0 {
      HistoryAccounts(cfg, run, steps, k - 1, c);
      StepKeepsAccount(cfg, run, steps, k - 1, c);
    }
  }

  lemma StepKeepsAccount(cfg: Config, run: seq<State>, steps: seq<Step>, k: nat, c: CallId)
    requires IsRun(cfg, run, steps) && k + 1 < |run|
    requires c !in run[k].calls ==> CommitsOf(run[k].log, c) == []
    requires c in run[k].calls ==> Accounts(run, steps, k, run[k].log, c, run[k].calls[c])
    ensures c !in run[k + 1].calls ==> CommitsOf(run[k + 1].log, c) == []
    ensures c in run[k + 1].calls ==> Accounts(run, steps, k + 1, run[k + 1].log, c, run[k + 1].calls[c])
  {
    StepAccounts(cfg, run, steps, k, c);
    if OwnStep(cfg, run, steps, k, c) {
      AdvanceAccounts(cfg, run, steps, k, c, run[k].calls[c], steps[k].revision);
    } else {
      var e :| OtherStep(run, steps, k, c, e);
      if e.Some? {
        CommitsAfter(run[k].log, e.value, c);
      }
      if c in run[k + 1].calls {
        if c in run[k].calls && run[k + 1].calls[c] == run[k].calls[c] {
          AccountStands(run, steps, k, run[k].log, e, c, run[k].calls[c]);
        } else {
          BeginningAccounts(run, steps, k, c, run[k + 1].calls[c]);
        }
      }
    }
  }

  /** A call that answers "recorded" has committed exactly one attempt on each of the keys
      it began with, in their order, all stamped with the one instant it began at. */
  lemma RecordedIsCommitted(cfg: Config, run: seq<State>, steps: seq<Step>, k: nat, c: CallId)
    requires IsRun(cfg, run, steps) && k < |run| && c in run[k].calls && run[k].calls[c] == Answered(Recorded)
    ensures exists keys, now :: BeganRecording(run, steps, k, c, keys, now) && Records(run[k].log, c, keys, |keys|, now)
  {
    HistoryAccounts(cfg, run, steps, k, c);
  }
}
