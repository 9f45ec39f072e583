/** What a clear has cleared, and why a recording gives up. */
module RateLimitAnswers {
  import opened Common
  import opened RateLimitPolicy
  import opened RateLimitMemoryStore
  import opened RateLimitProtocol
  import opened RateLimitInvariants

  /** Step `j` was one of call `c` itself. */
  predicate OwnStep(run: seq<State>, steps: seq<Step>, j: nat, c: CallId) {
    && j < |run| && j < |steps| && steps[j].Advance? && steps[j].call == c
    && c in run[j].calls && !run[j].calls[c].Answered?
  }

  lemma OwnStepMoves(cfg: Config, run: seq<State>, steps: seq<Step>, k: nat, c: CallId)
    requires IsRun(cfg, run, steps) && k + 1 < |run| && OwnStep(run, steps, k, c)
    ensures c in run[k + 1].calls
    ensures run[k + 1].calls[c] == Next(cfg, run[k], c, run[k].calls[c], steps[k].revision).call
    ensures run[k + 1].entries == Next(cfg, run[k], c, run[k].calls[c], steps[k].revision).entries
  {
    assert Enabled(cfg, run[k], steps[k]) && run[k + 1] == Apply(cfg, run[k], steps[k]);
  }

  /** The position a call is put into by beginning, being resolved, or being given up. */
  predicate ByItself(s: State, step: Step, c: CallId, call: Call) {
    match step
    case BeginRecording(d, keys) => d == c && c !in s.calls && call == Reading(keys, 0, s.clock, Enforces(keys), 0)
    case BeginGuarding(d, keys) => d == c && c !in s.calls && call == Guarding(keys, 0, s.clock, [], None, None)
    case Resolve(d, succeeded) =>
      && d == c && c in s.calls && s.calls[c].Permitted?
      && call == if succeeded then Clearing(s.calls[c].permit, 0)
                 else Reading(KeysOf(s.calls[c].permit), 0, s.clock, false, 0)
    case Abort(d) => d == c && call == Answered(Aborted)
    case _ => false
  }

  lemma CallMoves(cfg: Config, run: seq<State>, steps: seq<Step>, k: nat, c: CallId)
    requires IsRun(cfg, run, steps) && k + 1 < |run|
    ensures k < |steps| && (c in run[k].calls ==> c in run[k + 1].calls)
    ensures c in run[k + 1].calls && !OwnStep(run, steps, k, c) ==>
              || (c in run[k].calls && run[k + 1].calls[c] == run[k].calls[c])
              || ByItself(run[k], steps[k], c, run[k + 1].calls[c])
  {
    assert Enabled(cfg, run[k], steps[k]) && run[k + 1] == Apply(cfg, run[k], steps[k]);
  }

  // ----- Clearing -------------------------------------------------------------------------

  /** Step `j` is the one in which call `c` turned to the `n`-th observation of its permit:
      an entry still at the version observed is gone, and every other one is untouched. */
  predicate ClearsAt(run: seq<State>, steps: seq<Step>, j: nat, c: CallId, permit: seq<Observation>, n: nat) {
    && OwnStep(run, steps, j, c) && run[j].calls[c] == Clearing(permit, n) && n < |permit| && j + 1 < |run|
    && var entries, o := run[j].entries, permit[n];
       run[j + 1].entries ==
         if o.key in entries && Some(entries[o.key].revision) == o.revision then entries - {o.key} else entries
  }

  ghost predicate HadItsTurn(run: seq<State>, steps: seq<Step>, k: nat, c: CallId, permit: seq<Observation>, n: nat) {
    exists j: nat :: j < k && ClearsAt(run, steps, j, c, permit, n)
  }

  /** All observations before the `i`-th have had their turn. */
  ghost predicate ClearedUpTo(run: seq<State>, steps: seq<Step>, k: nat, c: CallId, permit: seq<Observation>, i: nat) {
    forall n: nat :: n < i ==> HadItsTurn(run, steps, k, c, permit, n)
  }

  /** The permit that a call is clearing is the one its guard had given it. */
  ghost predicate WasPermitted(run: seq<State>, k: nat, c: CallId, permit: seq<Observation>) {
    exists m: nat :: m < k && m < |run| && c in run[m].calls && run[m].calls[c] == Permitted(permit)
  }

  ghost predicate ClearedAll(run: seq<State>, steps: seq<Step>, k: nat, c: CallId, permit: seq<Observation>) {
    WasPermitted(run, k, c, permit) && ClearedUpTo(run, steps, k, c, permit, |permit|)
  }

  ghost predicate ClearingHolds(run: seq<State>, steps: seq<Step>, k: nat, c: CallId, call: Call) {
    match call
    case Clearing(permit, i) => i <= |permit| && WasPermitted(run, k, c, permit) && ClearedUpTo(run, steps, k, c, permit, i)
    case Answered(Cleared) => exists permit :: ClearedAll(run, steps, k, c, permit)
    case _ => true
  }

  lemma LaterStillCleared(run: seq<State>, steps: seq<Step>, k: nat, c: CallId, permit: seq<Observation>, i: nat)
    requires WasPermitted(run, k, c, permit) && ClearedUpTo(run, steps, k, c, permit, i)
    ensures WasPermitted(run, k + 1, c, permit) && ClearedUpTo(run, steps, k + 1, c, permit, i)
  {
    var later := k + 1;
    forall n: nat | n < i
      ensures HadItsTurn(run, steps, later, c, permit, n)
    {
      assert HadItsTurn(run, steps, k, c, permit, n);
      var j: nat :| j < k && ClearsAt(run, steps, j, c, permit, n);
      assert ClearsAt(run, steps, j, c, permit, n);
    }
  }

  lemma LaterClearingHolds(run: seq<State>, steps: seq<Step>, k: nat, c: CallId, call: Call)
    requires ClearingHolds(run, steps, k, c, call)
    ensures ClearingHolds(run, steps, k + 1, c, call)
  {
    match call
    case Clearing(permit, i) => LaterStillCleared(run, steps, k, c, permit, i);
    case Answered(Cleared) =>
      var permit :| ClearedAll(run, steps, k, c, permit);
      LaterStillCleared(run, steps, k, c, permit, |permit|);
      assert ClearedAll(run, steps, k + 1, c, permit);
    case _ =>
  }

  lemma ClearingMoves(cfg: Config, run: seq<State>, steps: seq<Step>, k: nat, c: CallId)
    requires IsRun(cfg, run, steps) && k + 1 < |run| && OwnStep(run, steps, k, c) && run[k].calls[c].Clearing?
    requires ClearingHolds(run, steps, k, c, run[k].calls[c])
    ensures c in run[k + 1].calls && ClearingHolds(run, steps, k + 1, c, run[k + 1].calls[c])
  {
    hide IsRun, ClearedUpTo, WasPermitted;
    OwnStepMoves(cfg, run, steps, k, c);
    var permit, i := run[k].calls[c].permit, run[k].calls[c].i;
    LaterStillCleared(run, steps, k, c, permit, i);
    if i < |permit| {
      assert ClearsAt(run, steps, k, c, permit, i);
      OneMoreCleared(run, steps, k, c, permit, i);
    } else {
      assert ClearedAll(run, steps, k + 1, c, permit);
    }
  }

  lemma OneMoreCleared(run: seq<State>, steps: seq<Step>, k: nat, c: CallId, permit: seq<Observation>, i: nat)
    requires ClearedUpTo(run, steps, k + 1, c, permit, i) && ClearsAt(run, steps, k, c, permit, i)
    ensures ClearedUpTo(run, steps, k + 1, c, permit, i + 1)
  {
    assert HadItsTurn(run, steps, k + 1, c, permit, i);
  }

  /** Only a step at `Clearing` leads to the answer "cleared". */
  lemma OnlyClearingClears(cfg: Config, s: State, c: CallId, call: Call, revision: Id)
    requires !call.Answered? && !call.Clearing?
    ensures var next := Next(cfg, s, c, call, revision).call; !next.Clearing? && next != Answered(Answer.Cleared)
  {
    hide NextState, Active;
  }

  lemma {:induction false} ClearingWasHonest(cfg: Config, run: seq<State>, steps: seq<Step>, k: nat, c: CallId)
    requires IsRun(cfg, run, steps) && k < |run| && c in run[k].calls
    ensures ClearingHolds(run, steps, k, c, run[k].calls[c])
  {
    hide Next, ClearedUpTo, WasPermitted;
    if k > 0 {
      CallMoves(cfg, run, steps, k - 1, c);
      if c in run[k - 1].calls {
        ClearingWasHonest(cfg, run, steps, k - 1, c);
      }
      if OwnStep(run, steps, k - 1, c) {
        OwnStepMoves(cfg, run, steps, k - 1, c);
        if run[k - 1].calls[c].Clearing? {
          ClearingMoves(cfg, run, steps, k - 1, c);
        } else {
          OnlyClearingClears(cfg, run[k - 1], c, run[k - 1].calls[c], steps[k - 1].revision);
        }
      } else if c in run[k - 1].calls && run[k].calls[c] == run[k - 1].calls[c] {
        LaterClearingHolds(run, steps, k - 1, c, run[k].calls[c]);
      } else {
        ResolvedBeginsClearing(run, steps, k - 1, c, run[k].calls[c]);
      }
    }
  }

  lemma ResolvedBeginsClearing(run: seq<State>, steps: seq<Step>, k: nat, c: CallId, call: Call)
    requires k < |run| && k < |steps| && ByItself(run[k], steps[k], c, call)
    ensures ClearingHolds(run, steps, k + 1, c, call)
  {
    if call.Clearing? {
      assert run[k].calls[c] == Permitted(call.permit);
    }
  }

  /** A call that answers "cleared" has turned, in a step of its own each, to every
      observation of the permit its guard had given it: an entry still at the version
      observed was removed then, and nothing else ever was. */
  lemma ClearedCallsCleared(cfg: Config, run: seq<State>, steps: seq<Step>, k: nat, c: CallId)
    requires IsRun(cfg, run, steps) && k < |run| && c in run[k].calls
    requires run[k].calls[c] == Answered(Answer.Cleared)
    ensures exists permit :: ClearedAll(run, steps, k, c, permit)
  {
    hide ClearedAll;
    ClearingWasHonest(cfg, run, steps, k, c);
  }

  /** A call is permitted once: it then clears, records or has answered. */
  predicate AfterPermit(call: Call, permit: seq<Observation>) {
    match call
    case Permitted(p) => p == permit
    case Guarding(_, _, _, _, _, _) => false
    case _ => true
  }

  lemma StepIsAfterPermit(cfg: Config, s: State, c: CallId, call: Call, revision: Id, permit: seq<Observation>)
    requires AfterPermit(call, permit)
    ensures AfterPermit(Next(cfg, s, c, call, revision).call, permit)
  {
    hide NextState, Active;
  }

  lemma {:induction false} PermitIsOne(
    cfg: Config, run: seq<State>, steps: seq<Step>, m: nat, k: nat, c: CallId, permit: seq<Observation>)
    requires IsRun(cfg, run, steps) && m <= k < |run| && c in run[m].calls && run[m].calls[c] == Permitted(permit)
    ensures c in run[k].calls && AfterPermit(run[k].calls[c], permit)
    decreases k
  {
    hide Next, IsRun;
    if m < k {
      PermitIsOne(cfg, run, steps, m, k - 1, c, permit);
      CallMoves(cfg, run, steps, k - 1, c);
      if OwnStep(run, steps, k - 1, c) {
        OwnStepMoves(cfg, run, steps, k - 1, c);
        StepIsAfterPermit(cfg, run[k - 1], c, run[k - 1].calls[c], steps[k - 1].revision, permit);
      }
    }
  }

  /** It was the permit of moment `m` that has been cleared. */
  lemma ThatPermitIsCleared(
    cfg: Config, run: seq<State>, steps: seq<Step>, m: nat, k: nat, c: CallId, permit: seq<Observation>)
    requires IsRun(cfg, run, steps) && m < k < |run| && c in run[m].calls && run[m].calls[c] == Permitted(permit)
    requires c in run[k].calls && run[k].calls[c] == Answered(Answer.Cleared)
    ensures ClearedAll(run, steps, k, c, permit)
  {
    hide ClearedUpTo, IsRun;
    ClearedCallsCleared(cfg, run, steps, k, c);
    var p :| ClearedAll(run, steps, k, c, p);
    var n: nat :| n < k && n < |run| && c in run[n].calls && run[n].calls[c] == Permitted(p);
    if m <= n {
      PermitIsOne(cfg, run, steps, m, n, c, permit);
    } else {
      PermitIsOne(cfg, run, steps, n, m, c, p);
    }
  }

  // ----- Giving up ---------------------------------------------------------------------------

  /** Step `j` was a compare-and-swap of call `c` on its `i`-th key that did not commit. */
  predicate LosesSwap(run: seq<State>, steps: seq<Step>, j: nat, c: CallId, i: nat) {
    && OwnStep(run, steps, j, c) && run[j].calls[c].Swapping? && run[j].calls[c].i == i
    && i < |run[j].calls[c].keys|
    && var key, seen := run[j].calls[c].keys[i], run[j].calls[c].seen;
       if key in run[j].entries then seen.None? || seen.value.revision != run[j].entries[key].revision else seen.Some?
  }

  function LostSwaps(run: seq<State>, steps: seq<Step>, k: nat, c: CallId, i: nat): nat {
    if k == 0 then 0 else LostSwaps(run, steps, k - 1, c, i) + if LosesSwap(run, steps, k - 1, c, i) then 1 else 0
  }

  /** In an own step that read the `i`-th key, no next state could be computed. */
  predicate CannotCount(cfg: Config, run: seq<State>, steps: seq<Step>, j: nat, c: CallId) {
    && OwnStep(run, steps, j, c) && run[j].calls[c].Reading? && run[j].calls[c].i < |run[j].calls[c].keys|
    && var call := run[j].calls[c];
       var key := call.keys[call.i];
       NextState(key, StateOf(Lookup(run[j].entries, key)), PolicyOf(cfg, key), call.now).Failure?
  }

  /** No swap has been lost on a key after the `i`-th. */
  ghost predicate NoneLostFrom(run: seq<State>, steps: seq<Step>, k: nat, c: CallId, i: nat) {
    forall n: nat :: n >= i ==> LostSwaps(run, steps, k, c, n) == 0
  }

  ghost predicate LostAllOn(run: seq<State>, steps: seq<Step>, k: nat, c: CallId, i: nat) {
    LostSwaps(run, steps, k, c, i) == MAX_RATE_LIMIT_CAS_RETRIES
  }

  ghost predicate CouldNotCount(cfg: Config, run: seq<State>, steps: seq<Step>, k: nat, c: CallId) {
    exists j: nat :: j < k && CannotCount(cfg, run, steps, j, c)
  }

  /** What a call's position tells of the swaps it has lost, and of why it gave up. */
  ghost predicate LossesShow(cfg: Config, run: seq<State>, steps: seq<Step>, k: nat, c: CallId, call: Call) {
    match call
    case Reading(keys, i, _, _, tries) =>
      LostSwaps(run, steps, k, c, i) == tries <= MAX_RATE_LIMIT_CAS_RETRIES && NoneLostFrom(run, steps, k, c, i + 1)
    case Swapping(keys, i, _, _, tries, _, _, _) =>
      && i < |keys| && LostSwaps(run, steps, k, c, i) == tries < MAX_RATE_LIMIT_CAS_RETRIES
      && NoneLostFrom(run, steps, k, c, i + 1)
    case Answered(RetryLimit) => exists i: nat :: LostAllOn(run, steps, k, c, i)
    case Answered(Failed) => CouldNotCount(cfg, run, steps, k, c)
    case Answered(_) => true
    case _ => NoneLostFrom(run, steps, k, c, 0)
  }

  lemma LossesAfter(run: seq<State>, steps: seq<Step>, k: nat, c: CallId, n: nat)
    requires !LosesSwap(run, steps, k, c, n)
    ensures LostSwaps(run, steps, k + 1, c, n) == LostSwaps(run, steps, k, c, n)
  {
  }

  lemma NoMoreLosses(run: seq<State>, steps: seq<Step>, k: nat, c: CallId, i: nat)
    requires NoneLostFrom(run, steps, k, c, i) && forall n: nat :: n >= i ==> !LosesSwap(run, steps, k, c, n)
    ensures NoneLostFrom(run, steps, k + 1, c, i)
  {
    var later := k + 1;
    forall n: nat | n >= i
      ensures LostSwaps(run, steps, later, c, n) == 0
    {
      LossesAfter(run, steps, k, c, n);
    }
  }

  /** A step that is not a swap of this call leaves its losses as they are. */
  lemma LossesStand(cfg: Config, run: seq<State>, steps: seq<Step>, k: nat, c: CallId, call: Call)
    requires LossesShow(cfg, run, steps, k, c, call) && forall n: nat :: !LosesSwap(run, steps, k, c, n)
    ensures LossesShow(cfg, run, steps, k + 1, c, call)
  {
    match call
    case Reading(_, i, _, _, _) => NoMoreLosses(run, steps, k, c, i + 1);
    case Swapping(_, i, _, _, _, _, _, _) => NoMoreLosses(run, steps, k, c, i + 1);
    case Answered(RetryLimit) =>
      var i: nat :| LostAllOn(run, steps, k, c, i);
      assert LostAllOn(run, steps, k + 1, c, i);
    case Answered(Failed) =>
      var j: nat :| j < k && CannotCount(cfg, run, steps, j, c);
    case Answered(_) =>
    case _ => NoMoreLosses(run, steps, k, c, 0);
  }

  lemma ReadShows(cfg: Config, run: seq<State>, steps: seq<Step>, k: nat, c: CallId)
    requires k < |run| && OwnStep(run, steps, k, c) && run[k].calls[c].Reading?
    requires LossesShow(cfg, run, steps, k, c, run[k].calls[c])
    ensures LossesShow(cfg, run, steps, k + 1, c, Next(cfg, run[k], c, run[k].calls[c], steps[k].revision).call)
  {
    hide NextState, Active, NoneLostFrom;
    var call := run[k].calls[c];
    NoMoreLosses(run, steps, k, c, call.i + 1);
    if call.tries >= MAX_RATE_LIMIT_CAS_RETRIES {
      assert LostAllOn(run, steps, k + 1, c, call.i);
    } else if Read(cfg, run[k], call, steps[k].revision).call == Answered(Failed) {
      assert CannotCount(cfg, run, steps, k, c);
    }
  }

  lemma SwapShows(cfg: Config, run: seq<State>, steps: seq<Step>, k: nat, c: CallId)
    requires k < |run| && OwnStep(run, steps, k, c) && run[k].calls[c].Swapping?
    requires LossesShow(cfg, run, steps, k, c, run[k].calls[c])
    ensures LossesShow(cfg, run, steps, k + 1, c, Next(cfg, run[k], c, run[k].calls[c], steps[k].revision).call)
  {
    hide NoneLostFrom;
    var call := run[k].calls[c];
    NoMoreLosses(run, steps, k, c, call.i + 1);
    assert LosesSwap(run, steps, k, c, call.i) <==> Swap(run[k], c, call).event.None?;
    NextKeyIsNew(run, steps, k, c, call.i + 1);
  }

  lemma NextKeyIsNew(run: seq<State>, steps: seq<Step>, k: nat, c: CallId, i: nat)
    requires NoneLostFrom(run, steps, k + 1, c, i)
    ensures LostSwaps(run, steps, k + 1, c, i) == 0 && NoneLostFrom(run, steps, k + 1, c, i + 1)
  {
  }

  lemma OtherStepShows(cfg: Config, run: seq<State>, steps: seq<Step>, k: nat, c: CallId)
    requires k < |run| && OwnStep(run, steps, k, c) && !run[k].calls[c].Swapping? && !run[k].calls[c].Reading?
    requires LossesShow(cfg, run, steps, k, c, run[k].calls[c])
    ensures LossesShow(cfg, run, steps, k + 1, c, Next(cfg, run[k], c, run[k].calls[c], steps[k].revision).call)
  {
    hide NoneLostFrom;
    NoMoreLosses(run, steps, k, c, 0);
  }

  lemma BeginningShows(cfg: Config, run: seq<State>, steps: seq<Step>, k: nat, c: CallId, call: Call)
    requires k < |run| && k < |steps| && ByItself(run[k], steps[k], c, call) && !OwnStep(run, steps, k, c)
    requires if c in run[k].calls then LossesShow(cfg, run, steps, k, c, run[k].calls[c]) else NoneLostFrom(run, steps, k, c, 0)
    ensures LossesShow(cfg, run, steps, k + 1, c, call)
  {
    hide NoneLostFrom;
    if !call.Answered? {
      NoMoreLosses(run, steps, k, c, 0);
      NextKeyIsNew(run, steps, k, c, 0);
    }
  }

  lemma {:induction false} LossesAreCounted(cfg: Config, run: seq<State>, steps: seq<Step>, k: nat, c: CallId)
    requires IsRun(cfg, run, steps) && k < |run|
    ensures if c in run[k].calls then LossesShow(cfg, run, steps, k, c, run[k].calls[c])
            else NoneLostFrom(run, steps, k, c, 0)
  {
    hide Next, LossesShow, IsRun, ByItself;
    if k > 0 {
      LossesAreCounted(cfg, run, steps, k - 1, c);
      CallMoves(cfg, run, steps, k - 1, c);
      if OwnStep(run, steps, k - 1, c) {
        OwnStepMoves(cfg, run, steps, k - 1, c);
        if run[k - 1].calls[c].Reading? {
          ReadShows(cfg, run, steps, k - 1, c);
        } else if run[k - 1].calls[c].Swapping? {
          SwapShows(cfg, run, steps, k - 1, c);
        } else {
          OtherStepShows(cfg, run, steps, k - 1, c);
        }
      } else if c !in run[k].calls {
        NoMoreLosses(run, steps, k - 1, c, 0);
      } else if c in run[k - 1].calls && run[k].calls[c] == run[k - 1].calls[c] {
        LossesStand(cfg, run, steps, k - 1, c, run[k].calls[c]);
      } else {
        BeginningShows(cfg, run, steps, k - 1, c, run[k].calls[c]);
      }
    } else {
      NoCallsAtFirst(cfg, run, steps, c);
    }
  }

  lemma NoCallsAtFirst(cfg: Config, run: seq<State>, steps: seq<Step>, c: CallId)
    requires IsRun(cfg, run, steps)
    ensures c !in run[0].calls
  {
  }

  /** A recording gives up as contended only after it has lost every one of its swaps on
      one key, and as failed only after a step that read a key whose next state has an
      instant out of range. */
  lemma GivingUpIsDue(cfg: Config, run: seq<State>, steps: seq<Step>, k: nat, c: CallId)
    requires IsRun(cfg, run, steps) && k < |run| && c in run[k].calls
    ensures run[k].calls[c] == Answered(RetryLimit) ==> exists i: nat :: LostAllOn(run, steps, k, c, i)
    ensures run[k].calls[c] == Answered(Failed) ==> CouldNotCount(cfg, run, steps, k, c)
  {
    LossesAreCounted(cfg, run, steps, k, c);
  }
}
