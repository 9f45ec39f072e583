/** What each answer of a rotation or a sign-out tells about the run, and why tokens
    are ever revoked. */
module RotationAnswers {
  import opened Common
  import opened Assurance
  import opened RefreshRecords
  import opened RotationProtocol
  import opened RotationInvariants
  import opened RotationSteps
  import opened RotationTheorems

  // ----- Steps that decide ------------------------------------------------------------

  /** Step `j` was one of call `c` itself. */
  predicate OwnStep(run: seq<State>, steps: seq<Step>, j: nat, c: CallId) {
    && j < |run| && j < |steps| && steps[j].Advance? && steps[j].call == c
    && c in run[j].calls && !run[j].calls[c].pc.Answered?
  }

  /** In step `j` call `c` came to `answer`. */
  ghost predicate Decides(cfg: Config, run: seq<State>, steps: seq<Step>, j: nat, c: CallId, call: Call) {
    && OwnStep(run, steps, j, c)
    && Next(cfg, run[j], run[j].calls[c], steps[j].choices).pc == call.pc
    && run[j].calls[c] == call.(pc := run[j].calls[c].pc)
  }

  lemma {:induction false} AnswersAreDecided(cfg: Config, run: seq<State>, steps: seq<Step>, k: nat, c: CallId)
    requires IsRun(cfg, run, steps) && k < |run| && c in run[k].calls
    requires run[k].calls[c].pc.Answered? && !run[k].calls[c].pc.answer.Aborted?
    ensures exists j: nat :: j < k && Decides(cfg, run, steps, j, c, run[k].calls[c])
  {
    hide Next;
    if k > 0 {
      CallMoves(cfg, run, steps, k - 1, c);
      if c in run[k - 1].calls && run[k].calls[c] == run[k - 1].calls[c] {
        AnswersAreDecided(cfg, run, steps, k - 1, c);
      } else {
        OwnStepMoves(cfg, run, steps, k - 1, c);
        assert Decides(cfg, run, steps, k - 1, c, run[k].calls[c]);
      }
    }
  }

  lemma OwnStepMoves(cfg: Config, run: seq<State>, steps: seq<Step>, k: nat, c: CallId)
    requires IsRun(cfg, run, steps) && k + 1 < |run| && OwnStep(run, steps, k, c)
    ensures c in run[k + 1].calls
    ensures run[k + 1].calls[c] == run[k].calls[c].(pc := Next(cfg, run[k], run[k].calls[c], steps[k].choices).pc)
    ensures run[k + 1].store == Next(cfg, run[k], run[k].calls[c], steps[k].choices).store
  {
    assert Enabled(cfg, run[k], steps[k]) && run[k + 1] == Apply(cfg, run[k], steps[k]);
  }

  lemma PlacedAt(cfg: Config, run: seq<State>, steps: seq<Step>, k: nat, c: CallId)
    requires IsRun(cfg, run, steps) && k < |run| && c in run[k].calls
    ensures WellPlaced(cfg, run[k].store.tokens, run[k].calls[c]) && IndexedStore(run[k].store)
  {
    RunKeepsInv(cfg, run, steps, k);
  }

  // ----- Refusals ---------------------------------------------------------------------

  predicate NoneStored(tokens: Tokens, hash: string) {
    forall id :: id in tokens ==> tokens[id].tokenHash != hash
  }

  /** The clock value for which a call prepares its next record. */
  function PreparesAt(pc: Pc): Time {
    match pc
    case Preparing(_, now) => now
    case ReusePreparing(_, _, _, _, at) => at
    case _ => 0
  }

  /** What this step finds is a reason to refuse: no such token is stored, or the token
      presented may not be rotated under the answers of this moment. */
  ghost predicate RefusalHolds(cfg: Config, s: State, call: Call, answers: Answers) {
    || (call.pc.LookingUp? && NoneStored(s.store.tokens, call.hash))
    || (Prepares(call.pc).Some?
        && exists id :: IsPresented(s.store.tokens, id, call.hash)
                   && !MayRotate(s.store.tokens[id], PreparesAt(call.pc), cfg.refreshTtl, answers))
  }

  lemma RefusalsHold(cfg: Config, s: State, call: Call, ch: Choices)
    requires IndexedStore(s.store) && WellPlaced(cfg, s.store.tokens, call) && !call.pc.Answered?
    requires Next(cfg, s, call, ch).pc == Answered(Refused)
    ensures RefusalHolds(cfg, s, call, ch.answers)
  {
    hide PrepareRotation;
    var pc := call.pc;
    if pc.Preparing? {
      RotatesExactly(pc.existing, None, call.client, call.stepUp, pc.now, cfg.refreshTtl, ch.answers);
      assert IsPresented(s.store.tokens, pc.existing.id, call.hash);
    } else if pc.ReusePreparing? {
      RotatesExactly(pc.presented, Some(pc.newest), call.client, call.stepUp, pc.at, cfg.refreshTtl, ch.answers);
      assert IsPresented(s.store.tokens, pc.presented.id, call.hash);
    }
  }

  /** A refresh is refused only if, in a step of its own, it found no token stored under
      its hash, or the user was missing or disabled, the grant gone, or nothing could be
      issued. */
  lemma RefusalsHaveReasons(cfg: Config, run: seq<State>, steps: seq<Step>, k: nat, c: CallId)
    requires IsRun(cfg, run, steps) && k < |run| && c in run[k].calls && run[k].calls[c].pc == Answered(Refused)
    ensures exists j: nat :: j < k && OwnStep(run, steps, j, c)
                        && RefusalHolds(cfg, run[j], run[j].calls[c], steps[j].choices.answers)
  {
    hide Next, RefusalHolds;
    AnswersAreDecided(cfg, run, steps, k, c);
    var j: nat :| j < k && Decides(cfg, run, steps, j, c, run[k].calls[c]);
    PlacedAt(cfg, run, steps, j, c);
    RefusalsHold(cfg, run[j], run[j].calls[c], steps[j].choices);
  }

  // ----- What a call found first ---------------------------------------------------------

  /** In step `j` call `c` found the token it presented, neither revoked nor missing. */
  predicate FindsLive(run: seq<State>, steps: seq<Step>, j: nat, c: CallId, id: Id) {
    && OwnStep(run, steps, j, c) && run[j].calls[c].pc.LookingUp?
    && IsPresented(run[j].store.tokens, id, run[j].calls[c].hash) && !run[j].store.tokens[id].Revoked()
  }

  /** The token that a call found live, while it goes on with it. */
  function HeldLive(pc: Pc): Option<RefreshToken> {
    match pc
    case Expiring(existing, _) => Some(existing)
    case Preparing(existing, _) => Some(existing)
    case Rotating(existing, _, _) => Some(existing)
    case _ => None
  }

  lemma HoldsWhatItFinds(cfg: Config, s: State, call: Call, ch: Choices)
    requires IndexedStore(s.store) && HeldLive(Next(cfg, s, call, ch).pc).Some? && HeldLive(call.pc).None?
    requires !call.pc.Answered?
    ensures var existing := HeldLive(Next(cfg, s, call, ch).pc).value;
            call.pc.LookingUp? && IsPresented(s.store.tokens, existing.id, call.hash)
            && !s.store.tokens[existing.id].Revoked()
  {
    hide PrepareRotation;
    FoundIsSnapshot(s.store, call.hash);
  }

  lemma HoldsOn(cfg: Config, s: State, call: Call, ch: Choices)
    requires HeldLive(Next(cfg, s, call, ch).pc).Some? && HeldLive(call.pc).Some?
    ensures HeldLive(Next(cfg, s, call, ch).pc) == HeldLive(call.pc)
  {
    hide PrepareRotation;
  }

  lemma {:induction false} HeldWasFoundLive(cfg: Config, run: seq<State>, steps: seq<Step>, k: nat, c: CallId)
    requires IsRun(cfg, run, steps) && k < |run| && c in run[k].calls && HeldLive(run[k].calls[c].pc).Some?
    ensures exists j: nat :: j < k && FindsLive(run, steps, j, c, HeldLive(run[k].calls[c].pc).value.id)
  {
    hide Next;
    if k > 0 {
      CallMoves(cfg, run, steps, k - 1, c);
      if HeldLive(run[k - 1].calls[c].pc).Some? {
        if run[k].calls[c] != run[k - 1].calls[c] {
          HoldsOn(cfg, run[k - 1], run[k - 1].calls[c], steps[k - 1].choices);
        }
        HeldWasFoundLive(cfg, run, steps, k - 1, c);
      } else {
        PlacedAt(cfg, run, steps, k - 1, c);
        HoldsWhatItFinds(cfg, run[k - 1], run[k - 1].calls[c], steps[k - 1].choices);
        assert FindsLive(run, steps, k - 1, c, HeldLive(run[k].calls[c].pc).value.id);
      }
    }
  }

  // ----- Expiry -------------------------------------------------------------------------

  /** The token presented under `hash` had expired when this call read the clock, and it
      was unrevoked when this call found it. */
  ghost predicate FoundExpired(run: seq<State>, steps: seq<Step>, k: nat, c: CallId, hash: string)
    requires k < |run|
  {
    exists id: Id, i: nat, j: nat, at: Time ::
      && i < k && FindsLive(run, steps, i, c, id) && j < k && ReadsClock(run[j], c, at)
      && IsPresented(run[k].store.tokens, id, hash) && run[k].store.tokens[id].expiresAt <= at
      && run[k].store.tokens[id].Revoked()
  }

  lemma OnlyExpiringExpires(cfg: Config, s: State, call: Call, ch: Choices)
    requires WellPlaced(cfg, s.store.tokens, call) && !call.pc.Answered?
    requires Next(cfg, s, call, ch).pc == Answered(TokenExpired)
    ensures call.pc.Expiring? && IsPresented(s.store.tokens, call.pc.existing.id, call.hash)
    ensures s.store.tokens[call.pc.existing.id].ExpiredAt(call.pc.now)
    ensures call.pc.existing.id in Next(cfg, s, call, ch).store.tokens
    ensures Next(cfg, s, call, ch).store.tokens[call.pc.existing.id].Revoked()
  {
    hide PrepareRotation;
  }

  /** A token is answered as expired only if it was found unrevoked and had expired by a
      clock value that this very call read; it is revoked from then on. */
  lemma ExpiryIsTrue(cfg: Config, run: seq<State>, steps: seq<Step>, k: nat, c: CallId)
    requires IsRun(cfg, run, steps) && k < |run| && c in run[k].calls && run[k].calls[c].pc == Answered(TokenExpired)
    ensures FoundExpired(run, steps, k, c, run[k].calls[c].hash)
  {
    hide IsRun, Next, Evolves, WellPlaced, IndexedStore;
    AnswersAreDecided(cfg, run, steps, k, c);
    var m: nat :| m < k && Decides(cfg, run, steps, m, c, run[k].calls[c]);
    var call := run[m].calls[c];
    PlacedAt(cfg, run, steps, m, c);
    OnlyExpiringExpires(cfg, run[m], call, steps[m].choices);
    HeldWasFoundLive(cfg, run, steps, m, c);
    ReadingWasRead(cfg, run, steps, m, c, call.pc.now);
    OwnStepMoves(cfg, run, steps, m, c);
    RevocationStays(cfg, run, steps, m, m + 1, k, call.pc.existing.id);
    var i: nat :| i < m && FindsLive(run, steps, i, c, call.pc.existing.id);
    var j: nat :| j < m && ReadsClock(run[j], c, call.pc.now);
    assert FindsLive(run, steps, i, c, call.pc.existing.id) && ReadsClock(run[j], c, call.pc.now);
  }

  /** Records of moment `m` that are revoked at moment `n` are so ever after. */
  lemma RevocationStays(cfg: Config, run: seq<State>, steps: seq<Step>, m: nat, n: nat, k: nat, id: Id)
    requires IsRun(cfg, run, steps) && m <= n <= k < |run| && id in run[m].store.tokens
    requires id in run[n].store.tokens && run[n].store.tokens[id].Revoked()
    ensures id in run[k].store.tokens && run[k].store.tokens[id].Revoked()
    ensures SameDefinition(run[m].store.tokens[id], run[k].store.tokens[id])
  {
    RunEvolves(cfg, run, steps, m, k);
    RunEvolves(cfg, run, steps, n, k);
    assert KeepsRecord(run[m].store.tokens[id], run[k].store.tokens[id]);
    assert KeepsRecord(run[n].store.tokens[id], run[k].store.tokens[id]);
  }

  // ----- Replay, with or without a grace ----------------------------------------------------

  /** Only a revoked token is condemned. */
  lemma CondemnsRevoked(cfg: Config, s: State, call: Call, ch: Choices)
    requires IndexedStore(s.store) && WellPlaced(cfg, s.store.tokens, call)
    requires !call.pc.Condemning? && Next(cfg, s, call, ch).pc.Condemning?
    ensures var id := Next(cfg, s, call, ch).pc.presentedId; id in s.store.tokens && s.store.tokens[id].Revoked()
  {
    hide PrepareRotation, LiveInFamily, CanReplaceNewest, SupersededWithin;
    if call.pc.LookingUp? {
      FoundIsSnapshot(s.store, call.hash);
    }
  }

  /** Whatever the configuration: a call condemns or answers "replay" only if the token it
      presented was already revoked at some moment while it was in flight. */
  lemma {:induction false} ReplayMeansRevoked(
    cfg: Config, run: seq<State>, steps: seq<Step>, k: nat, c: CallId, presented: Id, at: Time)
    requires IsRun(cfg, run, steps) && k < |run| && c in run[k].calls && Condemned(run[k].calls[c].pc, presented, at)
    ensures exists j: nat :: j < k && InFlight(run[j], c)
                        && presented in run[j].store.tokens && run[j].store.tokens[presented].Revoked()
  {
    hide Next;
    if k > 0 {
      if c in run[k - 1].calls && Condemned(run[k - 1].calls[c].pc, presented, at) {
        ReplayMeansRevoked(cfg, run, steps, k - 1, c, presented, at);
      } else {
        CallMoves(cfg, run, steps, k - 1, c);
        var call, ch := run[k - 1].calls[c], steps[k - 1].choices;
        OnlyCondemningCondemns(cfg, run[k - 1], call, ch, presented, at);
        PlacedAt(cfg, run, steps, k - 1, c);
        CondemnsRevoked(cfg, run[k - 1], call, ch);
      }
    }
  }

  // ----- Contention ---------------------------------------------------------------------

  /** Step `j` was a compare-and-swap of call `c` on a newest token that some other call
      or an administrator had meanwhile revoked. */
  predicate LosesSwap(run: seq<State>, steps: seq<Step>, j: nat, c: CallId) {
    && OwnStep(run, steps, j, c) && run[j].calls[c].pc.ReuseRotating?
    && var newest := run[j].calls[c].pc.newest;
       && !newest.Revoked() && newest.id in run[j].store.tokens && run[j].store.tokens[newest.id].Revoked()
  }

  /** How many swaps call `c` has lost in the first `k` steps. */
  function LostSwaps(run: seq<State>, steps: seq<Step>, k: nat, c: CallId): nat {
    if k == 0 then 0 else LostSwaps(run, steps, k - 1, c) + if LosesSwap(run, steps, k - 1, c) then 1 else 0
  }

  /** How many swaps a call has lost shows in its position, until it leaves the loop. */
  predicate CountsTries(pc: Pc, lost: nat) {
    match pc
    case Reusing(_, _, tries) => lost == tries <= MAX_REFRESH_REUSE_GRACE_RETRIES
    case FindingLive(_, _, tries, _) => lost == tries < MAX_REFRESH_REUSE_GRACE_RETRIES
    case ReusePreparing(_, _, _, tries, _) => lost == tries < MAX_REFRESH_REUSE_GRACE_RETRIES
    case ReuseRotating(_, _, _, _, tries, _) => lost == tries < MAX_REFRESH_REUSE_GRACE_RETRIES
    case Answered(Contention) => lost == MAX_REFRESH_REUSE_GRACE_RETRIES
    case Condemning(_, _, _, _) => true
    case Answered(_) => true
    case _ => lost == 0
  }

  lemma NextCountsTries(cfg: Config, run: seq<State>, steps: seq<Step>, k: nat, c: CallId, lost: nat)
    requires k < |run| && OwnStep(run, steps, k, c) && CountsTries(run[k].calls[c].pc, lost)
    requires WellPlaced(cfg, run[k].store.tokens, run[k].calls[c])
    ensures CountsTries(Next(cfg, run[k], run[k].calls[c], steps[k].choices).pc,
                        lost + if LosesSwap(run, steps, k, c) then 1 else 0)
  {
    hide PrepareRotation, LiveInFamily, SupersededWithin;
  }

  lemma {:induction false} TriesAreCounted(cfg: Config, run: seq<State>, steps: seq<Step>, k: nat, c: CallId)
    requires IsRun(cfg, run, steps) && k < |run|
    ensures if c in run[k].calls then CountsTries(run[k].calls[c].pc, LostSwaps(run, steps, k, c))
            else LostSwaps(run, steps, k, c) == 0
  {
    hide Next, IsRun, CountsTries;
    if k > 0 {
      TriesAreCounted(cfg, run, steps, k - 1, c);
      StepCountsTries(cfg, run, steps, k - 1, c);
    } else {
      NoCallsAtFirst(cfg, run, steps, c);
    }
  }

  lemma NoCallsAtFirst(cfg: Config, run: seq<State>, steps: seq<Step>, c: CallId)
    requires IsRun(cfg, run, steps)
    ensures c !in run[0].calls
  {
  }

  lemma StepCountsTries(cfg: Config, run: seq<State>, steps: seq<Step>, k: nat, c: CallId)
    requires IsRun(cfg, run, steps) && k + 1 < |run|
    requires if c in run[k].calls then CountsTries(run[k].calls[c].pc, LostSwaps(run, steps, k, c))
             else LostSwaps(run, steps, k, c) == 0
    ensures if c in run[k + 1].calls then CountsTries(run[k + 1].calls[c].pc, LostSwaps(run, steps, k + 1, c))
            else LostSwaps(run, steps, k + 1, c) == 0
  {
    hide Next;
    if c in run[k].calls {
      CallsAreKept(cfg, run, steps, k, c);
      CallMoves(cfg, run, steps, k, c);
      if OwnStep(run, steps, k, c) {
        PlacedAt(cfg, run, steps, k, c);
        OwnStepMoves(cfg, run, steps, k, c);
        NextCountsTries(cfg, run, steps, k, c, LostSwaps(run, steps, k, c));
      } else {
        OthersLeaveCall(cfg, run, steps, k, c);
      }
    } else if c in run[k + 1].calls {
      CallMoves(cfg, run, steps, k, c);
    }
  }

  /** Without a step of its own a call stays where it is, unless it is cancelled. */
  lemma OthersLeaveCall(cfg: Config, run: seq<State>, steps: seq<Step>, k: nat, c: CallId)
    requires IsRun(cfg, run, steps) && k + 1 < |run| && c in run[k].calls && !OwnStep(run, steps, k, c)
    ensures c in run[k + 1].calls
    ensures || run[k + 1].calls[c] == run[k].calls[c]
            || run[k + 1].calls[c] == run[k].calls[c].(pc := Answered(Aborted))
  {
    assert Enabled(cfg, run[k], steps[k]) && run[k + 1] == Apply(cfg, run[k], steps[k]);
  }

  /** A reuse runs out of retries only after it has lost every one of its swaps to
      another call or an administrator. */
  lemma ContentionMeansLostSwaps(cfg: Config, run: seq<State>, steps: seq<Step>, k: nat, c: CallId)
    requires IsRun(cfg, run, steps) && k < |run| && c in run[k].calls && run[k].calls[c].pc == Answered(Contention)
    ensures LostSwaps(run, steps, k, c) == MAX_REFRESH_REUSE_GRACE_RETRIES
  {
    TriesAreCounted(cfg, run, steps, k, c);
  }

  // ----- Sign-out of one token ------------------------------------------------------------

  /** A sign-out of the one token `member`, from its beginning to its end: under way,
      given up, or answered, and then the token is revoked. */
  predicate OneSignOutHolds(s: State, c: CallId, hash: string, member: Id) {
    && IsPresented(s.store.tokens, member, hash) && c in s.calls && s.calls[c].hash == hash
    && match s.calls[c].pc
       case SignOutBegun(wholeFamily) => !wholeFamily
       case SigningOutOne(id) => id == member
       case Answered(SignedOut) => s.store.tokens[member].Revoked()
       case Answered(Aborted) => true
       case _ => false
  }

  lemma OneSignOutAdvances(cfg: Config, s: State, call: Call, ch: Choices, member: Id)
    requires IndexedStore(s.store) && IsPresented(s.store.tokens, member, call.hash)
    requires call.pc == SignOutBegun(false) || call.pc == SigningOutOne(member)
    ensures var o := Next(cfg, s, call, ch);
            || o.pc == SigningOutOne(member)
            || (o.pc == Answered(SignedOut) && member in o.store.tokens && o.store.tokens[member].Revoked())
  {
    assert s.store.byHash[call.hash] == member;
  }

  lemma StepKeepsOneSignOut(cfg: Config, run: seq<State>, steps: seq<Step>, k: nat, c: CallId, hash: string, member: Id)
    requires IsRun(cfg, run, steps) && k + 1 < |run| && OneSignOutHolds(run[k], c, hash, member)
    ensures OneSignOutHolds(run[k + 1], c, hash, member)
  {
    hide Next, IsRun, IndexedStore;
    StepEvolves(cfg, run, steps, k);
    assert KeepsRecord(run[k].store.tokens[member], run[k + 1].store.tokens[member]);
    if OwnStep(run, steps, k, c) {
      PlacedAt(cfg, run, steps, k, c);
      OwnStepMoves(cfg, run, steps, k, c);
      OneSignOutAdvances(cfg, run[k], run[k].calls[c], steps[k].choices, member);
    } else if run[k].calls[c].pc.Answered? {
      AnsweredStays(cfg, run, steps, k, c);
    } else {
      OthersLeaveCall(cfg, run, steps, k, c);
    }
  }

  lemma {:induction false} OneSignOutKeepsHolding(
    cfg: Config, run: seq<State>, steps: seq<Step>, j: nat, k: nat, c: CallId, hash: string, member: Id)
    requires IsRun(cfg, run, steps) && j <= k < |run| && OneSignOutHolds(run[j], c, hash, member)
    ensures OneSignOutHolds(run[k], c, hash, member)
    decreases k
  {
    hide IsRun, OneSignOutHolds;
    if j < k {
      OneSignOutKeepsHolding(cfg, run, steps, j, k - 1, c, hash, member);
      StepKeepsOneSignOut(cfg, run, steps, k - 1, c, hash, member);
    }
  }

  /** A sign-out of one token, begun at moment `j` with a stored token: once it has
      answered, that token is revoked, then and at every later moment, also when the grace
      made it leave a token alone that was revoked before. */
  lemma OneSignOutIsFinal(cfg: Config, run: seq<State>, steps: seq<Step>, j: nat, k: nat, c: CallId, member: Id)
    requires IsRun(cfg, run, steps) && j <= k < |run|
    requires c in run[j].calls && run[j].calls[c].pc == SignOutBegun(false)
    requires IsPresented(run[j].store.tokens, member, run[j].calls[c].hash)
    requires c in run[k].calls && run[k].calls[c].pc == Answered(SignedOut)
    ensures IsPresented(run[k].store.tokens, member, run[j].calls[c].hash) && run[k].store.tokens[member].Revoked()
  {
    OneSignOutKeepsHolding(cfg, run, steps, j, k, c, run[j].calls[c].hash, member);
  }

  // ----- Why tokens are revoked -------------------------------------------------------------

  /** Why the next step of `call` may revoke the live token `id`. */
  ghost predicate CallMayRevoke(cfg: Config, tokens: Tokens, call: Call, id: Id)
    requires id in tokens
  {
    var token := tokens[id];
    match call.pc
    case Expiring(existing, now) => existing.id == id && token.tokenHash == call.hash && token.ExpiredAt(now)
    case Rotating(existing, _, now) => existing.id == id && token.tokenHash == call.hash && !token.ExpiredAt(now)
    case ReuseRotating(presented, newest, _, _, _, at) =>
      && newest.id == id && !token.ExpiredAt(at)
      && IsPresented(tokens, presented.id, call.hash) && presented.familyId == token.familyId
      && cfg.grace.Some? && SupersededWithin(presented, at, cfg.grace.value)
    case Condemning(_, presented, _, _) =>
      IsPresented(tokens, presented, call.hash) && tokens[presented].familyId == token.familyId
    case SigningOutFamily(_) => HasPresentedMember(tokens, call.hash, token.familyId)
    case SigningOutOne(_) => token.tokenHash == call.hash
    case _ => false
  }

  /** Why step `step`, taken in `s`, may revoke the live token `id`. */
  ghost predicate MayRevoke(cfg: Config, s: State, step: Step, id: Id)
    requires id in s.store.tokens
  {
    match step
    case AdminRevoke(target, _) => target == id
    case AdminRevokeFamily(family, _, _) => family == s.store.tokens[id].familyId
    case Advance(c, _) => c in s.calls && CallMayRevoke(cfg, s.store.tokens, s.calls[c], id)
    case _ => false
  }

  lemma CallRevokesForCause(cfg: Config, s: State, c: CallId, ch: Choices, id: Id)
    requires c in s.calls && WellPlaced(cfg, s.store.tokens, s.calls[c])
    requires PendingRecord(s.calls[c].pc).Some? ==> Fresh(s.store, PendingRecord(s.calls[c].pc).value)
    requires id in s.store.tokens && !s.store.tokens[id].Revoked()
    requires id in Next(cfg, s, s.calls[c], ch).store.tokens && Next(cfg, s, s.calls[c], ch).store.tokens[id].Revoked()
    ensures MayRevoke(cfg, s, Advance(c, ch), id)
  {
    hide PrepareRotation, LiveInFamily;
  }

  /** A live token is revoked only by an administrator, by a sign-out with it or with a
      token of its family, by a refresh that finds it expired, by a rotation that replaces
      it, or by a replay of a token of its family. */
  lemma RevocationsHaveCauses(cfg: Config, run: seq<State>, steps: seq<Step>, k: nat, id: Id)
    requires IsRun(cfg, run, steps) && k + 1 < |run| && id in run[k].store.tokens
    requires !run[k].store.tokens[id].Revoked()
    requires id in run[k + 1].store.tokens && run[k + 1].store.tokens[id].Revoked()
    ensures MayRevoke(cfg, run[k], steps[k], id)
  {
    hide Next;
    assert Enabled(cfg, run[k], steps[k]) && run[k + 1] == Apply(cfg, run[k], steps[k]);
    if steps[k].Advance? {
      PlacedAt(cfg, run, steps, k, steps[k].call);
      CallRevokesForCause(cfg, run[k], steps[k].call, steps[k].choices, id);
    }
  }

  // ----- When rotations happen -----------------------------------------------------------------

  lemma CommitRestsOn(cfg: Config, s: State, call: Call, ch: Choices)
    requires Next(cfg, s, call, ch).event.Some?
    ensures Next(cfg, s, call, ch).event.value.Rotated? && RestsOn(call.pc, Next(cfg, s, call, ch).event.value.at)
  {
  }

  /** Step `n` of call `c` appended event `i`, at a clock value that `c` had read before. */
  ghost predicate CommittedInTime(run: seq<State>, steps: seq<Step>, n: nat, c: CallId, i: nat, at: Time) {
    AppendsAt(run, steps, n, c, i) && exists j: nat :: j < n && ReadsClock(run[j], c, at)
  }

  lemma {:induction false} CommitsAreTimed(cfg: Config, run: seq<State>, steps: seq<Step>, k: nat, i: nat)
    requires IsRun(cfg, run, steps) && k < |run| && i < |run[k].log| && run[k].log[i].Rotated?
    ensures exists n: nat, c: CallId :: n < k && CommittedInTime(run, steps, n, c, i, run[k].log[i].at)
  {
    hide Next, CommittedInTime;
    if k > 0 {
      LogMoves(cfg, run, steps, k - 1);
      if i < |run[k - 1].log| {
        CommitsAreTimed(cfg, run, steps, k - 1, i);
      } else {
        StepCommitsInTime(cfg, run, steps, k - 1, i);
      }
    }
  }

  lemma StepCommitsInTime(cfg: Config, run: seq<State>, steps: seq<Step>, k: nat, i: nat)
    requires IsRun(cfg, run, steps) && k + 1 < |run| && i == |run[k].log| && i < |run[k + 1].log|
    requires run[k + 1].log[i].Rotated?
    ensures steps[k].Advance? && CommittedInTime(run, steps, k, steps[k].call, i, run[k + 1].log[i].at)
  {
    hide Next;
    LogMoves(cfg, run, steps, k);
    var c := steps[k].call;
    CommitRestsOn(cfg, run[k], run[k].calls[c], steps[k].choices);
    ReadingWasRead(cfg, run, steps, k, c, run[k + 1].log[i].at);
  }

  /** Neither the presented nor the replaced token of a rotation had expired, by a clock
      value that the committing call had read; the new token lives one TTL from then. */
  lemma RotationsAreTimely(cfg: Config, run: seq<State>, steps: seq<Step>, k: nat, i: nat)
    requires IsRun(cfg, run, steps) && k < |run| && i < |run[k].log| && run[k].log[i].Rotated?
    ensures var e, tokens := run[k].log[i], run[k].store.tokens;
            && e.source in tokens && e.at < tokens[e.source].expiresAt
            && e.superseded in tokens && e.at < tokens[e.superseded].expiresAt
            && e.replacement in tokens && tokens[e.replacement].createdAt == e.at
            && tokens[e.replacement].expiresAt == e.at + cfg.refreshTtl
    ensures exists n: nat, c: CallId :: n < k && CommittedInTime(run, steps, n, c, i, run[k].log[i].at)
  {
    RunKeepsInv(cfg, run, steps, k);
    assert Witnessed(cfg, run[k].store.tokens, run[k].log[i]);
    CommitsAreTimed(cfg, run, steps, k, i);
  }

  // ----- Every answer is due --------------------------------------------------------------------

  /** Position `i` of the log is the commit call `c` answered with, and the user whose
      authority it had read for it was enabled. */
  ghost predicate CommittedWithAuthority(run: seq<State>, steps: seq<Step>, k: nat, c: CallId, i: nat)
    requires k < |run| && c in run[k].calls
  {
    CommittedBy(run[k], run[k].calls[c], i) && AuthorityWasRead(run, steps, k, i)
  }

  /** What must have happened for call `c` to have answered as it did. */
  ghost predicate Due(cfg: Config, run: seq<State>, steps: seq<Step>, k: nat, c: CallId, answer: Answer)
    requires k < |run| && c in run[k].calls
  {
    match answer
    case Issued(_) => exists i: nat :: CommittedWithAuthority(run, steps, k, c, i)
    case Replay(presented, at) =>
      exists j: nat :: j < k && InFlight(run[j], c)
                  && presented in run[j].store.tokens && run[j].store.tokens[presented].Revoked()
    case TokenExpired => FoundExpired(run, steps, k, c, run[k].calls[c].hash)
    case Refused =>
      exists j: nat :: j < k && OwnStep(run, steps, j, c)
                  && RefusalHolds(cfg, run[j], run[j].calls[c], steps[j].choices.answers)
    case Contention => LostSwaps(run, steps, k, c) == MAX_REFRESH_REUSE_GRACE_RETRIES
    case SignedOut => true
    case Aborted => true
  }

  lemma AnswersAreDue(cfg: Config, run: seq<State>, steps: seq<Step>, k: nat, c: CallId)
    requires IsRun(cfg, run, steps) && k < |run| && c in run[k].calls && run[k].calls[c].pc.Answered?
    ensures Due(cfg, run, steps, k, c, run[k].calls[c].pc.answer)
  {
    hide IsRun, FoundExpired, RefusalHolds, CommittedBy, AuthorityWasRead;
    match run[k].calls[c].pc.answer
    case Issued(_) =>
      SuccessIsCommitted(cfg, run, steps, k, c);
      var i: nat :| CommittedBy(run[k], run[k].calls[c], i);
      CommitIsRotation(run[k], run[k].calls[c], i);
      EventAuthorityWasRead(cfg, run, steps, k, i);
      assert CommittedWithAuthority(run, steps, k, c, i);
    case Replay(presented, at) => ReplayMeansRevoked(cfg, run, steps, k, c, presented, at);
    case TokenExpired => ExpiryIsTrue(cfg, run, steps, k, c);
    case Refused => RefusalsHaveReasons(cfg, run, steps, k, c);
    case Contention => ContentionMeansLostSwaps(cfg, run, steps, k, c);
    case _ =>
  }

  lemma CommitIsRotation(s: State, call: Call, i: nat)
    requires CommittedBy(s, call, i)
    ensures i < |s.log| && s.log[i].Rotated?
  {
  }
}
