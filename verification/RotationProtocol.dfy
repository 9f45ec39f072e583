/** Refresh, step-up, grace reuse, replay handling, expiry, login and sign-out as
    one state machine. Every step is the code between two awaits: at most one
    atomic store step, taken on values the call read earlier. */
module RotationProtocol {
  import opened Common
  import opened Assurance
  import opened RefreshRecords

  const MAX_REFRESH_REUSE_GRACE_RETRIES: nat := 32

  /** `grace` is the reuse window. `findsLive` is whether the store supports
      finding a family's live tokens. `honestUsers` is whether the user store
      returns the user it was asked for; nothing in rotation checks this. */
  datatype Config = Config(grace: Option<Duration>, findsLive: bool, refreshTtl: Duration, honestUsers: bool)

  type CallId = nat

  datatype Answer =
    | Issued(token: Id)
    | Replay(presented: Id, decidedAt: Time)
    | TokenExpired
    | Refused
    | Contention
    | SignedOut
    | Aborted

  /** Where a call stands; the fields are the values it holds across awaits. */
  datatype Pc =
    | Begun
    | LookingUp(now: Time)
    | Expiring(existing: RefreshToken, now: Time)
    | Preparing(existing: RefreshToken, now: Time)
    | Rotating(existing: RefreshToken, next: Prepared, now: Time)
    | Rereading(existing: RefreshToken, now: Time)
    | Reusing(presented: RefreshToken, now: Time, tries: nat)
    | FindingLive(presented: RefreshToken, now: Time, tries: nat, at: Time)
    | ReusePreparing(presented: RefreshToken, newest: RefreshToken, now: Time, tries: nat, at: Time)
    | ReuseRotating(presented: RefreshToken, newest: RefreshToken, next: Prepared, now: Time, tries: nat, at: Time)
    | Condemning(family: Id, presentedId: Id, now: Time, at: Time)
    | SignOutBegun(wholeFamily: bool)
    | SigningOutFamily(family: Id)
    | SigningOutOne(id: Id)
    | Answered(answer: Answer)

  /** One call: the hash of the token it presents, the step-up it carries, and its progress. */
  datatype Call = Call(hash: string, stepUp: Option<SessionAssurance>, client: ClientMetadata, pc: Pc)

  /** What a run leaves behind, in commit order. */
  datatype Event =
    | LoggedIn(id: Id, family: Id, user: AuthUser)
    | Rotated(source: Id, superseded: Id, replacement: Id, family: Id, at: Time,
              authority: Grant, stepUp: Option<SessionAssurance>, user: AuthUser)

  /** `chains` and `log` are history: no step reads them. `chains` lists each
      family's records in the order they were issued. */
  datatype State = State(
    store: Store,
    calls: map<CallId, Call>,
    clock: Time,
    chains: map<Id, seq<Id>>,
    log: seq<Event>)

  /** What the environment decides in one step of a call. */
  datatype Choices = Choices(answers: Answers, signOutTime: Time, kept: set<Id>)

  datatype Step =
    | Tick(clock: Time)
    | Login(user: AuthUser, client: ClientMetadata, at: Time, source: GrantSource, answers: Answers)
    | Begin(call: CallId, request: Call)
    | Advance(call: CallId, choices: Choices)
    | Abort(call: CallId)
    | AdminRevoke(id: Id, at: Time)
    | AdminRevokeFamily(family: Id, at: Time, kept: set<Id>)

  predicate Init(s: State) {
    s.store == EmptyStore && s.calls == map[] && s.chains == map[] && s.log == []
  }

  /** The effect of one step of a call: the new store, the call's next position
      and the event it commits, if any. */
  datatype Outcome = Outcome(store: Store, pc: Pc, event: Option<Event>)

  function Stay(s: State, pc: Pc): Outcome {
    Outcome(s.store, pc, None)
  }

  /** The first read of `rotate_session` and the branches on it. */
  function LookUp(cfg: Config, s: State, call: Call, now: Time): Outcome {
    match FindByHash(s.store, call.hash)
    case None => Stay(s, Answered(Refused))
    case Some(existing) =>
      if existing.Revoked() then
        if cfg.grace.Some? then Stay(s, Reusing(existing, now, 0))
        else Stay(s, Condemning(existing.familyId, existing.id, now, now))
      else if existing.ExpiredAt(now) then Stay(s, Expiring(existing, now))
      else Stay(s, Preparing(existing, now))
  }

  function Prepare(cfg: Config, s: State, call: Call, existing: RefreshToken, now: Time, answers: Answers): Outcome {
    match PrepareRotation(existing, None, call.client, call.stepUp, now, cfg.refreshTtl, answers)
    case Failure(_) => Stay(s, Answered(Refused))
    case Success(p) => Stay(s, Rotating(existing, p, now))
  }

  function CommitRotation(
    s: State, call: Call, source: RefreshToken, superseded: RefreshToken, next: Prepared, at: Time): Outcome
  {
    Outcome(
      Rotate(s.store, superseded.id, next.record, at, call.client),
      Answered(Issued(next.record.id)),
      Some(Rotated(source.id, superseded.id, next.record.id, superseded.familyId, at,
                   next.authority, call.stepUp, next.user)))
  }

  /** The compare-and-swap of an ordinary rotation. */
  function TryRotate(cfg: Config, s: State, call: Call, existing: RefreshToken, next: Prepared, now: Time): Outcome {
    if CanRotate(s.store, existing.id) then CommitRotation(s, call, existing, existing, next, now)
    else if cfg.grace.Some? then Stay(s, Rereading(existing, now))
    else Stay(s, Condemning(existing.familyId, existing.id, now, now))
  }

  /** After a lost race: why did this call lose? */
  function Reread(s: State, call: Call, existing: RefreshToken, now: Time): Outcome {
    match FindByHash(s.store, call.hash)
    case None => Stay(s, Condemning(existing.familyId, existing.id, now, now))
    case Some(current) => Stay(s, Reusing(current, now, 0))
  }

  /** Head of the retry loop of `reissue_within_reuse_grace`. */
  function CheckWindow(cfg: Config, s: State, presented: RefreshToken, now: Time, tries: nat): Outcome {
    if tries >= MAX_REFRESH_REUSE_GRACE_RETRIES then Stay(s, Answered(Contention))
    else if cfg.grace.Some? && SupersededWithin(presented, s.clock, cfg.grace.value)
    then Stay(s, FindingLive(presented, now, tries, s.clock))
    else Stay(s, Condemning(presented.familyId, presented.id, now, s.clock))
  }

  ghost function FindLive(cfg: Config, s: State, presented: RefreshToken, now: Time, tries: nat, at: Time): Outcome {
    var live := LiveInFamily(s.store.tokens, presented.familyId);
    if !cfg.findsLive || |live| != 1 then Stay(s, Condemning(presented.familyId, presented.id, now, at))
    else
      var newest := s.store.tokens[TheElement(live)];
      if CanReplaceNewest(presented, newest, at)
      then Stay(s, ReusePreparing(presented, newest, now, tries, at))
      else Stay(s, Condemning(presented.familyId, presented.id, now, at))
  }

  ghost function TheElement(ids: set<Id>): (id: Id)
    requires |ids| == 1
    ensures ids == {id}
  {
    var id :| id in ids;
    assert |ids - {id}| == 0;
    assert ids == {id};
    id
  }

  function PrepareReuse(
    cfg: Config, s: State, call: Call, presented: RefreshToken, newest: RefreshToken,
    now: Time, tries: nat, at: Time, answers: Answers): Outcome
  {
    match PrepareRotation(presented, Some(newest), call.client, call.stepUp, at, cfg.refreshTtl, answers)
    case Failure(_) => Stay(s, Answered(Refused))
    case Success(p) => Stay(s, ReuseRotating(presented, newest, p, now, tries, at))
  }

  /** The compare-and-swap of a reuse; a lost one goes round the loop again. */
  function TryReuse(
    s: State, call: Call, presented: RefreshToken, newest: RefreshToken, next: Prepared,
    now: Time, tries: nat, at: Time): Outcome
  {
    if CanRotate(s.store, newest.id) then CommitRotation(s, call, presented, newest, next, at)
    else Stay(s, Reusing(presented, now, tries + 1))
  }

  /** First step of `logout`. */
  function LookUpSignOut(cfg: Config, s: State, call: Call, wholeFamily: bool): Outcome {
    match FindByHash(s.store, call.hash)
    case None => Stay(s, Answered(SignedOut))
    case Some(existing) =>
      if wholeFamily then Stay(s, SigningOutFamily(existing.familyId))
      else if cfg.grace.Some? && existing.Revoked() then Stay(s, Answered(SignedOut))
      else Stay(s, SigningOutOne(existing.id))
  }

  /** One step of a call, from any position that has one. */
  ghost function Next(cfg: Config, s: State, call: Call, ch: Choices): Outcome {
    match call.pc
    case Begun => Stay(s, LookingUp(s.clock))
    case LookingUp(now) => LookUp(cfg, s, call, now)
    case Expiring(existing, now) => Outcome(RevokeOne(s.store, existing.id, now), Answered(TokenExpired), None)
    case Preparing(existing, now) => Prepare(cfg, s, call, existing, now, ch.answers)
    case Rotating(existing, next, now) => TryRotate(cfg, s, call, existing, next, now)
    case Rereading(existing, now) => Reread(s, call, existing, now)
    case Reusing(presented, now, tries) => CheckWindow(cfg, s, presented, now, tries)
    case FindingLive(presented, now, tries, at) => FindLive(cfg, s, presented, now, tries, at)
    case ReusePreparing(presented, newest, now, tries, at) =>
      PrepareReuse(cfg, s, call, presented, newest, now, tries, at, ch.answers)
    case ReuseRotating(presented, newest, next, now, tries, at) =>
      TryReuse(s, call, presented, newest, next, now, tries, at)
    case Condemning(family, presentedId, now, at) =>
      Outcome(RevokeFamily(s.store, family, now, ch.kept), Answered(Replay(presentedId, at)), None)
    case SignOutBegun(wholeFamily) => LookUpSignOut(cfg, s, call, wholeFamily)
    case SigningOutFamily(family) =>
      Outcome(RevokeFamily(s.store, family, ch.signOutTime, ch.kept), Answered(SignedOut), None)
    case SigningOutOne(id) => Outcome(RevokeOne(s.store, id, ch.signOutTime), Answered(SignedOut), None)
    case Answered(answer) => Stay(s, Answered(answer))
  }

  /** The user id a prepared rotation asks the user store for. */
  function AskedUser(pc: Pc): Option<string> {
    match pc
    case Preparing(existing, _) => Some(existing.userId)
    case ReusePreparing(presented, _, _, _, _) => Some(presented.userId)
    case _ => None
  }

  /** The record a compare-and-swap is about to insert. */
  function PendingRecord(pc: Pc): Option<RefreshToken> {
    match pc
    case Rotating(_, next, _) => Some(next.record)
    case ReuseRotating(_, _, next, _, _, _) => Some(next.record)
    case _ => None
  }

  /** A request starts as a refresh, a step-up with host-accepted assurance, or a sign-out. */
  predicate Requestable(call: Call) {
    && (call.pc.Begun? || call.pc.SignOutBegun?)
    && (call.stepUp.Some? ==> Validate(call.stepUp.value).None? && call.stepUp.value.mfa == Satisfied)
  }

  /** A session user as login and host issuance build it, in a new family. */
  predicate Admissible(s: State, user: AuthUser) {
    && user.familyId !in s.chains
    && user == SessionUser(user.userId, user.sessionId, user.familyId, user.roles, user.scopes, user.session, user.metadata)
    && AlignedSession(user.session)
  }

  ghost predicate Enabled(cfg: Config, s: State, step: Step) {
    match step
    case Tick(_) => true
    case Login(user, client, at, source, answers) =>
      && Admissible(s, user)
      && IssueTokens(user, client, at, cfg.refreshTtl, source, None, answers).Success?
      && answers.freshId !in s.store.tokens && answers.freshHash !in s.store.byHash
    case Begin(c, request) => c !in s.calls && Requestable(request)
    case Advance(c, ch) =>
      && c in s.calls && !s.calls[c].pc.Answered?
      && (PendingRecord(s.calls[c].pc).Some? ==> Fresh(s.store, PendingRecord(s.calls[c].pc).value))
      && (cfg.honestUsers && AskedUser(s.calls[c].pc).Some? && ch.answers.user.Some? ==>
            ch.answers.user.value.id == AskedUser(s.calls[c].pc).value)
    case Abort(c) => c in s.calls && !s.calls[c].pc.Answered?
    case AdminRevoke(_, _) => true
    case AdminRevokeFamily(_, _, _) => true
  }

  function Extended(chains: map<Id, seq<Id>>, event: Option<Event>): map<Id, seq<Id>> {
    match event
    case None => chains
    case Some(LoggedIn(id, family, _)) => chains[family := [id]]
    case Some(Rotated(_, _, replacement, family, _, _, _, _)) =>
      chains[family := (if family in chains then chains[family] else []) + [replacement]]
  }

  function Logged(log: seq<Event>, event: Option<Event>): seq<Event> {
    if event.Some? then log + [event.value] else log
  }

  /** The state after `step`. A cancelled call, or one whose store step failed,
      changes nothing and ends. */
  ghost function Apply(cfg: Config, s: State, step: Step): State
    requires Enabled(cfg, s, step)
  {
    match step
    case Tick(clock) => s.(clock := clock)
    case Login(user, client, at, source, answers) =>
      var issued := IssueTokens(user, client, at, cfg.refreshTtl, source, None, answers).value;
      var event := Some(LoggedIn(issued.0.id, issued.0.familyId, issued.1));
      s.(store := Insert(s.store, issued.0), chains := Extended(s.chains, event), log := Logged(s.log, event))
    case Begin(c, request) => s.(calls := s.calls[c := request])
    case Advance(c, ch) =>
      var o := Next(cfg, s, s.calls[c], ch);
      s.(store := o.store,
         calls := s.calls[c := s.calls[c].(pc := o.pc)],
         chains := Extended(s.chains, o.event),
         log := Logged(s.log, o.event))
    case Abort(c) => s.(calls := s.calls[c := s.calls[c].(pc := Answered(Aborted))])
    case AdminRevoke(id, at) => s.(store := RevokeOne(s.store, id, at))
    case AdminRevokeFamily(family, at, kept) => s.(store := RevokeFamily(s.store, family, at, kept))
  }

  /** `run` visits its states by taking `steps`, from an empty store. */
  ghost predicate IsRun(cfg: Config, run: seq<State>, steps: seq<Step>) {
    && |run| == |steps| + 1
    && Init(run[0])
    && forall i :: 0 <= i < |steps| ==> Enabled(cfg, run[i], steps[i]) && run[i + 1] == Apply(cfg, run[i], steps[i])
  }
}
