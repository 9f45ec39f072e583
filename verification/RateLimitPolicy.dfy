/** The abuse-protection policy and its transition function (src/config.rs, src/service.rs). */
module RateLimitPolicy {
  import opened Common

  datatype Flow =
    | PasswordLogin
    | LoginCodeVerification
    | TotpVerification
    | PasswordResetTokenConsumption
    | PasswordResetRequest
    | LoginCodeRequest

  datatype Bucket = PrincipalBucket | ClientBucket

  datatype Key = Key(flow: Flow, bucket: Bucket, valueHash: string)

  datatype RateState = RateState(
    key: Key,
    attempts: nat,
    firstAttemptAt: Time,
    lastAttemptAt: Time,
    backoffUntil: Option<Time>,
    lockedUntil: Option<Time>,
    expiresAt: Time)

  datatype Snapshot = Snapshot(state: RateState, revision: Id)

  datatype Policy = Policy(
    enabled: bool,
    window: Duration,
    backoffAfterAttempts: nat,
    maxAttemptsBeforeLockout: nat,
    baseBackoff: Duration,
    maxBackoff: Duration,
    lockoutDuration: Duration,
    stateTtl: Duration)

  const U32_MAX: nat := 0xFFFF_FFFF
  const I32_MAX: nat := 0x7FFF_FFFF

  /** The range of `time::Duration`: 64-bit seconds and nanoseconds. */
  const MAX_DURATION: Duration := 0x7FFF_FFFF_FFFF_FFFF * NANOS_PER_SECOND + 999_999_999

  predicate DurationFits(d: Duration) {
    -MAX_DURATION <= d <= MAX_DURATION
  }

  /** `AuthRateLimitPolicy::validate` on a policy that is switched on, whose fields
      fit their machine types. */
  predicate ValidPolicy(p: Policy) {
    && p.enabled
    && p.window > 0
    && 0 < p.backoffAfterAttempts <= p.maxAttemptsBeforeLockout <= U32_MAX
    && 0 <= p.baseBackoff <= p.maxBackoff
    && DurationFits(p.maxBackoff)
    && p.lockoutDuration >= 0
    && p.stateTtl > 0
  }

  // ----- Backoff -----------------------------------------------------------------

  function Pow2(n: nat): (p: nat)
    ensures p >= 1
  {
    if n == 0 then 1 else 2 * Pow2(n - 1)
  }

  lemma {:induction false} Pow2Grows(m: nat, n: nat)
    requires m <= n
    ensures Pow2(m) <= Pow2(n)
  {
    if m < n {
      Pow2Grows(m, n - 1);
    }
  }

  function SaturatingSub(a: nat, b: nat): nat {
    if a >= b then a - b else 0
  }

  /** Exponential backoff in one line: doubled per attempt over the threshold, at
      most thirty times, and capped. */
  function BackoffFor(p: Policy, attempts: nat): Duration {
    if p.baseBackoff == 0 then 0
    else Min(p.baseBackoff * Pow2(Min(SaturatingSub(attempts, p.backoffAfterAttempts), 30)), p.maxBackoff)
  }

  /** `Duration::checked_mul`. */
  function CheckedMul(d: Duration, factor: nat): Option<Duration> {
    if DurationFits(d * factor) then Some(d * factor) else None
  }

  /** The loop of `backoff_duration`, with its early exits, its checked product and
      its saturating 32-bit multiplier. */
  method BackoffDuration(p: Policy, attempts: nat) returns (d: Duration)
    requires ValidPolicy(p)
    ensures d == BackoffFor(p, attempts)
  {
    if p.baseBackoff == 0 {
      return 0;
    }
    var exponent := SaturatingSub(attempts, p.backoffAfterAttempts);
    var rounds := Min(exponent, 30);
    var multiplier: nat := 1;
    RoundDecides(p, attempts, 0);
    for i := 0 to rounds
      invariant multiplier == Pow2(i)
    {
      DoublingFits(i, multiplier);
      multiplier := Min(2 * multiplier, I32_MAX);
      RoundDecides(p, attempts, i + 1);
      if ReachesCap(p, multiplier) {
        return p.maxBackoff;
      }
    }
    return Capped(p, multiplier);
  }

  /** The product overflows, or is no less than the cap. */
  predicate ReachesCap(p: Policy, multiplier: nat) {
    var candidate := CheckedMul(p.baseBackoff, multiplier);
    candidate.None? || candidate.value >= p.maxBackoff
  }

  /** The product, or the cap when it overflows or is larger. */
  function Capped(p: Policy, multiplier: nat): Duration {
    var product := CheckedMul(p.baseBackoff, multiplier);
    Min(if product.Some? then product.value else p.maxBackoff, p.maxBackoff)
  }

  /** Leaving the loop early gives the same answer as going through with it. */
  lemma RoundDecides(p: Policy, attempts: nat, i: nat)
    requires ValidPolicy(p) && p.baseBackoff > 0
    requires i <= Min(SaturatingSub(attempts, p.backoffAfterAttempts), 30)
    ensures ReachesCap(p, Pow2(i)) ==> BackoffFor(p, attempts) == p.maxBackoff
    ensures i == Min(SaturatingSub(attempts, p.backoffAfterAttempts), 30) ==> BackoffFor(p, attempts) == Capped(p, Pow2(i))
  {
    var rounds := Min(SaturatingSub(attempts, p.backoffAfterAttempts), 30);
    CapDecides(p, i, rounds);
    CapDecides(p, 0, i);
  }

  lemma DoublingFits(i: nat, multiplier: nat)
    requires i < 30 && multiplier == Pow2(i)
    ensures Min(2 * multiplier, I32_MAX) == Pow2(i + 1)
  {
    Pow2Grows(i + 1, 30);
    ThirtyDoublingsFit();
  }

  lemma ThirtyDoublingsFit()
    ensures Pow2(30) == 0x4000_0000
  {
    assert Pow2(10) == 1024;
    assert Pow2(20) == 0x10_0000;
  }

  /** Once a doubling reaches the cap, so does the last one. */
  lemma CapDecides(p: Policy, i: nat, rounds: nat)
    requires i <= rounds && p.baseBackoff >= 0
    ensures p.baseBackoff * Pow2(i) <= p.baseBackoff * Pow2(rounds)
  {
    Pow2Grows(i, rounds);
    ProductGrows(p.baseBackoff, Pow2(i), Pow2(rounds));
  }

  lemma ProductGrows(d: Duration, a: nat, b: nat)
    requires d >= 0 && a <= b
    ensures d * a <= d * b
  {
  }

  /** Backoff never shrinks as attempts accumulate and stays between base and cap. */
  lemma BackoffIsMonotone(p: Policy, attempts: nat, more: nat)
    requires ValidPolicy(p) && attempts <= more
    ensures p.baseBackoff <= BackoffFor(p, attempts) <= BackoffFor(p, more) <= p.maxBackoff
  {
    var i := Min(SaturatingSub(attempts, p.backoffAfterAttempts), 30);
    var j := Min(SaturatingSub(more, p.backoffAfterAttempts), 30);
    CapDecides(p, 0, i);
    CapDecides(p, i, j);
  }

  /** The first backoff is the base; from then on each attempt doubles it, up to the
      maximum and thirty times at most. */
  lemma BackoffDoubles(p: Policy, attempts: nat)
    requires ValidPolicy(p)
    ensures attempts <= p.backoffAfterAttempts ==> BackoffFor(p, attempts) == p.baseBackoff
    ensures p.backoffAfterAttempts <= attempts < p.backoffAfterAttempts + 30 ==>
              BackoffFor(p, attempts + 1) == Min(2 * BackoffFor(p, attempts), p.maxBackoff)
    ensures p.backoffAfterAttempts + 30 <= attempts ==> BackoffFor(p, attempts + 1) == BackoffFor(p, attempts)
  {
    if p.backoffAfterAttempts <= attempts < p.backoffAfterAttempts + 30 {
      var i := attempts - p.backoffAfterAttempts;
      assert Pow2(i + 1) == 2 * Pow2(i);
      assert p.baseBackoff * Pow2(i + 1) == 2 * (p.baseBackoff * Pow2(i));
    } else if attempts < p.backoffAfterAttempts {
      assert Pow2(0) == 1;
    }
  }

  // ----- The transition -----------------------------------------------------------

  datatype RateError = TimeOverflow

  /** `checked_rate_limit_time_add`. */
  function TimeAdd(t: Time, d: Duration): Result<Time, RateError> {
    match CheckedAdd(t, d)
    case None => Failure(TimeOverflow)
    case Some(sum) => Success(sum)
  }

  function MaxTime(current: Option<Time>, candidate: Time): Time {
    if current.Some? && current.value >= candidate then current.value else candidate
  }

  /** Whether the next attempt starts counting afresh. */
  function ResetsWindow(current: Option<RateState>, p: Policy, now: Time): Result<bool, RateError> {
    if current.None? || current.value.expiresAt <= now then Success(true)
    else
      var end :- TimeAdd(current.value.firstAttemptAt, p.window);
      Success(end <= now)
  }

  /** `next_rate_limit_state`. */
  function NextState(key: Key, current: Option<RateState>, p: Policy, now: Time): Result<RateState, RateError> {
    var reset :- ResetsWindow(current, p, now);
    var attempts := if reset || current.None? then 1 else Min(current.value.attempts + 1, U32_MAX);
    var firstAttemptAt := if reset || current.None? then now else current.value.firstAttemptAt;
    var until :- (
      if attempts >= p.maxAttemptsBeforeLockout then
        var end :- TimeAdd(now, p.lockoutDuration); Success((None, Some(end)))
      else if attempts >= p.backoffAfterAttempts then
        var end :- TimeAdd(now, BackoffFor(p, attempts)); Success((Some(end), None))
      else Success((None, None)));
    var ttlEnd :- TimeAdd(now, p.stateTtl);
    var windowEnd :- TimeAdd(firstAttemptAt, p.window);
    var expiry0 := MaxTime(Some(ttlEnd), windowEnd);
    var expiry1 := if until.0.Some? then MaxTime(Some(expiry0), until.0.value) else expiry0;
    var expiry2 := if until.1.Some? then MaxTime(Some(expiry1), until.1.value) else expiry1;
    Success(RateState(key, attempts, firstAttemptAt, now, until.0, until.1, expiry2))
  }

  /** `active_rate_limit_error` reports something. */
  predicate Active(state: RateState, now: Time) {
    && state.expiresAt > now
    && ((state.lockedUntil.Some? && state.lockedUntil.value > now)
        || (state.backoffUntil.Some? && state.backoffUntil.value > now))
  }

  /** A state refuses while a hold of its own is running and the state itself has not expired. */
  lemma ActiveMeans(state: RateState, now: Time)
    ensures Active(state, now) <==>
              exists until: Time :: (state.lockedUntil == Some(until) || state.backoffUntil == Some(until))
                               && now < until && now < state.expiresAt
  {
  }

  /** How long an admission that left `attempts` on the counter holds further ones off. */
  function Delay(p: Policy, attempts: nat): Duration {
    if attempts >= p.maxAttemptsBeforeLockout then p.lockoutDuration
    else if attempts >= p.backoffAfterAttempts then BackoffFor(p, attempts)
    else 0
  }

  /** The instant at which `state` stops holding attempts off. */
  function HeldUntil(state: RateState): Time {
    if state.lockedUntil.Some? then state.lockedUntil.value
    else if state.backoffUntil.Some? then state.backoffUntil.value
    else state.lastAttemptAt
  }

  /** An attempt at `now` falls in the window that `current` counts. */
  predicate InWindow(current: Option<RateState>, p: Policy, now: Time) {
    current.Some? && now < current.value.expiresAt && now < current.value.firstAttemptAt + p.window
  }

  /** The transition fails only where one of its three instants is out of range. */
  lemma NextStateFailsExactly(key: Key, current: Option<RateState>, p: Policy, now: Time)
    requires ValidPolicy(p)
    ensures var counts := InWindow(current, p, now);
            var attempts := if counts then Min(current.value.attempts + 1, U32_MAX) else 1;
            var first := if counts then current.value.firstAttemptAt else now;
            NextState(key, current, p, now).Failure? <==>
              || !Representable(now + Delay(p, attempts))
              || !Representable(now + p.stateTtl)
              || !Representable(first + p.window)
  {
    assert Representable(now);
    assert current.Some? ==> Representable(current.value.firstAttemptAt);
  }

  /** A new state holds attempts off for exactly the delay of its count, counts one
      attempt more unless its window restarted, and outlives its window, its backoff
      and its lockout. */
  lemma NextStateHolds(key: Key, current: Option<RateState>, p: Policy, now: Time)
    requires ValidPolicy(p) && NextState(key, current, p, now).Success?
    ensures var next := NextState(key, current, p, now).value;
            && next.key == key && next.lastAttemptAt == now
            && HeldUntil(next) == now + Delay(p, next.attempts)
            && HeldUntil(next) <= next.expiresAt && now < next.expiresAt
            && next.firstAttemptAt + p.window <= next.expiresAt && now + p.stateTtl <= next.expiresAt
            && (next.expiresAt == now + p.stateTtl || next.expiresAt == next.firstAttemptAt + p.window
                || next.expiresAt == HeldUntil(next))
            && (next.lockedUntil.Some? <==> next.attempts >= p.maxAttemptsBeforeLockout)
            && (next.backoffUntil.Some? <==> p.backoffAfterAttempts <= next.attempts < p.maxAttemptsBeforeLockout)
            && next.attempts >= 1
            && (InWindow(current, p, now) ==>
                  && next.attempts == Min(current.value.attempts + 1, U32_MAX)
                  && next.firstAttemptAt == current.value.firstAttemptAt)
            && (!InWindow(current, p, now) ==> next.attempts == 1 && next.firstAttemptAt == now)
  {
    assert Representable(now);
    BackoffIsMonotone(p, 0, NextState(key, current, p, now).value.attempts);
  }

  /** A state produced by the transition is inactive exactly from `HeldUntil` on:
      its expiry never cuts a backoff or lockout short. */
  lemma ActiveExactlyBeforeHeldUntil(key: Key, current: Option<RateState>, p: Policy, stamp: Time, now: Time)
    requires ValidPolicy(p) && NextState(key, current, p, stamp).Success? && stamp <= now
    ensures Active(NextState(key, current, p, stamp).value, now) <==>
              now < HeldUntil(NextState(key, current, p, stamp).value)
  {
    NextStateHolds(key, current, p, stamp);
  }
}
