/** Failure-compatible wrappers, time and small list helpers shared by every module. */
module Common {

  datatype Option<+T> = None | Some(value: T)

  datatype Result<+T, +E> = Success(value: T) | Failure(error: E) {
    predicate IsFailure() {
      Failure?
    }

    function PropagateFailure<U>(): Result<U, E>
      requires Failure?
    {
      Failure(error)
    }

    function Extract(): T
      requires Success?
    {
      value
    }
  }

  /** Identities drawn by `Uuid::new_v4`: opaque, never drawn twice. */
  type Id = nat

  /** Nanoseconds since the Unix epoch, within the range of `OffsetDateTime`. */
  type Time = t: int | Representable(t)

  /** Nanoseconds between two instants. */
  type Duration = int

  const NANOS_PER_SECOND: int := 1_000_000_000

  /** Years -9999 to 9999, the range of `OffsetDateTime`. */
  const MIN_SECONDS: int := -377705116800
  const MIN_TIME: int := MIN_SECONDS * NANOS_PER_SECOND
  const MAX_TIME: int := 253402300800 * NANOS_PER_SECOND - 1

  predicate Representable(t: int) {
    MIN_TIME <= t <= MAX_TIME
  }

  /** `OffsetDateTime::checked_add`. */
  function CheckedAdd(t: Time, d: Duration): Option<Time> {
    if Representable(t + d) then Some(t + d) else None
  }

  /** `unix_timestamp`: whole seconds, rounded down also before the epoch. */
  function UnixTimestamp(t: int): int {
    t / NANOS_PER_SECOND
  }

  /** `from_unix_timestamp`. */
  function FromUnixTimestamp(seconds: int): Option<Time> {
    if Representable(seconds * NANOS_PER_SECOND) then Some(seconds * NANOS_PER_SECOND) else None
  }

  function Abs(d: Duration): Duration {
    if d < 0 then -d else d
  }

  function Min(a: int, b: int): int {
    if a <= b then a else b
  }

  function Max(a: int, b: int): int {
    if a >= b then a else b
  }

  /** Every value of `xs` also occurs in `ys`. */
  predicate Within<T(==)>(xs: seq<T>, ys: seq<T>) {
    forall x :: x in xs ==> x in ys
  }

  /** The calls begun so far are numbered below `next`. */
  ghost predicate CallsBelow<C>(calls: map<nat, C>, next: nat) {
    forall c :: c in calls ==> c < next
  }

  predicate NoDuplicates<T(==)>(xs: seq<T>) {
    forall i, j :: 0 <= i < j < |xs| ==> xs[i] != xs[j]
  }
}
