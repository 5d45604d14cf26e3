/** `SimulationTime`: a nanosecond count since the start of the simulation,
    valid in `[SIMTIME_MIN, SIMTIME_MAX]`, together with the raw `u64`
    encoding used by the C side, where `SIMTIME_INVALID` means "no time". */
module Simtime {
  import opened Wrappers
  import opened Primitives

  /** The sentinel of the C encoding. */
  const SIMTIME_INVALID: u64 := U64_MAX

  const SIMTIME_MIN: u64 := 0
  const SIMTIME_ONE_NANOSECOND: u64 := 1
  const SIMTIME_ONE_MICROSECOND: u64 := 1000
  const SIMTIME_ONE_MILLISECOND: u64 := 1000000
  const SIMTIME_ONE_SECOND: u64 := 1000000000
  const SIMTIME_ONE_MINUTE: u64 := 60000000000
  const SIMTIME_ONE_HOUR: u64 := 3600000000000

  /** What is known of `SIMTIME_MAX` without the emulated-time constants it is
      computed from: it lies strictly below the sentinel, and it admits at
      least an hour so that every unit constant is itself a valid time. */
  type SimtimeMaxRange = x: u64 | SIMTIME_ONE_HOUR <= x < SIMTIME_INVALID
    witness SIMTIME_ONE_HOUR

  /** `EMUTIME_MAX - SIMULATION_START_SEC * SIMTIME_ONE_SECOND`, left unknown. */
  const SIMTIME_MAX: SimtimeMaxRange

  /** `struct SimulationTime(c::SimulationTime)`. */
  datatype SimulationTime = SimulationTime(raw: u64)

  /** The invariant every constructor of the source establishes. */
  predicate Valid(t: SimulationTime)
  {
    SIMTIME_MIN <= t.raw <= SIMTIME_MAX
  }

  const MAX: SimulationTime := SimulationTime(SIMTIME_MAX)
  const ZERO: SimulationTime := SimulationTime(0)
  const SECOND: SimulationTime := SimulationTime(SIMTIME_ONE_SECOND)
  const MILLISECOND: SimulationTime := SimulationTime(SIMTIME_ONE_MILLISECOND)
  const MICROSECOND: SimulationTime := SimulationTime(SIMTIME_ONE_MICROSECOND)
  const NANOSECOND: SimulationTime := SimulationTime(SIMTIME_ONE_NANOSECOND)

  // ---------------------------------------------------------------------------
  // The C encoding

  /** `SimulationTime::from_c_simtime`: the sentinel and everything above the
      maximum have no time; every other raw value is that many nanoseconds. */
  function FromCSimtime(val: u64): (r: Option<SimulationTime>)
    ensures val == SIMTIME_INVALID ==> r == None
    ensures r.Some? <==> val <= SIMTIME_MAX
    ensures r.Some? ==> Valid(r.value) && r.value.raw == val
  {
    if val == SIMTIME_INVALID then
      None
    else if val > SIMTIME_MAX then
      None
    else
      Some(SimulationTime(val / SIMTIME_ONE_NANOSECOND))
  }

  /** `SimulationTime::to_c_simtime`: the sentinel for no time, the raw count
      otherwise; on valid times it is undone by `FromCSimtime`. */
  function ToCSimtime(val: Option<SimulationTime>): (r: u64)
    ensures val.None? ==> r == SIMTIME_INVALID
    ensures val.Some? && Valid(val.value) ==> r != SIMTIME_INVALID && FromCSimtime(r) == val
  {
    match val
    case Some(t) => t.raw
    case None => SIMTIME_INVALID
  }

  /** Decoding then re-encoding keeps every valid raw value and the sentinel,
      and collapses the values above the maximum onto the sentinel. */
  lemma {:induction false} CEncodingRoundTrip(val: u64)
    ensures ToCSimtime(FromCSimtime(val)) == if val <= SIMTIME_MAX then val else SIMTIME_INVALID
  {
  }

  // ---------------------------------------------------------------------------
  // Accessors

  /** `as_secs`: whole seconds, truncated. */
  function AsSecs(t: SimulationTime): (r: u64)
    ensures r * SIMTIME_ONE_SECOND <= t.raw < (r + 1) * SIMTIME_ONE_SECOND
  {
    t.raw / SIMTIME_ONE_SECOND
  }

  /** `as_millis`: whole milliseconds, truncated. */
  function AsMillis(t: SimulationTime): (r: u64)
    ensures r * SIMTIME_ONE_MILLISECOND <= t.raw < (r + 1) * SIMTIME_ONE_MILLISECOND
  {
    t.raw / SIMTIME_ONE_MILLISECOND
  }

  /** `as_micros`: whole microseconds, truncated. */
  function AsMicros(t: SimulationTime): (r: u64)
    ensures r * SIMTIME_ONE_MICROSECOND <= t.raw < (r + 1) * SIMTIME_ONE_MICROSECOND
  {
    t.raw / SIMTIME_ONE_MICROSECOND
  }

  /** `as_nanos` (a `u128` in the source): the tick is one nanosecond, so this
      is the raw count. */
  function AsNanos(t: SimulationTime): (r: nat)
    ensures r == t.raw
  {
    t.raw / SIMTIME_ONE_NANOSECOND
  }

  /** `subsec_millis`: fits in `u32` (the `unwrap` cannot panic) and completes
      `AsSecs` to `AsMillis`. */
  function SubsecMillis(t: SimulationTime): (r: u32)
    ensures r < 1000
    ensures AsSecs(t) * 1000 + r == AsMillis(t)
  {
    DivDiv(t.raw, SIMTIME_ONE_MILLISECOND, 1000);
    AsMillis(t) % 1_000
  }

  /** `subsec_micros`: fits in `u32` and completes `AsSecs` to `AsMicros`. */
  function SubsecMicros(t: SimulationTime): (r: u32)
    ensures r < 1_000_000
    ensures AsSecs(t) * 1_000_000 + r == AsMicros(t)
  {
    DivDiv(t.raw, SIMTIME_ONE_MICROSECOND, 1_000_000);
    AsMicros(t) % 1_000_000
  }

  /** `subsec_nanos`: fits in `u32` and completes `AsSecs` to `AsNanos`. */
  function SubsecNanos(t: SimulationTime): (r: u32)
    ensures r < 1_000_000_000
    ensures AsSecs(t) * 1_000_000_000 + r == AsNanos(t)
  {
    AsNanos(t) % 1_000_000_000
  }

  // ---------------------------------------------------------------------------
  // Checked arithmetic

  /** `checked_add`: `None` exactly when the sum overflows `u64` or exceeds
      the maximum, the exact sum otherwise. */
  function CheckedAdd(a: SimulationTime, b: SimulationTime): (r: Option<SimulationTime>)
    ensures r.Some? <==> a.raw + b.raw <= SIMTIME_MAX
    ensures r.Some? ==> Valid(r.value) && r.value.raw == a.raw + b.raw
  {
    match CheckedAddU64(a.raw, b.raw)
    case None => None
    case Some(sum) => FromCSimtime(sum)
  }

  /** `checked_mul`: `None` exactly when the product overflows `u64` or
      exceeds the maximum, the exact product otherwise. */
  function CheckedMul(t: SimulationTime, n: u64): (r: Option<SimulationTime>)
    ensures r.Some? <==> t.raw * n <= SIMTIME_MAX
    ensures r.Some? ==> Valid(r.value) && r.value.raw == t.raw * n
  {
    match CheckedMulU64(t.raw, n)
    case None => None
    case Some(product) => FromCSimtime(product)
  }

  /** `n` successive `checked_add`s of `t` onto `ZERO`, `None` from the
      first one that fails on. */
  function RepeatedAdd(t: SimulationTime, n: nat): (r: Option<SimulationTime>)
  {
    if n == 0 then
      Some(ZERO)
    else
      match RepeatedAdd(t, n - 1)
      case None => None
      case Some(sum) => CheckedAdd(sum, t)
  }

  /** `checked_mul` agrees with repeated `checked_add`: multiplying by `n`
      fails exactly when adding `t` to itself `n` times fails on the way, and
      otherwise gives the same time. */
  lemma {:induction false} CheckedMulIsRepeatedAdd(t: SimulationTime, n: u64)
    ensures CheckedMul(t, n) == RepeatedAdd(t, n)
  {
    if n > 0 {
      CheckedMulIsRepeatedAdd(t, n - 1);
      assert t.raw * n == t.raw * (n - 1) + t.raw;
    }
  }

  /** `impl Add for SimulationTime`: panics where `checked_add` fails. */
  function Add(a: SimulationTime, b: SimulationTime): (r: SimulationTime)
    requires CheckedAdd(a, b).Some?
    ensures Valid(r) && r.raw == a.raw + b.raw
  {
    CheckedAdd(a, b).value
  }

  /** `impl Mul<u64> for SimulationTime`: panics where `checked_mul` fails. */
  function Mul(t: SimulationTime, n: u64): (r: SimulationTime)
    requires CheckedMul(t, n).Some?
    ensures Valid(r) && r.raw == t.raw * n
  {
    CheckedMul(t, n).value
  }

  /** `try_from_secs`: `s` seconds if that is within range; `AsSecs` recovers `s`. */
  function TryFromSecs(s: u64): (r: Option<SimulationTime>)
    ensures r.Some? <==> s * SIMTIME_ONE_SECOND <= SIMTIME_MAX
    ensures r.Some? ==> r.value.raw == s * SIMTIME_ONE_SECOND
    ensures r.Some? ==> AsSecs(r.value) == s && SubsecNanos(r.value) == 0
  {
    CheckedMul(SECOND, s)
  }

  /** `from_secs`: panics where `try_from_secs` fails. */
  function FromSecs(s: u64): (r: SimulationTime)
    requires TryFromSecs(s).Some?
    ensures Valid(r) && AsSecs(r) == s && SubsecNanos(r) == 0
  {
    TryFromSecs(s).value
  }

  /** `try_from_millis`: `s` milliseconds if within range; `AsMillis` recovers `s`. */
  function TryFromMillis(s: u64): (r: Option<SimulationTime>)
    ensures r.Some? <==> s * SIMTIME_ONE_MILLISECOND <= SIMTIME_MAX
    ensures r.Some? ==> r.value.raw == s * SIMTIME_ONE_MILLISECOND && AsMillis(r.value) == s
  {
    CheckedMul(MILLISECOND, s)
  }

  /** `from_millis`: panics where `try_from_millis` fails. */
  function FromMillis(s: u64): (r: SimulationTime)
    requires TryFromMillis(s).Some?
    ensures Valid(r) && r.raw == s * SIMTIME_ONE_MILLISECOND && AsMillis(r) == s
  {
    TryFromMillis(s).value
  }

  /** `try_from_micros`: `s` microseconds if within range; `AsMicros` recovers `s`. */
  function TryFromMicros(s: u64): (r: Option<SimulationTime>)
    ensures r.Some? <==> s * SIMTIME_ONE_MICROSECOND <= SIMTIME_MAX
    ensures r.Some? ==> r.value.raw == s * SIMTIME_ONE_MICROSECOND && AsMicros(r.value) == s
  {
    CheckedMul(MICROSECOND, s)
  }

  /** `from_micros`: panics where `try_from_micros` fails. */
  function FromMicros(s: u64): (r: SimulationTime)
    requires TryFromMicros(s).Some?
    ensures Valid(r) && r.raw == s * SIMTIME_ONE_MICROSECOND && AsMicros(r) == s
  {
    TryFromMicros(s).value
  }

  /** `try_from_nanos`: `s` nanoseconds if within range. */
  function TryFromNanos(s: u64): (r: Option<SimulationTime>)
    ensures r.Some? <==> s <= SIMTIME_MAX
    ensures r.Some? ==> AsNanos(r.value) == s
  {
    CheckedMul(NANOSECOND, s)
  }

  /** `from_nanos`: panics where `try_from_nanos` fails. */
  function FromNanos(s: u64): (r: SimulationTime)
    requires TryFromNanos(s).Some?
    ensures Valid(r) && AsNanos(r) == s
  {
    TryFromNanos(s).value
  }

  /** The unit constants are valid times and each is the checked multiple of
      the next smaller one. */
  lemma UnitsConsistent()
    ensures Valid(ZERO) && Valid(NANOSECOND) && Valid(MICROSECOND) && Valid(MILLISECOND) && Valid(SECOND) && Valid(MAX)
    ensures CheckedMul(NANOSECOND, 1000) == Some(MICROSECOND)
    ensures CheckedMul(MICROSECOND, 1000) == Some(MILLISECOND)
    ensures CheckedMul(MILLISECOND, 1000) == Some(SECOND)
    ensures TryFromSecs(60) == Some(SimulationTime(SIMTIME_ONE_MINUTE))
    ensures CheckedMul(SimulationTime(SIMTIME_ONE_MINUTE), 60) == Some(SimulationTime(SIMTIME_ONE_HOUR))
  {
  }

  /** Re-building a valid time from its whole microseconds truncates it to
      the microsecond: never later, and less than a microsecond earlier. */
  lemma {:induction false} MicrosTruncation(t: SimulationTime)
    requires Valid(t)
    ensures TryFromMicros(AsMicros(t)).Some?
    ensures FromMicros(AsMicros(t)).raw <= t.raw < FromMicros(AsMicros(t)).raw + SIMTIME_ONE_MICROSECOND
    ensures FromMicros(AsMicros(t)).raw == t.raw - t.raw % SIMTIME_ONE_MICROSECOND
  {
  }
}
