/** The part of `std::time::Duration` the simulated-time conversions use:
    whole seconds plus a sub-second nanosecond count below one second. */
module StdTime {
  import opened Wrappers
  import opened Primitives

  const NANOS_PER_SEC: nat := 1_000_000_000
  const NANOS_PER_MILLI: nat := 1_000_000
  const NANOS_PER_MICRO: nat := 1_000
  const MILLIS_PER_SEC: nat := 1_000
  const MICROS_PER_SEC: nat := 1_000_000

  type Nanos = n: u32 | n < NANOS_PER_SEC

  datatype Duration = Duration(secs: u64, nanos: Nanos)

  /** `Duration::as_nanos` (a `u128` in the source, unbounded here). */
  function AsNanos(d: Duration): (r: nat)
    ensures d.secs * NANOS_PER_SEC <= r < (d.secs + 1) * NANOS_PER_SEC
  {
    d.secs * NANOS_PER_SEC + d.nanos
  }

  /** `Duration::as_secs`: the whole seconds, truncated. */
  function AsSecs(d: Duration): (r: u64)
    ensures r * NANOS_PER_SEC <= AsNanos(d) < (r + 1) * NANOS_PER_SEC
  {
    d.secs
  }

  /** `Duration::as_millis`: the whole milliseconds, truncated. */
  function AsMillis(d: Duration): (r: nat)
    ensures r * NANOS_PER_MILLI <= AsNanos(d) < (r + 1) * NANOS_PER_MILLI
  {
    d.secs * MILLIS_PER_SEC + d.nanos / NANOS_PER_MILLI
  }

  /** `Duration::subsec_nanos`: what `AsSecs` leaves over. */
  function SubsecNanos(d: Duration): (r: u32)
    ensures r < NANOS_PER_SEC && AsSecs(d) * NANOS_PER_SEC + r == AsNanos(d)
  {
    d.nanos
  }

  /** `Duration::subsec_micros`: the sub-second part in whole microseconds. */
  function SubsecMicros(d: Duration): (r: u32)
    ensures r < MICROS_PER_SEC
    ensures r * NANOS_PER_MICRO <= SubsecNanos(d) < (r + 1) * NANOS_PER_MICRO
  {
    d.nanos / NANOS_PER_MICRO
  }

  /** `Duration::from_secs`. */
  function FromSecs(s: u64): (d: Duration)
    ensures AsNanos(d) == s * NANOS_PER_SEC
  {
    Duration(s, 0)
  }

  /** `Duration::from_nanos`: splits the count at the second. */
  function FromNanos(n: u64): (d: Duration)
    ensures AsNanos(d) == n
  {
    Duration(n / NANOS_PER_SEC, n % NANOS_PER_SEC)
  }

  /** `Duration::from_micros`. */
  function FromMicros(us: u64): (d: Duration)
    ensures AsNanos(d) == us * NANOS_PER_MICRO
  {
    Duration(us / MICROS_PER_SEC, (us % MICROS_PER_SEC) * NANOS_PER_MICRO)
  }

  /** `Duration::checked_add`: adds the seconds, carries one second out of the
      nanoseconds, and fails when the seconds overflow `u64`. */
  function CheckedAdd(a: Duration, b: Duration): (r: Option<Duration>)
    ensures r.Some? <==> AsNanos(a) + AsNanos(b) < (U64_MAX + 1) * NANOS_PER_SEC
    ensures r.Some? ==> AsNanos(r.value) == AsNanos(a) + AsNanos(b)
  {
    match CheckedAddU64(a.secs, b.secs)
    case None => None
    case Some(secs) =>
      var nanos := a.nanos + b.nanos;
      if nanos >= NANOS_PER_SEC then
        match CheckedAddU64(secs, 1)
        case None => None
        case Some(secs') => Some(Duration(secs', nanos - NANOS_PER_SEC))
      else
        Some(Duration(secs, nanos))
  }

  /** `impl Add for Duration`: panics ("overflow when adding durations")
      where `CheckedAdd` fails, so that is excluded here. */
  function Add(a: Duration, b: Duration): (r: Duration)
    requires CheckedAdd(a, b).Some?
    ensures AsNanos(r) == AsNanos(a) + AsNanos(b)
  {
    CheckedAdd(a, b).value
  }

  /** A duration is determined by its nanosecond count: the representation
      with `nanos < NANOS_PER_SEC` is unique. */
  lemma AsNanosInjective(a: Duration, b: Duration)
    requires AsNanos(a) == AsNanos(b)
    ensures a == b
  {
    DivModUnique(AsNanos(a), NANOS_PER_SEC, a.secs, a.nanos);
    DivModUnique(AsNanos(b), NANOS_PER_SEC, b.secs, b.nanos);
  }

  /** `FromNanos` is the inverse of `AsNanos` on durations that fit in `u64` nanoseconds. */
  lemma FromNanosAsNanos(d: Duration)
    requires AsNanos(d) <= U64_MAX
    ensures FromNanos(AsNanos(d)) == d
  {
    AsNanosInjective(FromNanos(AsNanos(d)), d);
  }
}
