/** The `From`/`TryFrom` impls between `SimulationTime` and
    `std::time::Duration`, `libc::timespec`, `libc::timeval` and the raw
    C integer. */
module SimtimeConversions {
  import opened Wrappers
  import opened Primitives
  import opened Simtime
  import opened LibcTime
  import StdTime

  // ---------------------------------------------------------------------------
  // Duration

  /** `TryFrom<Duration> for SimulationTime`: fails exactly when the
      duration's nanoseconds exceed the maximum. */
  function FromDuration(d: StdTime.Duration): (r: Result<SimulationTime>)
    ensures r.Ok? <==> StdTime.AsNanos(d) <= SIMTIME_MAX
    ensures r.Ok? ==> Valid(r.value) && AsNanos(r.value) == StdTime.AsNanos(d)
  {
    var val := StdTime.AsNanos(d);
    if val > SIMTIME_MAX then Err else Ok(SimulationTime(val))
  }

  /** `From<SimulationTime> for Duration`: lossless, and splits the time the
      same way the `SimulationTime` accessors do. */
  function ToDuration(t: SimulationTime): (d: StdTime.Duration)
    ensures StdTime.AsNanos(d) == AsNanos(t)
    ensures StdTime.AsSecs(d) == AsSecs(t) && StdTime.SubsecNanos(d) == SubsecNanos(t)
  {
    StdTime.FromNanos(t.raw)
  }

  /** `From<SimulationTime> for c::SimulationTime`: the raw count, which the
      C decoder maps back to the same time. */
  function IntoCSimtime(t: SimulationTime): (r: u64)
    ensures Valid(t) ==> FromCSimtime(r) == Some(t)
    ensures Valid(t) ==> r != SIMTIME_INVALID
  {
    t.raw
  }

  /** Time to duration and back is the identity. */
  lemma {:induction false} DurationRoundTrip(t: SimulationTime)
    requires Valid(t)
    ensures FromDuration(ToDuration(t)) == Ok(t)
  {
  }

  /** Duration to time and back is the identity on every duration the
      conversion accepts. */
  lemma {:induction false} DurationRoundTripFromDuration(d: StdTime.Duration)
    requires FromDuration(d).Ok?
    ensures ToDuration(FromDuration(d).value) == d
  {
    StdTime.AsNanosInjective(ToDuration(FromDuration(d).value), d);
  }

  // ---------------------------------------------------------------------------
  // timespec

  /** `TryFrom<timespec> for SimulationTime`: rejects a negative field, a
      `tv_nsec` of a second or more, and a total above the maximum; accepts
      everything else as `tv_sec` seconds plus `tv_nsec` nanoseconds. */
  function FromTimespec(ts: Timespec): (r: Result<SimulationTime>)
    ensures r.Ok? <==> TimespecInRange(ts)
                       && ts.tv_sec * SIMTIME_ONE_SECOND + ts.tv_nsec <= SIMTIME_MAX
    ensures r.Ok? ==> Valid(r.value)
                      && r.value.raw == ts.tv_sec * SIMTIME_ONE_SECOND + ts.tv_nsec
  {
    if ts.tv_sec < 0 || ts.tv_nsec < 0 || ts.tv_nsec > 999_999_999 then
      Err
    else
      var secs := StdTime.FromSecs(ts.tv_sec);
      var nanos := StdTime.FromNanos(ts.tv_nsec);
      FromDuration(StdTime.Add(secs, nanos))
  }

  /** `TryFrom<SimulationTime> for timespec`: with a 64-bit `time_t` it never
      fails, and yields the whole seconds and the sub-second nanoseconds. */
  function ToTimespec(t: SimulationTime): (r: Result<Timespec>)
    ensures r == Ok(Timespec(AsSecs(t), SubsecNanos(t)))
    ensures TimespecInRange(r.value)
  {
    var d := ToDuration(t);
    match TryIntoI64(StdTime.AsSecs(d))
    case None => Err
    case Some(tv_sec) =>
      match TryIntoI64(StdTime.SubsecNanos(d))
      case None => Err
      case Some(tv_nsec) => Ok(Timespec(tv_sec, tv_nsec))
  }

  /** A valid time is accepted back from its whole seconds and its
      sub-second nanoseconds. */
  lemma {:induction false} FromTimespecOfSplit(t: SimulationTime)
    requires Valid(t)
    ensures FromTimespec(Timespec(AsSecs(t), SubsecNanos(t))) == Ok(t)
  {
    var ts := Timespec(AsSecs(t), SubsecNanos(t));
    assert TimespecInRange(ts);
    assert ts.tv_sec * SIMTIME_ONE_SECOND + ts.tv_nsec == t.raw;
  }

  /** Time to `timespec` and back is the identity. */
  lemma {:induction false} TimespecRoundTrip(t: SimulationTime)
    requires Valid(t)
    ensures FromTimespec(ToTimespec(t).value) == Ok(t)
  {
    FromTimespecOfSplit(t);
  }

  /** `timespec` to time and back is the identity on every accepted `timespec`. */
  lemma {:induction false} TimespecRoundTripFromTimespec(ts: Timespec)
    requires FromTimespec(ts).Ok?
    ensures ToTimespec(FromTimespec(ts).value) == Ok(ts)
  {
    var n := FromTimespec(ts).value.raw;
    DivModUnique(n, SIMTIME_ONE_SECOND, ts.tv_sec, ts.tv_nsec);
  }

  // ---------------------------------------------------------------------------
  // timeval

  /** `TryFrom<timeval> for SimulationTime`: rejects a negative field, a
      `tv_usec` of a second or more, and a total above the maximum; accepts
      everything else as `tv_sec` seconds plus `tv_usec` microseconds. */
  function FromTimeval(tv: Timeval): (r: Result<SimulationTime>)
    ensures r.Ok? <==> TimevalInRange(tv)
                       && tv.tv_sec * SIMTIME_ONE_SECOND + tv.tv_usec * SIMTIME_ONE_MICROSECOND <= SIMTIME_MAX
    ensures r.Ok? ==> Valid(r.value)
                      && r.value.raw == tv.tv_sec * SIMTIME_ONE_SECOND + tv.tv_usec * SIMTIME_ONE_MICROSECOND
  {
    if tv.tv_sec < 0 || tv.tv_usec < 0 || tv.tv_usec > 999_999 then
      Err
    else
      var secs := StdTime.FromSecs(tv.tv_sec);
      var micros := StdTime.FromMicros(tv.tv_usec);
      FromDuration(StdTime.Add(secs, micros))
  }

  /** `TryFrom<SimulationTime> for timeval`: with a 64-bit `time_t` it never
      fails, and yields the whole seconds and the sub-second microseconds
      (the nanoseconds below a microsecond are dropped). */
  function ToTimeval(t: SimulationTime): (r: Result<Timeval>)
    ensures r == Ok(Timeval(AsSecs(t), SubsecMicros(t)))
    ensures TimevalInRange(r.value)
  {
    var d := ToDuration(t);
    ModDiv(t.raw, SIMTIME_ONE_MICROSECOND, 1_000_000);
    DivDiv(t.raw, SIMTIME_ONE_MICROSECOND, 1_000_000);
    match TryIntoI64(StdTime.AsSecs(d))
    case None => Err
    case Some(tv_sec) =>
      match TryIntoI64(StdTime.SubsecMicros(d))
      case None => Err
      case Some(tv_usec) => Ok(Timeval(tv_sec, tv_usec))
  }

  /** Time to `timeval` and back truncates to whole microseconds. */
  lemma {:induction false} TimevalRoundTrip(t: SimulationTime)
    requires Valid(t)
    ensures TryFromMicros(AsMicros(t)).Some?
    ensures FromTimeval(ToTimeval(t).value) == Ok(FromMicros(AsMicros(t)))
  {
    MicrosTruncation(t);
  }

  /** `timeval` to time and back is the identity on every accepted `timeval`. */
  lemma {:induction false} TimevalRoundTripFromTimeval(tv: Timeval)
    requires FromTimeval(tv).Ok?
    ensures ToTimeval(FromTimeval(tv).value) == Ok(tv)
  {
    var t := FromTimeval(tv).value;
    var micros := tv.tv_sec * 1_000_000 + tv.tv_usec;
    assert t.raw == micros * SIMTIME_ONE_MICROSECOND;
    DivModUnique(t.raw, SIMTIME_ONE_MICROSECOND, micros, 0);
    DivModUnique(micros, 1_000_000, tv.tv_sec, tv.tv_usec);
    DivDiv(t.raw, SIMTIME_ONE_MICROSECOND, 1_000_000);
  }

  /** The sub-second fields are checked at their modulus: one below it is
      accepted, the modulus itself is not. */
  lemma SubsecondBoundaries()
    ensures FromTimespec(Timespec(0, 999_999_999)) == Ok(SimulationTime(999_999_999))
    ensures FromTimespec(Timespec(0, 1_000_000_000)) == Err
    ensures FromTimeval(Timeval(0, 999_999)) == Ok(SimulationTime(999_999_000))
    ensures FromTimeval(Timeval(0, 1_000_000)) == Err
  {
  }
}
