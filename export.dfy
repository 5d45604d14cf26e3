/** `mod export`: the four `extern "C"` bridges. Failures never escape as a
    panic: the `from` bridges answer the sentinel and the `to` bridges answer
    `false` and leave the output untouched. */
module SimtimeExport {
  import opened Primitives
  import opened Simtime
  import opened LibcTime
  import opened SimtimeConversions

  /** The caller's `*mut timeval`, assumed non-null and valid. */
  class TimevalOut {
    var pointee: Timeval

    constructor (init: Timeval)
      ensures pointee == init
    {
      pointee := init;
    }
  }

  /** The caller's `*mut timespec`, assumed non-null and valid. */
  class TimespecOut {
    var pointee: Timespec

    constructor (init: Timespec)
      ensures pointee == init
    {
      pointee := init;
    }
  }

  /** `simtime_from_timeval`: the sentinel exactly when the conversion fails,
      otherwise the nanoseconds the `timeval` denotes. */
  function SimtimeFromTimeval(val: Timeval): (r: u64)
    ensures r == SIMTIME_INVALID <==> FromTimeval(val).Err?
    ensures r != SIMTIME_INVALID ==>
              r == val.tv_sec * SIMTIME_ONE_SECOND + val.tv_usec * SIMTIME_ONE_MICROSECOND
  {
    ToCSimtime(FromTimeval(val).ToOption())
  }

  /** `simtime_from_timespec`: the sentinel exactly when the conversion fails,
      otherwise the nanoseconds the `timespec` denotes. */
  function SimtimeFromTimespec(val: Timespec): (r: u64)
    ensures r == SIMTIME_INVALID <==> FromTimespec(val).Err?
    ensures r != SIMTIME_INVALID ==> r == val.tv_sec * SIMTIME_ONE_SECOND + val.tv_nsec
  {
    ToCSimtime(FromTimespec(val).ToOption())
  }

  /** `simtime_to_timeval`: `false`, with `*out` untouched, for the sentinel
      and every value above the maximum; otherwise writes the whole seconds
      and the whole microseconds of the second to `*out`. */
  method SimtimeToTimeval(val: u64, out: TimevalOut) returns (ok: bool)
    modifies out
    ensures ok <==> val <= SIMTIME_MAX
    ensures ok ==> out.pointee == Timeval(val / SIMTIME_ONE_SECOND,
                                          val % SIMTIME_ONE_SECOND / SIMTIME_ONE_MICROSECOND)
    ensures !ok ==> out.pointee == old(out.pointee)
  {
    var simtime: SimulationTime;
    match FromCSimtime(val) {
      case None => return false;
      case Some(s) => simtime := s;
    }
    var tv: Timeval;
    match ToTimeval(simtime) {
      case Err => return false;
      case Ok(v) => tv := v;
    }
    ModDiv(val, SIMTIME_ONE_MICROSECOND, 1_000_000);
    out.pointee := tv;
    return true;
  }

  /** `simtime_to_timespec`: `false`, with `*out` untouched, for the sentinel
      and every value above the maximum; otherwise writes the whole seconds
      and the nanoseconds of the second to `*out`. */
  method SimtimeToTimespec(val: u64, out: TimespecOut) returns (ok: bool)
    modifies out
    ensures ok <==> val <= SIMTIME_MAX
    ensures ok ==> out.pointee == Timespec(val / SIMTIME_ONE_SECOND, val % SIMTIME_ONE_SECOND)
    ensures !ok ==> out.pointee == old(out.pointee)
  {
    var simtime: SimulationTime;
    match FromCSimtime(val) {
      case None => return false;
      case Some(s) => simtime := s;
    }
    var ts: Timespec;
    match ToTimespec(simtime) {
      case Err => return false;
      case Ok(v) => ts := v;
    }
    out.pointee := ts;
    return true;
  }

  /** What `SimtimeToTimespec` writes for a valid value, `SimtimeFromTimespec`
      turns back into that value. */
  lemma {:induction false} TimespecBridgeRoundTrip(val: u64)
    requires val <= SIMTIME_MAX
    ensures SimtimeFromTimespec(Timespec(val / SIMTIME_ONE_SECOND, val % SIMTIME_ONE_SECOND)) == val
  {
    TimespecRoundTrip(SimulationTime(val));
  }

  /** What `SimtimeToTimeval` writes for a valid value, `SimtimeFromTimeval`
      turns into that value truncated to the microsecond. */
  lemma {:induction false} TimevalBridgeRoundTrip(val: u64)
    requires val <= SIMTIME_MAX
    ensures SimtimeFromTimeval(Timeval(val / SIMTIME_ONE_SECOND,
                                       val % SIMTIME_ONE_SECOND / SIMTIME_ONE_MICROSECOND))
            == val - val % SIMTIME_ONE_MICROSECOND
  {
    var t := SimulationTime(val);
    TimevalRoundTrip(t);
    ModDiv(val, SIMTIME_ONE_MICROSECOND, 1_000_000);
  }
}
