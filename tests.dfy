/** The unit tests of `simulation_time.rs`, stated as lemmas over every
    admissible `SIMTIME_MAX`, plus the two output-pointer tests as client
    methods of the bridges. */
module SimtimeTests {
  import opened Wrappers
  import opened Primitives
  import opened Simtime
  import opened LibcTime
  import opened SimtimeConversions
  import opened SimtimeExport
  import StdTime

  /** `test_from_csimtime`. */
  lemma TestFromCSimtime()
    ensures FromCSimtime(5 * SIMTIME_ONE_MINUTE + 7 * SIMTIME_ONE_MILLISECOND).Some?
    ensures var t := FromCSimtime(5 * SIMTIME_ONE_MINUTE + 7 * SIMTIME_ONE_MILLISECOND).value;
            StdTime.AsSecs(ToDuration(t)) == 5 * 60
            && StdTime.AsMillis(ToDuration(t)) == 5 * 60 * 1_000 + 7
    ensures FromCSimtime(SIMTIME_MAX)
            == FromDuration(StdTime.FromNanos(SIMTIME_MAX / SIMTIME_ONE_NANOSECOND)).ToOption()
    ensures FromCSimtime(SIMTIME_MAX) == Some(MAX)
    ensures FromCSimtime(SIMTIME_MAX + 1) == None
  {
    var t := FromCSimtime(5 * SIMTIME_ONE_MINUTE + 7 * SIMTIME_ONE_MILLISECOND).value;
    assert StdTime.AsNanos(ToDuration(t)) == 300_007_000_000;
  }

  /** `test_to_csimtime`. */
  lemma TestToCSimtime()
    ensures TryFromSecs(5 * 60).Some? && TryFromMillis(7).Some?
    ensures CheckedAdd(FromSecs(5 * 60), FromMillis(7)).Some?
    ensures ToCSimtime(Some(Add(FromSecs(5 * 60), FromMillis(7))))
            == 5 * SIMTIME_ONE_MINUTE + 7 * SIMTIME_ONE_MILLISECOND
    ensures ToCSimtime(None) == SIMTIME_INVALID
    ensures ToCSimtime(Some(MAX)) == SIMTIME_MAX
  {
  }

  /** `test_from_timeval`, the accepted inputs. */
  lemma TestFromTimeval()
    ensures FromTimeval(Timeval(0, 0)) == Ok(ZERO)
    ensures FromTimeval(Timeval(1, 2))
            == FromDuration(StdTime.Add(StdTime.FromSecs(1), StdTime.FromMicros(2)))
    ensures FromTimeval(Timeval(1, 2)) == Ok(SimulationTime(1_000_002_000))
    ensures TryFromMicros(AsMicros(MAX)).Some?
    ensures FromTimeval(Timeval(AsSecs(MAX), SubsecMicros(MAX))) == Ok(FromMicros(AsMicros(MAX)))
  {
    TimevalRoundTrip(MAX);
  }

  /** `test_from_timeval`, the rejected inputs. */
  lemma TestFromTimevalRejects()
    ensures FromTimeval(Timeval(I64_MAX, 999_999)) == Err
    ensures FromTimeval(Timeval(0, 1_000_000)) == Err
    ensures FromTimeval(Timeval(0, -1)) == Err
    ensures FromTimeval(Timeval(-1, 0)) == Err
    ensures FromTimeval(Timeval(-1, -1)) == Err
  {
  }

  /** `test_c_from_timeval`, the accepted inputs. */
  lemma TestCFromTimeval()
    ensures SimtimeFromTimeval(Timeval(0, 0)) == 0
    ensures SimtimeFromTimeval(Timeval(1, 2)) == SIMTIME_ONE_SECOND + 2 * SIMTIME_ONE_MICROSECOND
  {
  }

  /** `test_c_from_timeval`, the rejected inputs. */
  lemma TestCFromTimevalRejects()
    ensures SimtimeFromTimeval(Timeval(I64_MAX, 999_999)) == SIMTIME_INVALID
    ensures SimtimeFromTimeval(Timeval(0, 1_000_000)) == SIMTIME_INVALID
    ensures SimtimeFromTimeval(Timeval(0, -1)) == SIMTIME_INVALID
    ensures SimtimeFromTimeval(Timeval(-1, 0)) == SIMTIME_INVALID
    ensures SimtimeFromTimeval(Timeval(-1, -1)) == SIMTIME_INVALID
  {
    TestFromTimevalRejects();
  }

  /** `test_to_timeval`. */
  lemma TestToTimeval()
    ensures ToTimeval(ZERO) == Ok(Timeval(0, 0))
    ensures FromDuration(StdTime.Add(StdTime.FromSecs(1), StdTime.FromMicros(2))).Ok?
    ensures ToTimeval(FromDuration(StdTime.Add(StdTime.FromSecs(1), StdTime.FromMicros(2))).value)
            == Ok(Timeval(1, 2))
    ensures ToTimeval(MAX) == Ok(Timeval(AsSecs(MAX), SubsecMicros(MAX)))
  {
    var t := FromDuration(StdTime.Add(StdTime.FromSecs(1), StdTime.FromMicros(2))).value;
    assert t.raw == 1_000_002_000;
  }

  /** `test_c_to_timeval`. */
  method TestCToTimeval()
  {
    var tv := new TimevalOut(Timeval(0, 0));
    var ok := SimtimeToTimeval(0, tv);
    assert ok && tv.pointee == Timeval(0, 0);

    ok := SimtimeToTimeval(SIMTIME_ONE_SECOND + 2 * SIMTIME_ONE_MICROSECOND, tv);
    assert ok && tv.pointee == Timeval(1, 2);

    ok := SimtimeToTimeval(SIMTIME_MAX, tv);
    var d := StdTime.FromNanos(SIMTIME_MAX / SIMTIME_ONE_NANOSECOND);
    assert ok && tv.pointee == Timeval(StdTime.AsSecs(d), StdTime.SubsecMicros(d));

    ok := SimtimeToTimeval(SIMTIME_INVALID, tv);
    assert !ok && tv.pointee == Timeval(StdTime.AsSecs(d), StdTime.SubsecMicros(d));
  }

  /** `test_from_timespec`, the accepted inputs. */
  lemma TestFromTimespec()
    ensures FromTimespec(Timespec(0, 0)) == Ok(ZERO)
    ensures FromTimespec(Timespec(1, 2))
            == FromDuration(StdTime.Add(StdTime.FromSecs(1), StdTime.FromNanos(2)))
    ensures FromTimespec(Timespec(1, 2)) == Ok(SimulationTime(1_000_000_002))
  {
  }

  /** `test_from_timespec`, the whole seconds of the maximum. */
  lemma TestFromTimespecMaxSecs()
    ensures FromTimespec(Timespec(SIMTIME_MAX / SIMTIME_ONE_SECOND, 0))
            == FromDuration(StdTime.FromSecs(SIMTIME_MAX / SIMTIME_ONE_SECOND))
    ensures FromTimespec(Timespec(SIMTIME_MAX / SIMTIME_ONE_SECOND, 0)).Ok?
  {
  }

  /** `test_from_timespec`, the rejected inputs. */
  lemma TestFromTimespecRejects()
    ensures FromTimespec(Timespec(I64_MAX, 999_999_999)) == Err
    ensures FromTimespec(Timespec(0, 1_000_000_000)) == Err
    ensures FromTimespec(Timespec(0, -1)) == Err
    ensures FromTimespec(Timespec(-1, 0)) == Err
    ensures FromTimespec(Timespec(-1, -1)) == Err
  {
  }

  /** `test_c_from_timespec`, the accepted inputs. */
  lemma TestCFromTimespec()
    ensures SimtimeFromTimespec(Timespec(0, 0)) == 0
    ensures SimtimeFromTimespec(Timespec(1, 2)) == SIMTIME_ONE_SECOND + 2 * SIMTIME_ONE_NANOSECOND
  {
  }

  /** `test_c_from_timespec`, the rejected inputs. */
  lemma TestCFromTimespecRejects()
    ensures SimtimeFromTimespec(Timespec(I64_MAX, 999_999_999)) == SIMTIME_INVALID
    ensures SimtimeFromTimespec(Timespec(0, 1_000_000_000)) == SIMTIME_INVALID
    ensures SimtimeFromTimespec(Timespec(0, -1)) == SIMTIME_INVALID
    ensures SimtimeFromTimespec(Timespec(-1, 0)) == SIMTIME_INVALID
    ensures SimtimeFromTimespec(Timespec(-1, -1)) == SIMTIME_INVALID
  {
    TestFromTimespecRejects();
  }

  /** `test_to_timespec`. */
  lemma TestToTimespec()
    ensures ToTimespec(ZERO) == Ok(Timespec(0, 0))
    ensures TryFromSecs(1).Some? && TryFromNanos(2).Some?
    ensures CheckedAdd(FromSecs(1), FromNanos(2)).Some?
    ensures ToTimespec(Add(FromSecs(1), FromNanos(2))) == Ok(Timespec(1, 2))
    ensures ToTimespec(MAX) == Ok(Timespec(AsSecs(MAX), SubsecNanos(MAX)))
  {
  }

  /** `test_c_to_timespec`. */
  method TestCToTimespec()
  {
    var ts := new TimespecOut(Timespec(0, 0));
    var ok := SimtimeToTimespec(0, ts);
    assert ok && ts.pointee == Timespec(0, 0);

    ok := SimtimeToTimespec(SIMTIME_ONE_SECOND + 2 * SIMTIME_ONE_NANOSECOND, ts);
    assert ok && ts.pointee == Timespec(1, 2);

    ok := SimtimeToTimespec(SIMTIME_MAX, ts);
    var d := StdTime.FromNanos(SIMTIME_MAX / SIMTIME_ONE_NANOSECOND);
    assert ok && ts.pointee == Timespec(StdTime.AsSecs(d), StdTime.SubsecNanos(d));

    ok := SimtimeToTimespec(SIMTIME_INVALID, ts);
    assert !ok && ts.pointee == Timespec(StdTime.AsSecs(d), StdTime.SubsecNanos(d));
  }
}
