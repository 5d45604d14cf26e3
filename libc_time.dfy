/** The POSIX time structures of `<time.h>` and `<sys/time.h>`, with the
    64-bit field types of the platforms modelled (`time_t`, `c_long` and
    `suseconds_t` are all `i64`). Nothing bounds the fields here: the
    conversions check them. */
module LibcTime {
  import opened Primitives

  /** `struct timespec { time_t tv_sec; long tv_nsec; }` */
  datatype Timespec = Timespec(tv_sec: i64, tv_nsec: i64)

  /** `struct timeval { time_t tv_sec; suseconds_t tv_usec; }` */
  datatype Timeval = Timeval(tv_sec: i64, tv_usec: i64)

  /** The range POSIX gives a normalised `timespec`. */
  predicate TimespecInRange(ts: Timespec)
  {
    0 <= ts.tv_sec && 0 <= ts.tv_nsec < 1_000_000_000
  }

  /** The range POSIX gives a normalised `timeval`. */
  predicate TimevalInRange(tv: Timeval)
  {
    0 <= tv.tv_sec && 0 <= tv.tv_usec < 1_000_000
  }
}
