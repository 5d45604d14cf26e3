# Simulated time: the value type and its conversions

A model of `SimulationTime` in `src/main/core/support/simulation_time.rs`.
This is the simulator's nanosecond clock value. It is a `u64` count of
nanoseconds since the simulation started. Every valid value lies in
`[SIMTIME_MIN, SIMTIME_MAX]`. At the C boundary the all-ones pattern
`SIMTIME_INVALID` means "no time".

The model covers:

- the unit constants and the `SimulationTime` constants;
- the raw C encoding (`from_c_simtime`, `to_c_simtime`, `From<SimulationTime> for c::SimulationTime`);
- the truncating accessors (`as_secs`, `as_millis`, `as_micros`, `as_nanos`) and the `subsec_*` remainders;
- overflow-checked addition and multiplication, the `try_from_*`/`from_*` constructors and the panicking `+` and `*` operators;
- the `TryFrom`/`From` conversions to and from `std::time::Duration`, `libc::timespec` and `libc::timeval`;
- the four `extern "C"` bridges of `mod export`.

Files, one module each:

| file | module | what |
|---|---|---|
| `wrappers.dfy` | `Wrappers` | `Option`, and `Result` with the unit error `()` |
| `primitives.dfy` | `Primitives` | `u32`, `u64` and `i64` as integer ranges; `u64::checked_add`/`checked_mul`; `try_into` an `i64`; division lemmas |
| `std_time.dfy` | `StdTime` | the part of `std::time::Duration` the conversions use |
| `libc_time.dfy` | `LibcTime` | POSIX `timespec` and `timeval` with 64-bit fields |
| `simulation_time.dfy` | `Simtime` | the value type, its constants, the C encoding, accessors and checked arithmetic |
| `conversions.dfy` | `SimtimeConversions` | the `From`/`TryFrom` impls |
| `export.dfy` | `SimtimeExport` | the four C bridges; each output pointer is an object with a `pointee` field |
| `tests.dfy` | `SimtimeTests` | the file's unit tests, as lemmas and client methods |

Modelling choices:

- `SIMTIME_MAX` is computed from `EMUTIME_MAX` and `SIMULATION_START_SEC`, which are defined in another file. Here it is a constant with no given value. Its type only says `SIMTIME_ONE_HOUR <= SIMTIME_MAX < SIMTIME_INVALID`. The upper bound is what keeps the sentinel apart from every valid value. The test at `simulation_time.rs:328` relies on it when it evaluates `SIMTIME_MAX + 1`. The lower bound assumes that an hour fits. The source's constants `SimulationTime::SECOND` and friends, and its tests (five minutes, one second), rely on that. Every proof holds for every such value.
- A `SimulationTime` wraps a raw `u64`. The predicate `Valid` is the range invariant. The source's constructors establish it, and each function that builds a time proves it.
- `time_t`, `suseconds_t` and `c_long` are 64-bit signed integers. `as_nanos` returns a `u128` in the source and a `nat` here.
- The output pointers of `simtime_to_timeval` and `simtime_to_timespec` are assumed valid and non-null. They are modelled as objects. The bridge methods may modify only those objects.
- `TestCToTimeval` and `TestCToTimespec` model the tests at lines 516-553 and 726-763. They are client methods with assertions and no contract, so they have no row below. Each also checks that a sentinel call leaves the output unchanged.

## Model

| member | source | states |
|---|---|---|
| `Wrappers.Result.ToOption` | src/main/core/support/simulation_time.rs:260 | `Result::ok`: `Some` exactly on `Ok`, with the same value |
| `Primitives.CheckedAddU64` | src/main/core/support/simulation_time.rs:68 | `u64::checked_add` (documented std behaviour): a value exactly when the sum fits in 64 bits, and then the exact sum |
| `Primitives.CheckedMulU64` | src/main/core/support/simulation_time.rs:77 | `u64::checked_mul` (documented std behaviour): a value exactly when the product fits in 64 bits, and then the exact product |
| `Primitives.TryIntoI64` | src/main/core/support/simulation_time.rs:190-191 | the `try_into()` into the 64-bit signed `time_t`/`c_long`/`suseconds_t` (documented std behaviour; also used at lines 214-215): succeeds exactly when the value is in the `i64` range, and then keeps it unchanged |
| `StdTime.AsNanos` | src/main/core/support/simulation_time.rs:150 | `Duration::as_nanos`: the total length in nanoseconds (a `u128` in the source, unbounded here), which lies within the duration's whole second; every other `StdTime` contract is stated in it |
| `StdTime.AsSecs` | src/main/core/support/simulation_time.rs:190 | `Duration::as_secs` is the number of whole seconds in the duration |
| `StdTime.AsMillis` | src/main/core/support/simulation_time.rs:319 | `Duration::as_millis` is the number of whole milliseconds in the duration |
| `StdTime.SubsecNanos` | src/main/core/support/simulation_time.rs:191 | `Duration::subsec_nanos` is below a second and completes the whole seconds to the total |
| `StdTime.SubsecMicros` | src/main/core/support/simulation_time.rs:215 | `Duration::subsec_micros` is below 10^6 and is the sub-second nanoseconds truncated to microseconds |
| `StdTime.FromSecs` | src/main/core/support/simulation_time.rs:179 | `Duration::from_secs(s)` lasts `s·10^9` ns |
| `StdTime.FromNanos` | src/main/core/support/simulation_time.rs:162 | `Duration::from_nanos(n)` lasts exactly `n` ns |
| `StdTime.FromMicros` | src/main/core/support/simulation_time.rs:204 | `Duration::from_micros(us)` lasts `us·1000` ns |
| `StdTime.CheckedAdd` | src/main/core/support/simulation_time.rs:181 | `Duration` addition fails exactly when the seconds overflow `u64`, and otherwise adds the nanosecond totals |
| `StdTime.Add` | src/main/core/support/simulation_time.rs:205 | `Duration + Duration`, defined where `checked_add` succeeds, adds the nanosecond totals |
| `StdTime.AsNanosInjective` | src/main/core/support/simulation_time.rs:145-164 | a `Duration` is determined by its nanosecond total |
| `StdTime.FromNanosAsNanos` | src/main/core/support/simulation_time.rs:162 | `from_nanos` inverts `as_nanos` on every duration that fits in `u64` nanoseconds |
| `Simtime.FromCSimtime` | src/main/core/support/simulation_time.rs:31-41 | `None` for the sentinel and exactly for raw values above `SIMTIME_MAX`; otherwise a valid time of that many nanoseconds |
| `Simtime.ToCSimtime` | src/main/core/support/simulation_time.rs:43-49 | `None` encodes as the sentinel; a valid time encodes as a non-sentinel value that `from_c_simtime` decodes back to it |
| `Simtime.CEncodingRoundTrip` | src/main/core/support/simulation_time.rs:31-49 | decode then encode keeps every raw value up to the maximum, and maps everything above it to the sentinel |
| `Simtime.AsSecs` | src/main/core/support/simulation_time.rs:51-53 | `as_secs` is the number of whole seconds (truncating) |
| `Simtime.AsMillis` | src/main/core/support/simulation_time.rs:55-57 | `as_millis` is the number of whole milliseconds (truncating) |
| `Simtime.AsMicros` | src/main/core/support/simulation_time.rs:59-61 | `as_micros` is the number of whole microseconds (truncating) |
| `Simtime.AsNanos` | src/main/core/support/simulation_time.rs:63-65 | dividing by `SIMTIME_ONE_NANOSECOND = 1` leaves the raw count |
| `Simtime.SubsecMillis` | src/main/core/support/simulation_time.rs:116-118 | below 1000, so it fits in `u32` and the `unwrap` cannot panic; `as_secs·1000 + subsec_millis == as_millis` |
| `Simtime.SubsecMicros` | src/main/core/support/simulation_time.rs:120-122 | below 10^6 and fits in `u32`; `as_secs·10^6 + subsec_micros == as_micros` |
| `Simtime.SubsecNanos` | src/main/core/support/simulation_time.rs:124-126 | below 10^9 and fits in `u32`; `as_secs·10^9 + subsec_nanos == as_nanos` |
| `Simtime.CheckedAdd` | src/main/core/support/simulation_time.rs:67-74 | `None` exactly when the sum exceeds the maximum, which includes every `u64` overflow; otherwise a valid time holding the exact sum |
| `Simtime.CheckedMul` | src/main/core/support/simulation_time.rs:76-82 | `None` exactly when the product exceeds the maximum, which includes every `u64` overflow; otherwise a valid time holding the exact product |
| `Simtime.CheckedMulIsRepeatedAdd` | src/main/core/support/simulation_time.rs:67-82 | `checked_mul(t, n)` equals `n` successive `checked_add`s of `t` onto ZERO: both fail together, and otherwise give the same time (by induction on `n`) |
| `Simtime.Add` | src/main/core/support/simulation_time.rs:137-143 | `+` is defined only where `checked_add` succeeds, and gives the exact sum |
| `Simtime.Mul` | src/main/core/support/simulation_time.rs:129-135 | `*` is defined only where `checked_mul` succeeds, and gives the exact product |
| `Simtime.TryFromSecs` | src/main/core/support/simulation_time.rs:84-86 | succeeds exactly when `s·SECOND <= MAX`; the result is `s·SECOND`, whose `as_secs` is `s` and `subsec_nanos` is 0 |
| `Simtime.FromSecs` | src/main/core/support/simulation_time.rs:88-90 | defined where `try_from_secs` succeeds; a valid time with `as_secs == s` and no sub-second part |
| `Simtime.TryFromMillis` | src/main/core/support/simulation_time.rs:92-94 | succeeds exactly when `s·MILLISECOND <= MAX`; the result is `s·MILLISECOND`, whose `as_millis` is `s` |
| `Simtime.FromMillis` | src/main/core/support/simulation_time.rs:96-98 | defined where `try_from_millis` succeeds; `s` milliseconds, with `as_millis == s` |
| `Simtime.TryFromMicros` | src/main/core/support/simulation_time.rs:100-102 | succeeds exactly when `s·MICROSECOND <= MAX`; the result is `s·MICROSECOND`, whose `as_micros` is `s` |
| `Simtime.FromMicros` | src/main/core/support/simulation_time.rs:104-106 | defined where `try_from_micros` succeeds; `s` microseconds, with `as_micros == s` |
| `Simtime.TryFromNanos` | src/main/core/support/simulation_time.rs:108-110 | succeeds exactly when `s <= MAX`; the result's `as_nanos` is `s` |
| `Simtime.FromNanos` | src/main/core/support/simulation_time.rs:112-114 | defined where `try_from_nanos` succeeds; a valid time with `as_nanos == s` |
| `Simtime.UnitsConsistent` | src/main/core/support/simulation_time.rs:231-253 | all the constants are valid times; MICRO = 1000·NANO, MILLI = 1000·MICRO, SECOND = 1000·MILLI, MINUTE = 60·SECOND, HOUR = 60·MINUTE, each by checked multiplication |
| `Simtime.MicrosTruncation` | src/main/core/support/simulation_time.rs:370 | `from_micros(as_micros(t))` is defined and is `t` truncated to whole microseconds |
| `SimtimeConversions.FromDuration` | src/main/core/support/simulation_time.rs:145-157 | fails exactly when the duration's nanoseconds exceed the maximum; otherwise a valid time with that many nanoseconds |
| `SimtimeConversions.ToDuration` | src/main/core/support/simulation_time.rs:159-164 | lossless: same nanosecond total, same whole seconds, same sub-second nanoseconds |
| `SimtimeConversions.IntoCSimtime` | src/main/core/support/simulation_time.rs:166-170 | a valid time becomes a non-sentinel raw value that `from_c_simtime` decodes back to it |
| `SimtimeConversions.DurationRoundTrip` | src/main/core/support/simulation_time.rs:321-327 | time → `Duration` → time is the identity |
| `SimtimeConversions.DurationRoundTripFromDuration` | src/main/core/support/simulation_time.rs:145-164 | `Duration` → time → `Duration` is the identity on every accepted duration |
| `SimtimeConversions.FromTimespec` | src/main/core/support/simulation_time.rs:172-183 | accepts exactly when `tv_sec >= 0`, `0 <= tv_nsec < 10^9` and `tv_sec·10^9 + tv_nsec <= MAX`; the result is that many nanoseconds |
| `SimtimeConversions.ToTimespec` | src/main/core/support/simulation_time.rs:185-194 | never fails with a 64-bit `time_t`, even at MAX; gives `{as_secs, subsec_nanos}`, a POSIX-normalised `timespec` |
| `SimtimeConversions.FromTimespecOfSplit` | src/main/core/support/simulation_time.rs:172-183 | a valid time is accepted back from its whole seconds and its sub-second nanoseconds |
| `SimtimeConversions.TimespecRoundTrip` | src/main/core/support/simulation_time.rs:185-194 | time → `timespec` → time is the identity |
| `SimtimeConversions.TimespecRoundTripFromTimespec` | src/main/core/support/simulation_time.rs:172-194 | `timespec` → time → `timespec` is the identity on every accepted `timespec` |
| `SimtimeConversions.FromTimeval` | src/main/core/support/simulation_time.rs:196-207 | accepts exactly when `tv_sec >= 0`, `0 <= tv_usec < 10^6` and `tv_sec·10^9 + tv_usec·1000 <= MAX`; the result is that many nanoseconds |
| `SimtimeConversions.ToTimeval` | src/main/core/support/simulation_time.rs:209-218 | never fails with a 64-bit `time_t`; gives `{as_secs, subsec_micros}`, a POSIX-normalised `timeval` |
| `SimtimeConversions.TimevalRoundTrip` | src/main/core/support/simulation_time.rs:365-371 | time → `timeval` → time is `from_micros(as_micros(t))`, the time truncated to whole microseconds |
| `SimtimeConversions.TimevalRoundTripFromTimeval` | src/main/core/support/simulation_time.rs:196-218 | `timeval` → time → `timeval` is the identity on every accepted `timeval` |
| `SimtimeConversions.SubsecondBoundaries` | src/main/core/support/simulation_time.rs:172-207 | one below the sub-second modulus is accepted and the modulus itself is rejected, for both structures |
| `SimtimeExport.SimtimeFromTimeval` | src/main/core/support/simulation_time.rs:258-261 | the sentinel exactly when the `timeval` conversion fails; otherwise `tv_sec·10^9 + tv_usec·1000` |
| `SimtimeExport.SimtimeFromTimespec` | src/main/core/support/simulation_time.rs:263-266 | the sentinel exactly when the `timespec` conversion fails; otherwise `tv_sec·10^9 + tv_nsec` |
| `SimtimeExport.SimtimeToTimeval` | src/main/core/support/simulation_time.rs:268-286 | `true` exactly for raw values up to MAX, and then writes `{val / 10^9, (val mod 10^9) / 1000}`; on `false` (the sentinel or above MAX) `*out` is unchanged |
| `SimtimeExport.SimtimeToTimespec` | src/main/core/support/simulation_time.rs:288-306 | `true` exactly for raw values up to MAX, and then writes `{val / 10^9, val mod 10^9}`; on `false` `*out` is unchanged |
| `SimtimeExport.TimespecBridgeRoundTrip` | src/main/core/support/simulation_time.rs:255-306 | what `simtime_to_timespec` writes, `simtime_from_timespec` turns back into the same raw value |
| `SimtimeExport.TimevalBridgeRoundTrip` | src/main/core/support/simulation_time.rs:258-286 | what `simtime_to_timeval` writes, `simtime_from_timeval` turns into the raw value truncated to the microsecond |
| `SimtimeTests.TestFromCSimtime` | src/main/core/support/simulation_time.rs:313-329 | 5 min + 7 ms decodes to a time whose duration has 300 whole seconds and 300007 whole milliseconds; MAX decodes like the duration of MAX ns; MAX + 1 decodes to `None` |
| `SimtimeTests.TestToCSimtime` | src/main/core/support/simulation_time.rs:331-342 | `from_secs(300) + from_millis(7)` encodes as 5 min + 7 ms; `None` as the sentinel; MAX as `SIMTIME_MAX` |
| `SimtimeTests.TestFromTimeval` | src/main/core/support/simulation_time.rs:344-371 | `{0,0}` gives ZERO; `{1,2}` gives 1 s + 2 µs; `{MAX.as_secs, MAX.subsec_micros}` gives `from_micros(MAX.as_micros)` |
| `SimtimeTests.TestFromTimevalRejects` | src/main/core/support/simulation_time.rs:373-409 | `{time_t::MAX, 999999}`, `{0, 1000000}`, `{0,-1}`, `{-1,0}` and `{-1,-1}` are rejected |
| `SimtimeTests.TestCFromTimeval` | src/main/core/support/simulation_time.rs:412-434 | the bridge gives 0 for `{0,0}` and 1 s + 2 µs for `{1,2}` |
| `SimtimeTests.TestCFromTimevalRejects` | src/main/core/support/simulation_time.rs:436-482 | the bridge gives the sentinel for each out-of-range `timeval` of the test |
| `SimtimeTests.TestToTimeval` | src/main/core/support/simulation_time.rs:485-513 | ZERO gives `{0,0}`; 1 s + 2 µs gives `{1,2}`; MAX gives `{MAX.as_secs, MAX.subsec_micros}` |
| `SimtimeTests.TestFromTimespec` | src/main/core/support/simulation_time.rs:555-572 | `{0,0}` gives ZERO; `{1,2}` gives 1 s + 2 ns |
| `SimtimeTests.TestFromTimespecMaxSecs` | src/main/core/support/simulation_time.rs:573-582 | `{MAX / SECOND, 0}` is accepted and equals the conversion of that many whole seconds |
| `SimtimeTests.TestFromTimespecRejects` | src/main/core/support/simulation_time.rs:584-621 | `{time_t::MAX, 999999999}`, `{0, 10^9}`, `{0,-1}`, `{-1,0}` and `{-1,-1}` are rejected |
| `SimtimeTests.TestCFromTimespec` | src/main/core/support/simulation_time.rs:624-646 | the bridge gives 0 for `{0,0}` and 1 s + 2 ns for `{1,2}` |
| `SimtimeTests.TestCFromTimespecRejects` | src/main/core/support/simulation_time.rs:648-694 | the bridge gives the sentinel for each out-of-range `timespec` of the test |
| `SimtimeTests.TestToTimespec` | src/main/core/support/simulation_time.rs:697-723 | ZERO gives `{0,0}`; `from_secs(1) + from_nanos(2)` gives `{1,2}`; MAX gives `{MAX.as_secs, MAX.subsec_nanos}` |

## Left out

- The numeric derivation of `SIMTIME_MAX` from `EMUTIME_MAX` and `SIMULATION_START_SEC`. `emulated_time` is not part of this model. `SIMTIME_MAX` is any value in `[SIMTIME_ONE_HOUR, SIMTIME_INVALID)`.
- The `debug_assert_eq!(SIMTIME_ONE_NANOSECOND, 1)` checks. `SIMTIME_ONE_NANOSECOND` is the constant 1 here.
- `unsafe`, `#[no_mangle]`, the `extern "C"` calling convention and the libc struct layouts. The null-pointer panic of `out.as_mut().unwrap()` is also left out: `out` is always a valid object.
- `std::time::Duration` is not part of the repository. `StdTime` models the part the conversions use (`from_secs`, `from_nanos`, `from_micros`, `as_secs`, `as_millis`, `as_nanos`, `subsec_nanos`, `subsec_micros`, `checked_add` and `+`), following the standard library's documented behaviour.
- The `u128` width of `as_nanos` is not modelled. The value is an unbounded `nat`.
- Panics are preconditions. `from_*`, `+` and `*` require that their checked form succeeds. `Duration + Duration` requires that `Duration::checked_add` succeeds.
- The other files of the repository are outside this model. The `fcntl` handler (`src/main/host/syscall/fcntl.rs`) and the `sysinfo` handler (`src/main/host/syscall/handler/sysinfo.rs`) read simulator state and plugin memory. The C header `src/main/host/syscall/protected.h` and the traffic-generator header declare types and prototypes only.
