# SkyDNS service record: TTL bookkeeping

A Dafny model of package `msg` of SkyDNS, an authoritative DNS server that
answers for services registered with a bounded lifetime. A `Service` is one
registration: identifiers, addresses, a port, an absolute expiry, and a cached
TTL in seconds that responses carry. `RemainingTTL` derives the TTL from the
expiry; `UpdateTTL` refreshes the cache.

- `goruntime.dfy` (module `GoRuntime`): the Go primitives the code uses, over
  unbounded integers. `uint16`, `uint32`, `time.Duration` (signed 64-bit
  nanoseconds) as subset types; `time.Time` as an integer count of
  nanoseconds (`Instant`); `Time.Sub` with its saturation to the Duration
  range; `TruncSeconds`, the whole seconds of a duration truncated toward zero
  (Go's integer conversion of `d.Seconds()`); `Uint32Amd64`, the
  float-to-uint32 conversion as amd64 performs it (via int64, low 32 bits).
- `service.dfy` (module `Msg`): the class `Service` with the fields of the Go
  struct, the read-only method `RemainingTTL`, the state-changing method
  `UpdateTTL` (`modifies this`), the specification function
  `RemainingSeconds`, the code as written (`RemainingSecondsAsWritten`) and
  the lemmas.

The clock is not read: every operation takes the current instant `now` as a
parameter, in place of `time.Now()`.

The TTL is truncated toward zero, not rounded: a service with 2.9 seconds
left reports 2, and one with less than a second left reports 0.

## Model

| member | source | states |
|---|---|---|
| `GoRuntime.Sub` | msg/service.go:22 | the duration `Expires - now` is exact whenever it fits in 64 bits, is the smallest Duration below that range and the largest above it, and is negative exactly when `now` is after the expiry |
| `GoRuntime.TruncSeconds` | msg/service.go:23 | the converted seconds are the duration divided by one second with the fraction discarded toward zero, for both signs |
| `GoRuntime.Uint32Amd64` | msg/service.go:23 | the conversion to uint32 keeps values that fit, adds 2^32 to a negative count above -2^32, and is always congruent to its input modulo 2^32 |
| `Msg.RemainingSeconds` | msg/service.go:21-28 | the TTL is 0 exactly when less than one second is left (including past expiry); otherwise it is the unique count of whole seconds `t` with `t` seconds <= time left < `t + 1` seconds |
| `Msg.RemainingSecondsAsWritten` | msg/service.go:21-28 | the model of the code as written (saturating subtraction, `d.Seconds()` taken exactly, amd64 conversion, guard) agrees with `RemainingSeconds` on every remaining duration above -1 s and below 2^32 s, the range where Go defines the conversion |
| `Msg.RemainingIsTruncatedSeconds` | msg/service.go:22-23 | up to expiry the TTL is the time left in whole seconds truncated toward zero |
| `Msg.RemainingNonIncreasing` | msg/service.go:22-27 | with the expiry fixed, a later `now` never gives a larger TTL |
| `Msg.RemainingAfterElapsed` | msg/service.go:22-27 | `k` seconds later the TTL is `k` less, and 0 once `k` reaches it |
| `Msg.AsWrittenExpiredIsNeverZero` | msg/service.go:23-26 | as written, an entry expired by at least one second (and by less than 2^32 s) reports `2^32` plus the negative second count, never 0, where the corrected TTL is 0 |
| `Msg.AsWrittenExpiredFiveSecondsAgo` | msg/service.go:23-26 | as written, an entry expired five seconds ago reports 4294967291; the corrected TTL is 0 |
| `Msg.AsWrittenNotNonIncreasing` | msg/service.go:22-27 | as written, the TTL is 0 at expiry and 4294967291 five seconds later, so it is not non-increasing over time |
| `Msg.TTLAfterRefreshes` | msg/service.go:31-33 | after any series of refreshes the cached TTL is the one derived at the last refresh instant, and the registration value survives only when there was no refresh; `Service.Valid()` ties it to a service's `TTL` over the whole series of `UpdateTTL` calls |
| `Msg.Service.constructor` | msg/service.go:7-18 | a service literal holds exactly the given field values; it starts with no refreshes, so its `TTL` is the registration value and `Valid()` holds |
| `Msg.Service.RemainingTTL` | msg/service.go:21-28 | returns `RemainingSeconds(Expires, now)` computed the way the code does it (subtract, convert, guard) with the floor at 0 past expiry; it has no `modifies` clause, so it changes no field |
| `Msg.Service.UpdateTTL` | msg/service.go:31-33 | keeps `Valid()` and appends `now` to the ghost refresh history, so after any series of calls `TTL == TTLAfterRefreshes(Expires, RegisteredTTL, Refreshes)`; the new `TTL` is the remaining TTL of the pre-state at `now`; afterwards the cache is current; a second call at the same instant leaves `TTL` as it was; `UUID`, `Name`, `Address4`, `Address6`, `Environment`, `Region`, `Port`, `Expires` and `host` are unchanged |

## Findings

| source | as written | input that shows it | evidently intended | confidence | as-written member | corrected member |
|---|---|---|---|---|---|---|
| msg/service.go:23-26 | `uint32(d.Seconds())` of a negative duration is implementation-dependent in Go; on amd64 it wraps modulo 2^32, so the guard `ttl < 1` never fires for an expired entry | `Expires` five seconds before `now`: the amd64 conversion gives 4294967291 | an entry past expiry reports TTL 0, which is what the guard evidently intends | not executed; the wrap follows the amd64 conversion, other platforms may saturate to 0 | `Msg.RemainingSecondsAsWritten`, shown by `Msg.AsWrittenExpiredFiveSecondsAgo`, `Msg.AsWrittenExpiredIsNeverZero`, `Msg.AsWrittenNotNonIncreasing` | `Msg.Service.RemainingTTL` against `Msg.RemainingSeconds`, with `Msg.RemainingNonIncreasing` |

## Left out

- The system clock: `time.Now()` is replaced by the parameter `now`.
- `Msg.RemainingSecondsAsWritten`: does not model the float64 rounding of `d.Seconds()`; the model converts exactly. For remaining lifetimes of 2^24 s (about 194 days) or more, a fractional part within rounding distance of a whole second makes Go round up to the next second, where the model truncates. Just under 2^32 s (for example 2^32 s minus 1 ns) the round-up reaches 2^32, the amd64 conversion keeps its low 32 bits, and Go reports TTL 0 where the model reports 4294967295.
- `GoRuntime.TruncSeconds`: is the exact whole-second value of `d.Seconds()`, without the float64 rounding described in the line above.
- `Msg.RemainingSeconds`: states the truncated seconds of the exact remaining time; the float64 round-up described above is not part of it.
- `Msg.RemainingSeconds`, `Msg.Service.RemainingTTL`, `Msg.Service.UpdateTTL`: require less than 2^32 seconds to be left, because the code's uint32 conversion of a larger count overflows with an implementation-dependent result; `Msg.RemainingSecondsAsWritten` covers that range with the amd64 conversion.
- `Msg.Service.UpdateTTL`: requires `Valid()`, the ghost invariant that the constructor establishes and `UpdateTTL` keeps. Go code that assigns the exported `TTL` field directly is not modelled.
- The monotonic-clock reading of `time.Time`: `Sub` is modelled on wall-clock nanoseconds only.
- server/dns_test.go holds only a licence header and comments; there is nothing in it to model.
- Registry lookup, answer assembly, DNSSEC signing, EDNS0 and concurrency are not part of this model: no code for them is among the files modelled.
