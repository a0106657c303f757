/**
 * Package msg: the record of one registered service and its TTL bookkeeping
 * (msg/service.go). The TTL a response carries is derived from the absolute
 * expiry of the registration; the Service keeps a cached copy of it.
 */
module Msg {
  import opened GoRuntime

  /**
   * The remaining lifetimes whose whole seconds fit in a uint32. At and past
   * this bound the conversion of msg/service.go:23 overflows.
   */
  const MaxRemaining: int := TwoTo32 * Second

  /**
   * The TTL in whole seconds of an entry that expires at `expires`, seen at
   * `now`: the time left, truncated to whole seconds, and 0 once less than
   * one second is left (including everything past expiry).
   */
  function RemainingSeconds(expires: Instant, now: Instant): (ttl: uint32)
    requires expires - now < MaxRemaining
    ensures ttl == 0 <==> expires - now < Second
    ensures ttl > 0 ==> ttl * Second <= expires - now < (ttl + 1) * Second
  {
    var d := expires - now;
    if d < Second then 0 else d / Second
  }

  /**
   * RemainingTTL as msg/service.go:21-28 writes it, with d.Seconds() taken
   * exactly (no float64 rounding) and the float-to-uint32 conversion done
   * the way amd64 does it. The guard `ttl < 1` only sees the converted
   * value, so it cannot catch a negative duration.
   */
  function RemainingSecondsAsWritten(expires: Instant, now: Instant): (ttl: uint32)
    ensures -Second < expires - now < MaxRemaining ==> ttl == RemainingSeconds(expires, now)
  {
    var ttl := Uint32Amd64(TruncSeconds(Sub(expires, now)));
    if ttl < 1 then 0 else ttl
  }

  /** Up to expiry, the TTL is the time left in whole seconds, truncated toward zero. */
  lemma RemainingIsTruncatedSeconds(expires: Instant, now: Instant)
    requires 0 <= expires - now < MaxRemaining
    ensures RemainingSeconds(expires, now) == TruncSeconds(expires - now)
  {
  }

  /** With the expiry fixed, the TTL never grows as the clock advances. */
  lemma RemainingNonIncreasing(expires: Instant, now1: Instant, now2: Instant)
    requires now1 <= now2 && expires - now1 < MaxRemaining
    ensures RemainingSeconds(expires, now2) <= RemainingSeconds(expires, now1)
  {
  }

  /**
   * k whole seconds later the TTL is k less, down to 0: an entry registered
   * with 30 seconds to live reports 0 from 30 seconds on.
   */
  lemma RemainingAfterElapsed(expires: Instant, now: Instant, k: nat)
    requires 0 <= expires - now < MaxRemaining
    ensures var ttl := RemainingSeconds(expires, now);
      RemainingSeconds(expires, now + k * Second) == if ttl >= k then ttl - k else 0
  {
  }

  /**
   * As written, an entry that expired at least a second ago does not report
   * 0: the negative count wraps around to a large uint32.
   */
  lemma AsWrittenExpiredIsNeverZero(expires: Instant, now: Instant)
    requires -MaxRemaining < expires - now <= -Second
    ensures RemainingSecondsAsWritten(expires, now) == TwoTo32 + TruncSeconds(expires - now)
    ensures RemainingSecondsAsWritten(expires, now) > 0
    ensures RemainingSeconds(expires, now) == 0
  {
  }

  /** An entry that expired five seconds ago reports a TTL of about 136 years as written. */
  lemma AsWrittenExpiredFiveSecondsAgo(now: Instant)
    ensures RemainingSecondsAsWritten(now - 5 * Second, now) == 4294967291
    ensures RemainingSeconds(now - 5 * Second, now) == 0
  {
  }

  /** As written, the TTL grows again once the entry is past expiry. */
  lemma AsWrittenNotNonIncreasing(expires: Instant)
    ensures RemainingSecondsAsWritten(expires, expires) == 0
    ensures RemainingSecondsAsWritten(expires, expires + 5 * Second) == 4294967291
  {
  }

  /**
   * The cached TTL after refreshing, in order, at each of the instants in
   * nows, starting from the cached value ttl0 (the TTL given at registration).
   * Only the last refresh shows: nothing is carried forward from earlier
   * refreshes or from registration.
   */
  function TTLAfterRefreshes(expires: Instant, ttl0: uint32, nows: seq<Instant>): (ttl: uint32)
    requires forall i :: 0 <= i < |nows| ==> expires - nows[i] < MaxRemaining
    ensures nows == [] ==> ttl == ttl0
    ensures nows != [] ==> ttl == RemainingSeconds(expires, nows[|nows| - 1])
    decreases nows
  {
    if nows == [] then ttl0
    else TTLAfterRefreshes(expires, RemainingSeconds(expires, nows[0]), nows[1..])
  }

  /** One registration (msg/service.go:7-18). */
  class Service {
    var UUID: string
    var Name: string
    var Address4: string
    var Address6: string
    var Environment: string
    var Region: string
    var Port: uint16
    /** Seconds; a cache of RemainingSeconds(Expires, now). */
    var TTL: uint32
    var Expires: Instant
    /** The DNS owner name, uuid.<zone apex>. */
    var host: string

    /** The TTL the service was registered with. */
    ghost var RegisteredTTL: uint32
    /** The instants at which the cached TTL has been refreshed, oldest first. */
    ghost var Refreshes: seq<Instant>

    /** A Service literal with every field given. */
    constructor (uuid: string, name: string, address4: string, address6: string,
                 environment: string, region: string, port: uint16, ttl: uint32,
                 expires: Instant, host: string)
      ensures UUID == uuid && Name == name && Address4 == address4 && Address6 == address6
      ensures Environment == environment && Region == region && Port == port
      ensures TTL == ttl && Expires == expires && this.host == host
      ensures Valid() && RegisteredTTL == ttl && Refreshes == []
    {
      UUID, Name, Address4, Address6 := uuid, name, address4, address6;
      Environment, Region, Port := environment, region, port;
      TTL, Expires, this.host := ttl, expires, host;
      RegisteredTTL, Refreshes := ttl, [];
    }

    /** The cached TTL is what the refreshes so far leave in it. */
    ghost predicate Valid()
      reads this
    {
      && (forall i :: 0 <= i < |Refreshes| ==> Expires - Refreshes[i] < MaxRemaining)
      && TTL == TTLAfterRefreshes(Expires, RegisteredTTL, Refreshes)
    }

    /** The cached TTL agrees with the absolute expiry at instant now. */
    ghost predicate TTLCurrent(now: Instant)
      reads this
    {
      Expires - now < MaxRemaining && TTL == RemainingSeconds(Expires, now)
    }

    /**
     * RemainingTTL at instant now, with the floor at 0 for entries past
     * expiry that the guard of msg/service.go:24 intends. It reads the
     * service and changes nothing.
     */
    method RemainingTTL(now: Instant) returns (ttl: uint32)
      requires Expires - now < MaxRemaining
      ensures ttl == RemainingSeconds(Expires, now)
    {
      var d := Sub(Expires, now);
      if d <= -Second {
        return 0;
      }
      var t := TruncSeconds(d);
      if t < 1 {
        return 0;
      }
      return t;
    }

    /** UpdateTTL at instant now: refresh the cached TTL from the expiry. */
    method UpdateTTL(now: Instant)
      requires Valid() && Expires - now < MaxRemaining
      modifies this
      ensures Valid() && Refreshes == old(Refreshes) + [now] && RegisteredTTL == old(RegisteredTTL)
      ensures TTL == old(RemainingSeconds(Expires, now))
      ensures TTLCurrent(now)
      ensures old(TTLCurrent(now)) ==> TTL == old(TTL)
      ensures UUID == old(UUID) && Name == old(Name)
      ensures Address4 == old(Address4) && Address6 == old(Address6)
      ensures Environment == old(Environment) && Region == old(Region)
      ensures Port == old(Port) && Expires == old(Expires) && host == old(host)
    {
      TTL := RemainingTTL(now);
      Refreshes := Refreshes + [now];
    }
  }
}
