/** The one freshness rule that protection, admission and eviction share. */
module Heartbeats {
  import opened Clock

  const DEFAULT_HEARTBEAT_SKEW: Duration := 15 * SECOND

  datatype Verdict =
    | Missing
    | Future(lead: Duration)
    | Expired(ageSeconds: int)
    | Fresh(ageSeconds: int)

  function HeartbeatFreshness(at: Time, now: Time, staleAfter: Duration, skew: Duration): Verdict {
    if at == ZERO_TIME then Missing
    else
      var tolerance := if skew < 0 then 0 else skew;
      var delta := now - at;
      if delta < -tolerance then Future(-delta)
      else
        var seconds := if delta < 0 then 0 else delta / SECOND;
        if delta >= staleAfter then Expired(seconds) else Fresh(seconds)
  }

  /** Missing, future, expired, or fresh alike. */
  predicate SameKind(a: Verdict, b: Verdict) {
    a.Missing? == b.Missing? && a.Future? == b.Future? && a.Expired? == b.Expired?
  }

  /** A timestamp is future, then fresh from skew before it, then expired from staleAfter after it. */
  lemma FreshnessTimeline(at: Time, now: Time, staleAfter: Duration, skew: Duration)
    requires at != ZERO_TIME && 0 <= skew && -skew < staleAfter
    ensures var v := HeartbeatFreshness(at, now, staleAfter, skew);
            && !v.Missing?
            && (v.Future? <==> now < at - skew)
            && (v.Fresh? <==> at - skew <= now < at + staleAfter)
            && (v.Expired? <==> at + staleAfter <= now)
            && (v.Future? ==> v.lead == at - now)
            && (v.Fresh? || v.Expired? ==> 0 <= v.ageSeconds && v.ageSeconds * SECOND <= (if at <= now then now - at else 0)
                                           && now - at < (v.ageSeconds + 1) * SECOND)
  {
  }
}
