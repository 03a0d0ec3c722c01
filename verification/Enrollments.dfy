/** Enrollments, taints, and the taint policy of one controller. */
module Enrollments {
  import opened Clock
  import opened Outcomes
  import opened Windows
  import opened Heartbeats

  datatype Effect = NoSchedule | PreferNoSchedule | NoExecute

  datatype Taint = Taint(key: string, value: string, effect: Effect, timeAdded: Option<Time>)

  datatype TaintPolicy = TaintPolicy(
    key: string,
    interactiveValue: string,
    activeValue: string,
    failClosedValue: string,
    burstTaintKey: string,
    staleAfter: Duration,
    heartbeatSkew: Duration,
    failClosed: bool)
  {
    function Skew(): Duration {
      if heartbeatSkew > 0 then heartbeatSkew else DEFAULT_HEARTBEAT_SKEW
    }

    /** The checks of the policy that decisions depend on. */
    predicate Valid() {
      && key != ""
      && interactiveValue != "" && activeValue != "" && failClosedValue != ""
      && staleAfter > 0
      && heartbeatSkew >= 0
      && Skew() < staleAfter
      && burstTaintKey != key
    }

    function Freshness(at: Time, now: Time): Verdict {
      HeartbeatFreshness(at, now, staleAfter, Skew())
    }

    function Owned(value: string, effect: Effect): Taint {
      Taint(key, value, effect, None)
    }

    function ActiveTaint(): Taint { Owned(activeValue, NoSchedule) }

    function InteractiveTaint(): Taint { Owned(interactiveValue, PreferNoSchedule) }

    function FailClosedTaint(): Option<Taint> {
      if failClosed then Some(Owned(failClosedValue, NoSchedule)) else None
    }
  }

  /** Reported states; any other text is unsupported. */
  datatype State = Active | Idle | Unknown | Stale | OtherState(text: string)

  datatype Activity = GameActivity | InteractiveActivity | IdleActivity | OtherActivity(text: string)

  /** spec.windows and spec.leadTime after parsing. */
  datatype ParsedSchedule = InvalidSchedule | Schedule(lead: Duration, windows: seq<ParsedWindow>)

  /** The hold annotations after parsing; None where one is absent or malformed. */
  datatype Hold = Hold(duration: Option<Duration>, start: Option<Time>)

  datatype Enrollment = Enrollment(
    namespace: string,
    name: string,
    nodeName: string,
    deleting: bool,
    schedule: ParsedSchedule,
    hold: Hold,
    state: State,
    activity: Activity,
    heartbeatAt: Time)

  function HoldExpiry(h: Hold): Time {
    if h.duration.None? || h.duration.value <= 0 || h.start.None? then ZERO_TIME
    else h.start.value + h.duration.value
  }
}
