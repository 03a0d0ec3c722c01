/**
 The debouncing evaluator of the host reporter.
 `Memory` is the value of an evaluator, `Evaluator` the object that takes one sample after the other.
 */
module Debounce {
  import opened Clock
  import opened Signals
  import E = Enrollments

  /** How many samples in a row each signal needs, and the age at which silence is stale. */
  datatype Config = Config(staleAfter: Duration, game: int, interactive: int, idle: int) {
    function Required(v: Signal): int {
      match v
      case Game => game
      case Interactive => interactive
      case Idle => idle
      case Unknown => 1
    }

    predicate Usable() {
      game >= 1 && interactive >= 1 && idle >= 1
    }
  }

  datatype Report = Report(state: E.State, activity: Signal, observedAt: Time, heartbeatAt: Time, generation: int)

  datatype Debouncer = Debouncer(current: Signal, pending: Signal, pendingCount: int)

  datatype Memory = Memory(
    debouncer: Debouncer,
    lastGood: Time,
    firstSeen: Time,
    lastObserved: Time,
    lastState: E.State,
    lastActivity: Signal,
    generation: int)

  const FORGOTTEN := Memory(Debouncer(Unknown, Unknown, 0), ZERO_TIME, ZERO_TIME, ZERO_TIME, E.OtherState(""), Unknown, 0)

  function StateFor(v: Signal): E.State {
    match v
    case Game => E.Active
    case Interactive => E.Active
    case Idle => E.Idle
    case Unknown => E.Unknown
  }

  function Debounced(c: Config, d: Debouncer, v: Signal): Debouncer {
    if v == Unknown || v == d.current then Debouncer(d.current, Unknown, 0)
    else
      var count := if v != d.pending then 1 else d.pendingCount + 1;
      if count >= c.Required(v) then Debouncer(v, Unknown, 0) else Debouncer(d.current, v, count)
  }

  /** What a sample of v at now says, given the debouncer after it. */
  function Spoken(c: Config, m: Memory, d: Debouncer, v: Signal, now: Time): (E.State, Signal, Time) {
    if v != Unknown then (StateFor(d.current), d.current, now)
    else
      var since := if m.lastGood != ZERO_TIME then m.lastGood
                   else if m.firstSeen == ZERO_TIME then now else m.firstSeen;
      (if now - since >= c.staleAfter then E.Stale else E.Unknown, Unknown, since)
  }

  function Advanced(c: Config, m: Memory, v: Signal, now: Time): Memory {
    var d := Debounced(c, m.debouncer, v);
    var (state, activity, observedAt) := Spoken(c, m, d, v, now);
    var changed := m.generation == 0 || state != m.lastState || activity != m.lastActivity;
    var observed := if changed || state == E.Active || state == E.Idle then observedAt else m.lastObserved;
    Memory(
      d,
      if v != Unknown then now else m.lastGood,
      if m.firstSeen == ZERO_TIME then now else m.firstSeen,
      if observed == ZERO_TIME then observedAt else observed,
      if changed then state else m.lastState,
      if changed then activity else m.lastActivity,
      if changed then m.generation + 1 else m.generation)
  }

  function Reported(c: Config, m: Memory, v: Signal, now: Time): Report {
    var after := Advanced(c, m, v, now);
    var (state, activity, _) := Spoken(c, m, after.debouncer, v, now);
    Report(state, activity, after.lastObserved, now, after.generation)
  }

  class Evaluator {
    const config: Config
    var current: Signal
    var pending: Signal
    var pendingCount: int
    var lastGood: Time
    var firstSeen: Time
    var lastObserved: Time
    var lastState: E.State
    var lastActivity: Signal
    var generation: int

    constructor (config: Config)
      ensures this.config == config && Value() == FORGOTTEN
    {
      this.config := config;
      current, pending, pendingCount := Unknown, Unknown, 0;
      lastGood, firstSeen, lastObserved := ZERO_TIME, ZERO_TIME, ZERO_TIME;
      lastState, lastActivity, generation := E.OtherState(""), Unknown, 0;
    }

    function Value(): Memory
      reads this
    {
      Memory(Debouncer(current, pending, pendingCount), lastGood, firstSeen, lastObserved, lastState, lastActivity, generation)
    }

    /** Debounces a known candidate, and says what is current after it. */
    method Settle(candidate: Signal) returns (activity: Signal)
      requires candidate != Unknown
      modifies `current, `pending, `pendingCount
      ensures Value().debouncer == Debounced(config, old(Value().debouncer), candidate)
      ensures activity == current
    {
      activity := Unknown;
      if candidate == current {
        pending, pendingCount := Unknown, 0;
        activity := current;
      } else {
        if candidate != pending {
          pending, pendingCount := candidate, 1;
        } else {
          pendingCount := pendingCount + 1;
        }
        if pendingCount >= config.Required(candidate) {
          current, pending, pendingCount := candidate, Unknown, 0;
          activity := candidate;
        } else if current != Unknown {
          activity := current;
        }
      }
    }

    /** Numbers the report, and dates it: anew with every change, and with every sample of a known state. */
    method Record(state: E.State, activity: Signal, observedAt: Time)
      modifies `lastState, `lastActivity, `lastObserved, `generation
      ensures var m, after := old(Value()), Value();
              var changed := m.generation == 0 || state != m.lastState || activity != m.lastActivity;
              var observed := if changed || state == E.Active || state == E.Idle then observedAt else m.lastObserved;
              && after.lastObserved == (if observed == ZERO_TIME then observedAt else observed)
              && after.lastState == (if changed then state else m.lastState)
              && after.lastActivity == (if changed then activity else m.lastActivity)
              && after.generation == (if changed then m.generation + 1 else m.generation)
    {
      if generation == 0 || state != lastState || activity != lastActivity {
        generation := generation + 1;
        lastState, lastActivity, lastObserved := state, activity, observedAt;
      } else if state == E.Active || state == E.Idle {
        lastObserved := observedAt;
      }
      if lastObserved == ZERO_TIME {
        lastObserved := observedAt;
      }
    }

    method Next(observations: seq<Observation>, now: Time) returns (report: Report)
      modifies this
      ensures Value() == Advanced(config, old(Value()), Aggregated(observations), now)
      ensures report == Reported(config, old(Value()), Aggregated(observations), now)
    {
      hide Aggregated, Config.Required, StateFor;
      var candidate := Aggregate(observations);
      var state, activity, observedAt := E.Unknown, Unknown, now;
      if firstSeen == ZERO_TIME {
        firstSeen := now;
      }
      if candidate == Unknown {
        pending, pendingCount := Unknown, 0;
        observedAt := if lastGood != ZERO_TIME then lastGood else firstSeen;
        if now - observedAt >= config.staleAfter {
          state := E.Stale;
        }
      } else {
        lastGood := now;
        activity := Settle(candidate);
        state := StateFor(activity);
      }
      Record(state, activity, observedAt);
      report := Report(state, activity, lastObserved, now, generation);
    }
  }
}
