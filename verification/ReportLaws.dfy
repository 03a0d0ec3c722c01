/** What a run of reports says: activity, staleness, generations, and what the controller makes of it. */
module ReportLaws {
  import opened Clock
  import opened Signals
  import opened Debounce
  import opened DebounceLaws
  import E = Enrollments
  import PolicyDecisions
  import DecisionLaws

  datatype Sample = Sample(observations: seq<Observation>, now: Time) {
    function Signal(): Signal { Aggregated(observations) }
  }

  function SignalsOf(h: seq<Sample>): seq<Signal> {
    seq(|h|, i requires 0 <= i < |h| => h[i].Signal())
  }

  /** The clock is set, and never runs backwards. */
  ghost predicate Timed(h: seq<Sample>) {
    && (forall i | 0 <= i < |h| :: ZERO_TIME < h[i].now)
    && (forall i, j | 0 <= i < j < |h| :: h[i].now <= h[j].now)
  }

  /** The evaluator after some samples. */
  function Remembering(c: Config, h: seq<Sample>): Memory {
    if h == [] then FORGOTTEN
    else Advanced(c, Remembering(c, h[..|h| - 1]), h[|h| - 1].Signal(), h[|h| - 1].now)
  }

  /** The report of sample k. */
  function ReportAt(c: Config, h: seq<Sample>, k: nat): Report
    requires k < |h|
  {
    Reported(c, Remembering(c, h[..k]), h[k].Signal(), h[k].now)
  }

  /** The instant of the last sample that was known, or the zero time. */
  function LastKnown(h: seq<Sample>): Time {
    if h == [] then ZERO_TIME
    else if h[|h| - 1].Signal() != Unknown then h[|h| - 1].now
    else LastKnown(h[..|h| - 1])
  }

  /** How long nothing has been known: since the last known sample, or else the first sample. */
  function SilentSince(h: seq<Sample>): Time
    requires h != []
  {
    if LastKnown(h) != ZERO_TIME then LastKnown(h) else h[0].now
  }

  lemma SignalsExtend(h: seq<Sample>)
    requires h != []
    ensures SignalsOf(h) == SignalsOf(h[..|h| - 1]) + [h[|h| - 1].Signal()]
  {
  }

  /** The evaluator remembers of its history what reports depend on. */
  lemma {:induction false} MemoryIsItsHistory(c: Config, h: seq<Sample>)
    requires Timed(h)
    ensures var m := Remembering(c, h);
            && m.debouncer == Debouncing(c, SignalsOf(h))
            && m.lastGood == LastKnown(h)
            && m.firstSeen == (if h == [] then ZERO_TIME else h[0].now)
            && (h != [] ==> ZERO_TIME <= m.lastObserved <= h[|h| - 1].now)
            && (h != [] ==> m.generation >= 1 && ZERO_TIME <= m.lastGood <= h[|h| - 1].now)
  {
    if h != [] {
      var before, v, now := h[..|h| - 1], h[|h| - 1].Signal(), h[|h| - 1].now;
      MemoryIsItsHistory(c, before);
      SignalsExtend(h);
      assert SignalsOf(h)[..|SignalsOf(h)| - 1] == SignalsOf(before);
      hide Debounced, Aggregated, StateFor, SignalsOf;
    }
  }

  /**
   A report speaks of the current signal when its sample is known, is stale exactly when nothing has
   been known for long enough, and its state and activity agree.
   */
  lemma ReportIsMeant(c: Config, h: seq<Sample>)
    requires h != [] && Timed(h)
    ensures var r, last := ReportAt(c, h, |h| - 1), h[|h| - 1];
            && r.heartbeatAt == last.now
            && r.activity == (if last.Signal() == Unknown then Unknown else Debouncing(c, SignalsOf(h)).current)
            && (r.state == E.Stale <==> last.Signal() == Unknown && last.now - SilentSince(h) >= c.staleAfter)
            && (r.state == E.Active <==> r.activity in {Game, Interactive})
            && (r.state == E.Idle <==> r.activity == Idle)
            && (r.state in {E.Active, E.Idle} ==> r.observedAt == last.now)
            && r.observedAt <= last.now
  {
    var before := h[..|h| - 1];
    MemoryIsItsHistory(c, before);
    MemoryIsItsHistory(c, h);
    assert Remembering(c, h) == Advanced(c, Remembering(c, before), h[|h| - 1].Signal(), h[|h| - 1].now);
    hide Debounced, Aggregated, SignalsOf, Remembering;
  }

  /** In n samples up to position k every provider was idle. */
  ghost predicate AllIdle(h: seq<Sample>, k: int, n: int) {
    && n <= k <= |h|
    && forall i | 0 <= i && k - n <= i < k ::
         h[i].observations != [] && forall o | o in h[i].observations :: o == Says(Idle)
  }

  /**
   Idle is reported only after as many samples in a row as it needs in which every provider was
   idle, and nothing else has completed since.
   */
  lemma IdleTakesUnanimity(c: Config, h: seq<Sample>)
    requires c.Usable() && h != [] && Timed(h) && ReportAt(c, h, |h| - 1).state == E.Idle
    ensures exists k :: AllIdle(h, k, c.idle) && forall j, v | k < j :: !Completes(c, SignalsOf(h), j, v)
  {
    ReportIsMeant(c, h);
    DebouncerIsItsHistory(c, SignalsOf(h));
    hide Debouncing, PendingIsTrailing, ReportAt;
    var k :| Completes(c, SignalsOf(h), k, Idle) && forall j, v | k < j :: !Completes(c, SignalsOf(h), j, v);
    assert forall i | k - c.idle <= i < k :: SignalsOf(h)[i] == Idle;
    assert forall i | 0 <= i < |h| :: SignalsOf(h)[i] == Aggregated(h[i].observations);
    hide Completes;
    assert AllIdle(h, k, c.idle);
  }

  /** A report says v, in the state that goes with it. */
  predicate Reports(r: Report, v: Signal) {
    r.activity == v && r.state == if v == Idle then E.Idle else E.Active
  }

  /**
   After something else was current, a run of game samples is reported as an active game exactly once it is
   as long as games need, and so for interactive use and for idleness.
   */
  lemma SignalIsReportedOnceItLasts(c: Config, h: seq<Sample>, v: Signal, n: int)
    requires c.Usable() && h != [] && Timed(h) && v != Unknown && TrailingRun(SignalsOf(h), v, n)
    requires Debouncing(c, SignalsOf(h)[..|h| - n]).current != v
    ensures var r := ReportAt(c, h, |h| - 1);
            && (v == Game ==> (Reports(r, v) <==> n >= c.game))
            && (v == Interactive ==> (Reports(r, v) <==> n >= c.interactive))
            && (v == Idle ==> (Reports(r, v) <==> n >= c.idle))
  {
    ReportIsMeant(c, h);
    SwitchesOnceLongEnough(c, SignalsOf(h), v, n);
    CompletionIsLongRun(c, SignalsOf(h), v, n);
    assert SignalsOf(h)[|h| - 1] == v;
    hide Debouncing, ReportAt, Completes, TrailingRun, Aggregated;
  }

  // --- Generations --------------------------------------------------------------------

  /** The state and activity of report k differ from those before it. */
  predicate Changes(c: Config, h: seq<Sample>, k: nat)
    requires k < |h|
  {
    k == 0 || ReportAt(c, h, k).state != ReportAt(c, h, k - 1).state
           || ReportAt(c, h, k).activity != ReportAt(c, h, k - 1).activity
  }

  function ChangesBetween(c: Config, h: seq<Sample>, i: nat, j: nat): nat
    requires i <= j < |h|
    decreases j - i
  {
    if i == j then 0 else ChangesBetween(c, h, i, j - 1) + if Changes(c, h, j) then 1 else 0
  }

  /** What is remembered of the last report is what it said. */
  lemma LastReportIsRemembered(c: Config, h: seq<Sample>, k: nat)
    requires k < |h|
    ensures var m, r := Remembering(c, h[..k + 1]), ReportAt(c, h, k);
            m.lastState == r.state && m.lastActivity == r.activity && m.generation == r.generation
  {
    assert h[..k + 1][..k] == h[..k];
    hide Debounced, Aggregated, StateFor;
  }

  lemma GenerationSteps(c: Config, h: seq<Sample>, k: nat)
    requires k < |h| && Timed(h)
    ensures ReportAt(c, h, k).generation == (if k == 0 then 0 else ReportAt(c, h, k - 1).generation) + if Changes(c, h, k) then 1 else 0
  {
    if k > 0 {
      LastReportIsRemembered(c, h, k - 1);
      assert h[..k - 1 + 1] == h[..k];
      MemoryIsItsHistory(c, h[..k]);
      hide Remembering;
    }
    hide Debounced, Aggregated, StateFor;
  }

  lemma {:induction false} GenerationsCountChanges(c: Config, h: seq<Sample>, i: nat, j: nat)
    requires i <= j < |h| && Timed(h)
    ensures ReportAt(c, h, j).generation == ReportAt(c, h, i).generation + ChangesBetween(c, h, i, j)
    decreases j - i
  {
    if i < j {
      GenerationSteps(c, h, j);
      GenerationsCountChanges(c, h, i, j - 1);
      hide ReportAt, Changes;
    }
  }

  lemma {:induction false} NoChangesIffNoneOfThem(c: Config, h: seq<Sample>, i: nat, j: nat)
    requires i <= j < |h|
    ensures ChangesBetween(c, h, i, j) == 0 <==> forall k | i < k <= j :: !Changes(c, h, k)
    decreases j - i
  {
    hide Changes, ReportAt;
    if i < j {
      NoChangesIffNoneOfThem(c, h, i, j - 1);
    }
  }

  /** Generations never decrease, and two reports share one exactly when nothing changed between them. */
  lemma GenerationIsSharedIffUnchanged(c: Config, h: seq<Sample>, i: nat, j: nat)
    requires i <= j < |h| && Timed(h)
    ensures ReportAt(c, h, i).generation <= ReportAt(c, h, j).generation
    ensures ReportAt(c, h, i).generation == ReportAt(c, h, j).generation <==> forall k | i < k <= j :: !Changes(c, h, k)
  {
    GenerationsCountChanges(c, h, i, j);
    NoChangesIffNoneOfThem(c, h, i, j);
    hide ReportAt, Changes;
  }

  // --- Observation times -----------------------------------------------------------------

  /** The last report up to k that changed. */
  function LastChange(c: Config, h: seq<Sample>, k: nat): (j: nat)
    requires k < |h|
    ensures j <= k
  {
    if k == 0 || Changes(c, h, k) then k else LastChange(c, h, k - 1)
  }

  /** What a sample dates its report: its own instant, or when something was last known. */
  function Dated(h: seq<Sample>, k: nat): Time
    requires k < |h|
  {
    if h[k].Signal() != Unknown then h[k].now else SilentSince(h[..k + 1])
  }

  lemma ObservationOfLast(c: Config, h: seq<Sample>, k: nat)
    requires k < |h| && Timed(h)
    ensures var r := ReportAt(c, h, k);
            r.observedAt == if k == 0 || Changes(c, h, k) || r.state in {E.Active, E.Idle} then Dated(h, k)
                            else ReportAt(c, h, k - 1).observedAt
  {
    var before, upTo := h[..k], h[..k + 1];
    assert upTo[..k] == before;
    MemoryIsItsHistory(c, before);
    MemoryIsItsHistory(c, upTo);
    if k > 0 {
      LastReportIsRemembered(c, h, k - 1);
      assert h[..k - 1 + 1] == before;
      assert Remembering(c, before).lastObserved == ReportAt(c, h, k - 1).observedAt by {
        assert before[..k - 1] == h[..k - 1];
      }
      assert before[0] == h[0] == upTo[0];
    }
    hide Debounced, Aggregated, SignalsOf;
  }

  /** The observation time of a report of an unknown or stale state is the one that its last change was dated. */
  lemma {:induction false} ObservationIsDated(c: Config, h: seq<Sample>, k: nat)
    requires k < |h| && Timed(h)
    ensures var r := ReportAt(c, h, k);
            r.observedAt == if r.state in {E.Active, E.Idle} then h[k].now else Dated(h, LastChange(c, h, k))
  {
    var upTo := h[..k + 1];
    assert upTo[..k] == h[..k];
    assert ReportAt(c, upTo, k) == ReportAt(c, h, k);
    ReportIsMeant(c, upTo);
    ObservationOfLast(c, h, k);
    if k > 0 && !Changes(c, h, k) {
      ObservationIsDated(c, h, k - 1);
    }
    hide ReportAt, Dated;
  }

  // --- At the controller -------------------------------------------------------------------

  /** The text under which a signal is published. */
  function Published(v: Signal): E.Activity {
    match v
    case Game => E.GameActivity
    case Interactive => E.InteractiveActivity
    case Idle => E.IdleActivity
    case Unknown => E.OtherActivity("unknown")
  }

  /** No report of this reporter is ever unsupported at the controller. */
  lemma ReportsAreSupported(c: Config, h: seq<Sample>, p: E.TaintPolicy, e: E.Enrollment, now: Time)
    requires h != [] && Timed(h)
    requires var r := ReportAt(c, h, |h| - 1); e.state == r.state && e.activity == Published(r.activity)
    ensures PolicyDecisions.DecidePolicy(p, e, now).reason !in {PolicyDecisions.UnsupportedActivity, PolicyDecisions.UnsupportedState}
  {
    ReportIsMeant(c, h);
    StatesOfReports(c, h);
    DecisionLaws.DecisionFollowsReason(p, e, now);
    hide ReportAt, Debouncing, PolicyDecisions.DecidePolicy, DecisionLaws.OpeningAt;
  }

  lemma StatesOfReports(c: Config, h: seq<Sample>)
    requires h != []
    ensures ReportAt(c, h, |h| - 1).state in {E.Active, E.Idle, E.Unknown, E.Stale}
  {
    hide Debounced, Aggregated, Remembering;
  }

  /**
   So for an enrollment whose status this reporter wrote, the transition of its decision is missed
   only where its windows have no answer.
   */
  lemma ReportedTransitionsAreNotMissed(c: Config, h: seq<Sample>, p: E.TaintPolicy, e: E.Enrollment, now: Time, t: Time)
    requires h != [] && Timed(h)
    requires var r := ReportAt(c, h, |h| - 1);
             e.state == r.state && e.activity == Published(r.activity) && e.heartbeatAt == r.heartbeatAt
    requires p.Valid() && DecisionLaws.Parsed(e.schedule)
    requires ZERO_TIME < now && p.Skew() < e.heartbeatAt
    requires DecisionLaws.BeforeTransition(PolicyDecisions.DecidePolicy(p, e, now).nextTransition, now, t)
    ensures PolicyDecisions.DecidePolicy(p, e, t).taint != PolicyDecisions.DecidePolicy(p, e, now).taint <==>
            DecisionLaws.Missed(p, e, now, t)
    ensures DecisionLaws.Missed(p, e, now, t) ==> !DecisionLaws.Settled(e.schedule, now)
  {
    ReportsAreSupported(c, h, p, e, now);
    hide ReportAt, PolicyDecisions.DecidePolicy, DecisionLaws.Parsed, DecisionLaws.Settled;
    DecisionLaws.TransitionIsNotMissed(p, e, now, t);
  }
}
