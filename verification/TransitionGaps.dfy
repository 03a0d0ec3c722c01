/** Where the reported transition falls short: active reports of an activity the policy does not know. */
module TransitionGaps {
  import opened Clock
  import opened Outcomes
  import opened Windows
  import opened Heartbeats
  import opened Enrollments
  import opened PolicyDecisions
  import opened DecisionLaws

  /** Such a report has no transition, yet a window that opens while it is fresh can replace its taint. */
  lemma UnsupportedReportsMissExactlyWindows(p: TaintPolicy, e: Enrollment, now: Time, t: Time)
    requires ZERO_TIME < now <= t && DecidePolicy(p, e, now).reason == UnsupportedActivity
    ensures DecidePolicy(p, e, now).nextTransition == ZERO_TIME
    ensures DecidePolicy(p, e, t).taint != DecidePolicy(p, e, now).taint <==>
            && p.Freshness(e.heartbeatAt, t).Fresh?
            && (|| (OpeningAt(e.schedule, t) == Open(Game) && p.FailClosedTaint() != Some(p.ActiveTaint()))
                || (OpeningAt(e.schedule, t) == Open(IdleAllowed) && p.failClosed))
  {
    DecisionFollowsReason(p, e, now);
    DecisionFollowsReason(p, e, t);
    assert DecidePolicy(p, e, now).nextTransition == ZERO_TIME by {
      hide EvaluateSchedule, HeartbeatFreshness, HoldExpiry;
    }
    hide DecidePolicy, HeartbeatFreshness, OpeningAt, HoldExpiry;
  }

  /** Occurrences at 10 and at one million, and none later. */
  function OnceAtTen(x: Time): Time {
    if x < 10 then 10 else if x < 1_000_000 then 1_000_000 else ZERO_TIME
  }

  const EXAMPLE_POLICY := TaintPolicy("k", "interactive", "active", "closed", "", 100 * SECOND, 0, true)

  const EXAMPLE := Enrollment(
    "ns", "n", "node", false, Schedule(0, [ParsedWindow(Game, OnceAtTen, 5)]), Hold(None, None),
    Active, OtherActivity("typing"), 1)

  /** A concrete miss: at 5 the taint fails closed and no transition is reported; at 12 it is the active taint. */
  lemma UnsupportedReportMissesAWindow()
    ensures var p, e := EXAMPLE_POLICY, EXAMPLE;
            && p.Valid() && Parsed(e.schedule) && Settled(e.schedule, 5)
            && DecidePolicy(p, e, 5).nextTransition == ZERO_TIME
            && DecidePolicy(p, e, 5).taint == p.FailClosedTaint()
            && DecidePolicy(p, e, 12).taint == Some(p.ActiveTaint())
  {
    var w := ParsedWindow(Game, OnceAtTen, 5);
    assert ScanFrom(w, 5, 0, 0, None, ZERO_TIME) == Ok(Scan(None, 10, ZERO_TIME));
    var open := Some(ScheduledWindow(Game, 10, 15));
    assert ScanFrom(w, 12, 10, 1, open, 15) == Ok(Scan(open, 1_000_000, 15));
    assert ScanFrom(w, 12, 7, 0, None, ZERO_TIME) == ScanFrom(w, 12, 10, 1, open, 15);
    hide ScanFrom;
    FoldOfOne(w, 5);
    FoldOfOne(w, 12);
  }

  lemma FoldOfOne(w: ParsedWindow, now: Time)
    ensures Fold([w], 0, now, 0) == Ok(Scan(None, ZERO_TIME, ZERO_TIME))
    ensures ScanOf(w, now, 0).Ok? ==>
              Fold([w], 1, now, 0) == Ok(Scan(ScanOf(w, now, 0).value.active, ScanOf(w, now, 0).value.upcoming, ScanOf(w, now, 0).value.wake))
  {
  }
}
