/** When the taint and the admission of a node with any number of enrollments change. */
module NodeChanges {
  import opened Clock
  import opened Outcomes
  import opened Windows
  import opened Heartbeats
  import opened Enrollments
  import opened PolicyDecisions
  import opened DecisionLaws
  import opened Protection
  import opened ProtectionLaws
  import opened RequeueLaws
  import opened EvictionMatrix

  /** e wins over every live enrollment of the node at t. */
  ghost predicate WinsAt(p: TaintPolicy, items: seq<Enrollment>, node: string, e: Enrollment, t: Time) {
    e in items && Live(e, node) && forall x | x in items && Live(x, node) :: WinsOver(p, e, x, t)
  }

  lemma KeysIdentify(items: seq<Enrollment>, a: Enrollment, b: Enrollment)
    requires DistinctKeys(items) && a in items && b in items && SameKey(a, b)
    ensures a == b
  {
    var i, j :| 0 <= i < |items| && 0 <= j < |items| && items[i] == a && items[j] == b;
    assert SameKey(items[i], items[j]) && SameKey(items[j], items[i]);
    hide SameKey;
  }

  lemma OnlyOneWins(p: TaintPolicy, items: seq<Enrollment>, node: string, a: Enrollment, b: Enrollment, t: Time)
    requires DistinctKeys(items) && WinsAt(p, items, node, a, t) && WinsAt(p, items, node, b, t)
    ensures a == b
  {
    hide Rank, Before, DistinctKeys, Live, SameKey;
    assert WinsOver(p, a, b, t) && WinsOver(p, b, a, t);
    BeforeIsStrictOrder(a, b);
    KeysIdentify(items, a, b);
  }

  /** The source of a protection is the one that wins. */
  lemma SourceWins(p: TaintPolicy, items: seq<Enrollment>, node: string, t: Time)
    requires p.Valid() && ZERO_TIME < t && DistinctKeys(items)
    ensures var r := Protect(p, items, node, t);
            && (r.source.None? ==> r.Taint().None? && forall e :: !WinsAt(p, items, node, e, t))
            && (r.source.Some? ==> r.Taint() == DecidePolicy(p, r.source.value, t).taint)
            && (forall e :: WinsAt(p, items, node, e, t) <==> r.source == Some(e))
  {
    ProtectionIsMeant(p, items, node, t);
    hide Protect, DecidePolicy, DistinctKeys, WinsOver, Live;
    var r := Protect(p, items, node, t);
    forall e
      ensures WinsAt(p, items, node, e, t) <==> r.source == Some(e)
    {
      if WinsAt(p, items, node, e, t) {
        OnlyOneWins(p, items, node, e, r.source.value, t);
      }
    }
  }

  /** Another enrollment than a wins at t, and its taint is not the one that a asked for at now. */
  ghost predicate Overtaken(p: TaintPolicy, items: seq<Enrollment>, node: string, a: Enrollment, now: Time, t: Time) {
    exists e :: WinsAt(p, items, node, e, t) && !SameKey(e, a) && DecidePolicy(p, e, t).taint != DecidePolicy(p, a, now).taint
  }

  /** Between any two instants the taint of a node changes by its source, or because another one wins. */
  lemma TaintChangesIff(p: TaintPolicy, items: seq<Enrollment>, node: string, a: Enrollment, now: Time, t: Time)
    requires p.Valid() && ZERO_TIME < now && ZERO_TIME < t && DistinctKeys(items)
    requires Protect(p, items, node, now).source == Some(a)
    ensures Protect(p, items, node, t).Taint() != Protect(p, items, node, now).Taint() <==>
            (WinsAt(p, items, node, a, t) && DecidePolicy(p, a, t).taint != DecidePolicy(p, a, now).taint)
            || Overtaken(p, items, node, a, now, t)
  {
    SourceWins(p, items, node, now);
    SourceWins(p, items, node, t);
    hide Protect, DecidePolicy, DistinctKeys, WinsAt, SameKey;
    var r := Protect(p, items, node, t);
    ProtectionIsMeant(p, items, node, now);
    ProtectionIsMeant(p, items, node, t);
    assert r.source.Some?;
    if SameKey(r.source.value, a) {
      KeysIdentify(items, r.source.value, a);
    }
  }

  /** Another one only wins if its rank or the source's has changed. */
  lemma WinnerChangesByRank(p: TaintPolicy, items: seq<Enrollment>, node: string, a: Enrollment, e: Enrollment, now: Time, t: Time)
    requires DistinctKeys(items) && WinsAt(p, items, node, a, now) && WinsAt(p, items, node, e, t)
    requires Rank(p, a, t) == Rank(p, a, now) && Rank(p, e, t) == Rank(p, e, now)
    ensures e == a
  {
    hide Rank, Before, DistinctKeys, Live, SameKey;
    assert WinsOver(p, a, e, now) && WinsOver(p, e, a, t);
    BeforeIsStrictOrder(a, e);
    KeysIdentify(items, a, e);
  }

  // --- Before the requeue --------------------------------------------------------------

  /**
   Before the requeue, the taint of a node with any number of enrollments changes exactly where its
   source still wins and is surprised, or where another one has overtaken it.
   */
  lemma NodeTaintChangesIff(p: TaintPolicy, items: seq<Enrollment>, node: string, a: Enrollment, now: Time, t: Time)
    requires p.Valid() && ZERO_TIME < now && DistinctKeys(items) && AllParsed(items, node)
    requires var r := Protect(p, items, node, now); r.source == Some(a) && now <= t < now + r.requeueAfter
    ensures Protect(p, items, node, t).Taint() != Protect(p, items, node, now).Taint() <==>
            (WinsAt(p, items, node, a, t) && Surprised(p, a, now, t)) || Overtaken(p, items, node, a, now, t)
  {
    SourceWins(p, items, node, now);
    LiveEnrollmentRequeues(p, items, node, now, a);
    hide Protect, DecidePolicy, DistinctKeys, Overtaken, Surprised, Parsed, WinsOver, Live;
    TaintHoldsUntilRequeue(p, a, now, t);
    TaintChangesIff(p, items, node, a, now, t);
  }

  /** And such a change is always a surprise, of the winner at now or of the winner at t. */
  lemma ChangeIsASurprise(
    p: TaintPolicy, items: seq<Enrollment>, node: string, a: Enrollment, e: Enrollment, now: Time, t: Time)
    requires p.Valid() && ZERO_TIME < now && DistinctKeys(items) && AllParsed(items, node)
    requires var r := Protect(p, items, node, now); r.source == Some(a) && now <= t < now + r.requeueAfter
    requires Protect(p, items, node, t).source == Some(e)
    ensures Protect(p, items, node, t).Taint() != Protect(p, items, node, now).Taint() || e != a ==>
            Surprised(p, a, now, t) || Surprised(p, e, now, t)
  {
    SourceWins(p, items, node, now);
    SourceWins(p, items, node, t);
    assert WinsAt(p, items, node, a, now) && WinsAt(p, items, node, e, t);
    LiveEnrollmentRequeues(p, items, node, now, a);
    LiveEnrollmentRequeues(p, items, node, now, e);
    hide Protect, DecidePolicy, DistinctKeys, Surprised, Parsed, WinsOver, Live, Rank;
    if !Surprised(p, a, now, t) && !Surprised(p, e, now, t) {
      RankHolds(p, a, now, t);
      RankHolds(p, e, now, t);
      WinnerChangesByRank(p, items, node, a, e, now, t);
    }
  }

  /** With one live enrollment, the node's taint changes before the requeue exactly in a surprise. */
  lemma SoleTaintChangesIffSurprised(p: TaintPolicy, items: seq<Enrollment>, e: Enrollment, node: string, now: Time, t: Time)
    requires p.Valid() && ZERO_TIME < now && DistinctKeys(items) && Parsed(e.schedule)
    requires e in items && Live(e, node) && Protect(p, items, node, now).count == 1
    requires now <= t < now + Protect(p, items, node, now).requeueAfter
    ensures Protect(p, items, node, t).Taint() != Protect(p, items, node, now).Taint() <==> Surprised(p, e, now, t)
  {
    CountIsLive(p, items, node, now);
    CountIsLive(p, items, node, t);
    SoleEnrollmentDecides(p, items, e, node, now);
    SoleEnrollmentDecides(p, items, e, node, t);
    LiveEnrollmentRequeues(p, items, node, now, e);
    hide Protect, DistinctKeys, DecidePolicy, Live, Parsed, Surprised;
    TaintHoldsUntilRequeue(p, e, now, t);
  }

  /** The stand-down rule for one enrollment. */
  predicate StandsDown(p: TaintPolicy, e: Enrollment, t: Time) {
    && p.Freshness(e.heartbeatAt, t).Fresh?
    && e.state == Idle && e.activity == IdleActivity && DecidePolicy(p, e, t).taint.None?
  }

  /**
   An idle enrollment that begins or ceases to stand down before its own requeue: a surprise takes its
   taint or gives it one, or its heartbeat expires while the poll of a closed schedule is awaited.
   */
  predicate Lapses(p: TaintPolicy, e: Enrollment, now: Time, t: Time) {
    && e.state == Idle && e.activity == IdleActivity
    && (|| (Surprised(p, e, now, t) && (DecidePolicy(p, e, now).taint.None? || DecidePolicy(p, e, t).taint.None?))
        || (StandsDown(p, e, now) && e.heartbeatAt + p.staleAfter <= t))
  }

  /** Before its own requeue an enrollment stands down as it did, unless it lapses. */
  lemma StandDownChangesIff(p: TaintPolicy, e: Enrollment, now: Time, t: Time)
    requires p.Valid() && ZERO_TIME < now && Parsed(e.schedule)
    requires now <= t < now + DecidePolicy(p, e, now).requeueAfter
    ensures StandsDown(p, e, t) != StandsDown(p, e, now) <==> Lapses(p, e, now, t)
  {
    TaintHoldsUntilRequeue(p, e, now, t);
    DecisionFollowsReason(p, e, now);
    DecisionFollowsReason(p, e, t);
    if e.heartbeatAt != ZERO_TIME {
      FreshnessTimeline(e.heartbeatAt, now, p.staleAfter, p.Skew());
      FreshnessTimeline(e.heartbeatAt, t, p.staleAfter, p.Skew());
    }
    hide DecidePolicy, HeartbeatFreshness, HoldExpiry, OpeningAt, Settled, Parsed;
  }

  /** Another enrollment than a wins at t, and does not stand down as a did at now. */
  ghost predicate AdmissionOvertaken(p: TaintPolicy, items: seq<Enrollment>, node: string, a: Enrollment, now: Time, t: Time) {
    exists e :: WinsAt(p, items, node, e, t) && !SameKey(e, a) && StandsDown(p, e, t) != StandsDown(p, a, now)
  }

  /** Admission is the stand-down of the winner. */
  lemma AdmittedMeansWinnerStandsDown(p: TaintPolicy, items: seq<Enrollment>, node: string, t: Time)
    requires p.Valid() && ZERO_TIME < t && DistinctKeys(items)
    ensures var r := Protect(p, items, node, t);
            PolicyAdmitted(p, r, t) <==> r.source.Some? && StandsDown(p, r.source.value, t)
  {
    SourceWins(p, items, node, t);
    hide Protect, DistinctKeys, WinsAt, HeartbeatFreshness, DecidePolicy;
  }

  /**
   Before the requeue, the admission of a node changes exactly where its source still wins and
   lapses, or where another one has overtaken it.
   */
  lemma NodeAdmissionChangesIff(p: TaintPolicy, items: seq<Enrollment>, node: string, a: Enrollment, now: Time, t: Time)
    requires p.Valid() && ZERO_TIME < now && DistinctKeys(items) && AllParsed(items, node)
    requires var r := Protect(p, items, node, now); r.source == Some(a) && now <= t < now + r.requeueAfter
    ensures PolicyAdmitted(p, Protect(p, items, node, t), t) != PolicyAdmitted(p, Protect(p, items, node, now), now) <==>
            (WinsAt(p, items, node, a, t) && Lapses(p, a, now, t)) || AdmissionOvertaken(p, items, node, a, now, t)
  {
    SourceWins(p, items, node, now);
    SourceWins(p, items, node, t);
    AdmittedMeansWinnerStandsDown(p, items, node, now);
    AdmittedMeansWinnerStandsDown(p, items, node, t);
    LiveEnrollmentRequeues(p, items, node, now, a);
    ProtectionIsMeant(p, items, node, t);
    hide Protect, DecidePolicy, DistinctKeys, Lapses, StandsDown, PolicyAdmitted, Parsed, WinsOver, Live, SameKey;
    var r := Protect(p, items, node, t);
    assert r.source.Some? && WinsAt(p, items, node, r.source.value, t);
    StandDownChangesIff(p, a, now, t);
    if SameKey(r.source.value, a) {
      KeysIdentify(items, r.source.value, a);
    }
  }

  // --- The transition that status reports ----------------------------------------------------

  /**
   Status reports the transition of the source. Before it, or for ever if there is none, the taint of
   the node changes exactly where the source is still the winner and misses the change itself, or
   where another enrollment has overtaken it.
   */
  lemma NodeTransitionMissesIff(p: TaintPolicy, items: seq<Enrollment>, node: string, a: Enrollment, now: Time, t: Time)
    requires p.Valid() && ZERO_TIME < now && DistinctKeys(items) && Parsed(a.schedule)
    requires a.heartbeatAt == ZERO_TIME || p.Skew() < a.heartbeatAt
    requires var r := Protect(p, items, node, now); r.source == Some(a) && BeforeTransition(r.NextTransition(), now, t)
    ensures Protect(p, items, node, t).Taint() != Protect(p, items, node, now).Taint() <==>
            (WinsAt(p, items, node, a, t) && Missed(p, a, now, t)) || Overtaken(p, items, node, a, now, t)
  {
    ProtectionIsMeant(p, items, node, now);
    hide Protect, DecidePolicy, DistinctKeys, WinsAt, Overtaken, Missed, Parsed;
    TransitionIsNotMissed(p, a, now, t);
    TaintChangesIff(p, items, node, a, now, t);
  }

  /** With one live enrollment, exactly where it misses the change. */
  lemma SoleTransitionMissesIff(p: TaintPolicy, items: seq<Enrollment>, node: string, a: Enrollment, now: Time, t: Time)
    requires p.Valid() && ZERO_TIME < now && DistinctKeys(items) && Parsed(a.schedule)
    requires a.heartbeatAt == ZERO_TIME || p.Skew() < a.heartbeatAt
    requires a in items && Live(a, node) && Protect(p, items, node, now).count == 1
    requires BeforeTransition(Protect(p, items, node, now).NextTransition(), now, t)
    ensures Protect(p, items, node, t).Taint() != Protect(p, items, node, now).Taint() <==> Missed(p, a, now, t)
  {
    SoleEnrollmentDecides(p, items, a, node, now);
    CountIsLive(p, items, node, now);
    CountIsLive(p, items, node, t);
    SoleEnrollmentDecides(p, items, a, node, t);
    SourceWins(p, items, node, t);
    hide Protect, DecidePolicy, DistinctKeys, WinsAt, Missed, Parsed, SameKey, Live;
    NodeTransitionMissesIff(p, items, node, a, now, t);
  }

  /** Until its transition the freshness of a report holds, unless the decision has closed. */
  lemma FreshnessHoldsUntilTransition(p: TaintPolicy, e: Enrollment, now: Time, t: Time)
    requires p.Valid() && ZERO_TIME < now && (e.heartbeatAt == ZERO_TIME || p.Skew() < e.heartbeatAt)
    requires BeforeTransition(DecidePolicy(p, e, now).nextTransition, now, t) && FreshnessSettled(p, e, now)
    ensures p.Freshness(e.heartbeatAt, t).Fresh? == p.Freshness(e.heartbeatAt, now).Fresh?
  {
    if p.Freshness(e.heartbeatAt, now).Fresh? {
      FreshnessTimeline(e.heartbeatAt, now, p.staleAfter, p.Skew());
      FreshnessTimeline(e.heartbeatAt, t, p.staleAfter, p.Skew());
      TransitionCoversDependencies(p, e, now, t);
    } else {
      NotFreshHoldsUntilTransition(p, e, now, t);
    }
    hide DecidePolicy, HeartbeatFreshness, HoldExpiry, WithinWait;
  }

  lemma RankHoldsUntilTransition(p: TaintPolicy, e: Enrollment, now: Time, t: Time)
    requires p.Valid() && ZERO_TIME < now && Parsed(e.schedule) && (e.heartbeatAt == ZERO_TIME || p.Skew() < e.heartbeatAt)
    requires BeforeTransition(DecidePolicy(p, e, now).nextTransition, now, t) && !Missed(p, e, now, t)
    ensures Rank(p, e, t) == Rank(p, e, now) && DecidePolicy(p, e, t).taint == DecidePolicy(p, e, now).taint
  {
    TransitionIsNotMissed(p, e, now, t);
    DecisionFollowsReason(p, e, now);
    if e.state == Active && e.activity == GameActivity {
      FreshnessHoldsUntilTransition(p, e, now, t);
    }
    hide DecidePolicy, HeartbeatFreshness, HoldExpiry, OpeningAt, Missed, BeforeTransition, Parsed;
  }

  /**
   So before the reported transition the taint changes only if the winner, then or now, misses it, or if
   another live enrollment has come to a transition of its own that status does not report.
   */
  lemma MissNeedsAnotherTransition(
    p: TaintPolicy, items: seq<Enrollment>, node: string, a: Enrollment, e: Enrollment, now: Time, t: Time)
    requires p.Valid() && ZERO_TIME < now && DistinctKeys(items) && AllParsed(items, node)
    requires forall x | x in items && Live(x, node) :: x.heartbeatAt == ZERO_TIME || p.Skew() < x.heartbeatAt
    requires var r := Protect(p, items, node, now); r.source == Some(a) && BeforeTransition(r.NextTransition(), now, t)
    requires Protect(p, items, node, t).source == Some(e)
    ensures Protect(p, items, node, t).Taint() != Protect(p, items, node, now).Taint() || e != a ==>
            || Missed(p, a, now, t) || Missed(p, e, now, t)
            || (e != a && !BeforeTransition(DecidePolicy(p, e, now).nextTransition, now, t))
  {
    SourceWins(p, items, node, now);
    SourceWins(p, items, node, t);
    assert WinsAt(p, items, node, a, now) && WinsAt(p, items, node, e, t);
    ProtectionIsMeant(p, items, node, now);
    hide Protect, DecidePolicy, DistinctKeys, Missed, Parsed, WinsOver, Live, Rank, BeforeTransition;
    if !Missed(p, a, now, t) && !Missed(p, e, now, t) && BeforeTransition(DecidePolicy(p, e, now).nextTransition, now, t) {
      RankHoldsUntilTransition(p, a, now, t);
      RankHoldsUntilTransition(p, e, now, t);
      WinnerChangesByRank(p, items, node, a, e, now, t);
    }
  }

  /** A fresh report with no windows and no hold. */
  predicate Plain(p: TaintPolicy, e: Enrollment, node: string, now: Time) {
    Live(e, node) && e.schedule == Schedule(0, []) && HoldExpiry(e.hold) == ZERO_TIME && p.Freshness(e.heartbeatAt, now).Fresh?
  }

  /** Its decision, and the deadline it reports. */
  lemma PlainDecision(p: TaintPolicy, e: Enrollment, node: string, now: Time)
    requires p.Valid() && ZERO_TIME < now && ZERO_TIME < e.heartbeatAt && Plain(p, e, node, now)
    requires e.state == Idle || (e.state == Active && e.activity == InteractiveActivity)
    ensures now < e.heartbeatAt + p.staleAfter
    ensures var d := DecidePolicy(p, e, now);
            && d.taint == (if e.state == Idle then None else Some(p.InteractiveTaint()))
            && d.nextTransition == e.heartbeatAt + p.staleAfter
            && Settled(e.schedule, now) && d.reason != UnsupportedActivity
  {
    FreshnessTimeline(e.heartbeatAt, now, p.staleAfter, p.Skew());
    EarliestOfTwo(now, e.heartbeatAt + p.staleAfter, ZERO_TIME);
    assert EvaluateSchedule(e.schedule, now) == Ok(Evaluation(None, ZERO_TIME, 0));
    hide HeartbeatFreshness, EarliestTransition, EvaluateSchedule, MinPositive, HoldExpiry;
  }

  /**
   Two enrollments for which the reported transition is too late. The node is taken by a, in
   interactive use; b is idle and has the older heartbeat. Failing closed, b overtakes a when its heartbeat expires.
   */
  lemma OlderHeartbeatOvertakes(p: TaintPolicy, a: Enrollment, b: Enrollment, node: string, now: Time)
    requires p.Valid() && p.failClosed && ZERO_TIME < now && !SameKey(a, b)
    requires Plain(p, a, node, now) && a.state == Active && a.activity == InteractiveActivity
    requires Plain(p, b, node, now) && b.state == Idle
    requires ZERO_TIME < b.heartbeatAt < a.heartbeatAt
    ensures var r, t := Protect(p, [a, b], node, now), b.heartbeatAt + p.staleAfter;
            && r.source == Some(a) && r.NextTransition() == a.heartbeatAt + p.staleAfter
            && now < t < r.NextTransition()
            && Protect(p, [a, b], node, t).Taint() == p.FailClosedTaint() != r.Taint()
            && !Missed(p, a, now, t) && !Missed(p, b, now, t)
  {
    hide Protect, DecidePolicy, HeartbeatFreshness, Settled, OpeningAt, Before, SameKey;
    var t := b.heartbeatAt + p.staleAfter;
    assert a in [a, b] && b in [a, b];
    ProtectionIsMeant(p, [a, b], node, now);
    ProtectionIsMeant(p, [a, b], node, t);
    PlainDecision(p, a, node, now);
    PlainDecision(p, b, node, now);
    FreshnessTimeline(a.heartbeatAt, now, p.staleAfter, p.Skew());
    FreshnessTimeline(a.heartbeatAt, t, p.staleAfter, p.Skew());
    FreshnessTimeline(b.heartbeatAt, t, p.staleAfter, p.Skew());
    PlainDecision(p, a, node, t);
    DecisionFollowsReason(p, b, t);
  }

  // --- Ties ------------------------------------------------------------------------------

  /** Among enrollments that ask for the same taint, and play or do not play alike, the first in the dictionary is the source. */
  lemma TieGoesToFirstName(
    p: TaintPolicy, items: seq<Enrollment>, node: string, s: Enrollment, x: Enrollment, now: Time)
    requires p.Valid() && ZERO_TIME < now && DistinctKeys(items)
    requires Protect(p, items, node, now).source == Some(s) && x in items && Live(x, node)
    requires DecidePolicy(p, x, now).taint == DecidePolicy(p, s, now).taint && (Playing(p, x, now) <==> Playing(p, s, now))
    ensures x == s || Earlier(s, x)
  {
    ProtectionIsMeant(p, items, node, now);
    assert WinsOver(p, s, x, now) && Rank(p, s, now) == Rank(p, x, now);
    BeforeIsStrictOrder(s, x);
    BeforeIsEarlier(s, x);
    hide Protect, DecidePolicy, DistinctKeys, Live, Before, Earlier, Rank;
    if SameKey(s, x) {
      KeysIdentify(items, s, x);
    }
  }

  /**
   Not failing closed, a name decides admission: of a fresh idle host and one that has expired, the node
   is admitted exactly if the fresh one comes first in the dictionary.
   */
  lemma NameDecidesAdmission(p: TaintPolicy, a: Enrollment, b: Enrollment, node: string, now: Time)
    requires p.Valid() && !p.failClosed && ZERO_TIME < now && !SameKey(a, b)
    requires Plain(p, a, node, now) && a.state == Idle && a.activity == IdleActivity && ZERO_TIME < a.heartbeatAt
    requires Live(b, node) && ZERO_TIME < b.heartbeatAt && b.heartbeatAt + p.staleAfter <= now
    ensures PolicyAdmitted(p, Protect(p, [a, b], node, now), now) <==> Earlier(a, b)
  {
    hide Protect, DecidePolicy, HeartbeatFreshness, Settled, OpeningAt, Before, SameKey, Earlier;
    var s := Protect(p, [a, b], node, now).source;
    assert a in [a, b] && b in [a, b];
    ProtectionIsMeant(p, [a, b], node, now);
    PlainDecision(p, a, node, now);
    FreshnessTimeline(b.heartbeatAt, now, p.staleAfter, p.Skew());
    DecisionFollowsReason(p, b, now);
    TieGoesToFirstName(p, [a, b], node, s.value, a, now);
    TieGoesToFirstName(p, [a, b], node, s.value, b, now);
    NeverBothEarlier(a, b);
  }

  lemma NeverBothEarlier(a: Enrollment, b: Enrollment)
    ensures !(Earlier(a, b) && Earlier(b, a))
  {
    BeforeIsEarlier(a, b);
    BeforeIsEarlier(b, a);
    BeforeIsStrictOrder(a, b);
    hide Earlier, Before;
  }
}
