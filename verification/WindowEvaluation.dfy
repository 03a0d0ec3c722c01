/** What the evaluation of all windows means, and for how long its answer holds. */
module WindowEvaluation {
  import opened Clock
  import opened Outcomes
  import opened Windows
  import opened WindowLaws
  import opened WindowSuccess

  ghost predicate ValidWindows(windows: seq<ParsedWindow>) {
    forall i | 0 <= i < |windows| :: ValidWindow(windows[i])
  }

  /** A game is stronger than interactive use, and both are stronger than idleness that is allowed. */
  predicate Stronger(a: WindowState, b: WindowState) {
    (a == Game && b != Game) || (a == Interactive && b == IdleAllowed)
  }

  /** A window at least as strong as another: a stronger state, or the same state ending no later. */
  predicate NoWeaker(a: ScheduledWindow, b: ScheduledWindow) {
    Stronger(a.state, b.state) || (a.state == b.state && a.end <= b.end)
  }

  /** The strongest open occurrence of the first k windows. */
  ghost predicate StrongestOpen(
    windows: seq<ParsedWindow>, k: nat, now: Time, lead: Duration, active: Option<ScheduledWindow>)
    requires k <= |windows|
  {
    if active.None? then forall i, t | 0 <= i < k :: !OpenAt(windows[i], lead, now, t)
    else
      && (exists i | 0 <= i < k ::
            active.value == Occurrence(windows[i], active.value.start) &&
            OpenAt(windows[i], lead, now, active.value.start))
      && (forall i, t | 0 <= i < k && OpenAt(windows[i], lead, now, t) ::
            NoWeaker(active.value, Occurrence(windows[i], t)))
  }

  /** The least boundary after now of the first k windows. */
  ghost predicate LeastBoundary(windows: seq<ParsedWindow>, k: nat, now: Time, lead: Duration, wake: Time)
    requires k <= |windows|
  {
    && now < wake
    && (exists i | 0 <= i < k :: Boundary(windows[i], lead, wake))
    && (forall i, b | 0 <= i < k && Boundary(windows[i], lead, b) && now < b :: wake <= b)
  }

  /** The next start after now of the first k windows. */
  ghost predicate NextStart(windows: seq<ParsedWindow>, k: nat, now: Time, next: Time)
    requires k <= |windows|
  {
    && now < next
    && (exists i | 0 <= i < k :: Occurs(windows[i], next))
    && (forall i, t | 0 <= i < k && Occurs(windows[i], t) && now < t :: next <= t)
  }

  /** Each of the first k windows answers at now. */
  ghost predicate AllAnswer(windows: seq<ParsedWindow>, k: nat, now: Time, lead: Duration)
    requires k <= |windows|
  {
    forall i | 0 <= i < k :: Answers(windows[i], now, lead)
  }

  /** The fold answers exactly if every window does. */
  lemma {:induction false} FoldSucceedsIff(windows: seq<ParsedWindow>, k: nat, now: Time, lead: Duration)
    requires k <= |windows| && ValidWindows(windows) && ZERO_TIME < now && lead >= 0
    ensures Fold(windows, k, now, lead).Ok? <==> AllAnswer(windows, k, now, lead)
  {
    hide ScanOf, Answers, ValidWindow, PreferOpenWindow, EarlierTime;
    if k > 0 {
      FoldSucceedsIff(windows, k - 1, now, lead);
      ScanSucceedsIff(windows[k - 1], now, lead);
    }
  }

  lemma PreferredIsStrongest(
    windows: seq<ParsedWindow>, k: nat, now: Time, lead: Duration,
    current: Option<ScheduledWindow>, candidate: Option<ScheduledWindow>)
    requires k < |windows|
    requires StrongestOpen(windows, k, now, lead, current)
    requires ActiveMeans(windows[k], now, lead, candidate)
    ensures StrongestOpen(windows, k + 1, now, lead, PreferOpenWindow(current, candidate))
  {
    var active := PreferOpenWindow(current, candidate);
    hide OpenAt, Occurs;
    if active.Some? {
      forall i, t | 0 <= i < k + 1 && OpenAt(windows[i], lead, now, t)
        ensures NoWeaker(active.value, Occurrence(windows[i], t))
      {
        if i == k {
          assert candidate.value.start <= t;
        } else {
          assert NoWeaker(current.value, Occurrence(windows[i], t));
        }
      }
      if active == candidate && candidate.Some? {
        assert active.value == Occurrence(windows[k], active.value.start);
      }
    }
  }

  lemma EarlierIsLeast(windows: seq<ParsedWindow>, k: nat, now: Time, lead: Duration, current: Time, boundary: Time)
    requires k < |windows| && ZERO_TIME < now
    requires if k == 0 then current == ZERO_TIME else LeastBoundary(windows, k, now, lead, current)
    requires WakeMeans(windows[k], now, lead, boundary)
    ensures LeastBoundary(windows, k + 1, now, lead, EarlierTime(current, boundary))
  {
    hide Boundary;
    assert EarlierTime(current, boundary) == boundary ==> Boundary(windows[k], lead, EarlierTime(current, boundary));
  }

  lemma EarlierStartIsNext(windows: seq<ParsedWindow>, k: nat, now: Time, current: Time, upcoming: Time)
    requires k < |windows| && ZERO_TIME < now
    requires if k == 0 then current == ZERO_TIME else NextStart(windows, k, now, current)
    requires UpcomingMeans(windows[k], now, upcoming)
    ensures NextStart(windows, k + 1, now, if current == ZERO_TIME || upcoming < current then upcoming else current)
  {
    hide Occurs;
    assert Occurs(windows[k], upcoming);
  }

  /** The fold over the first k windows means the strongest, the next and the least of them all. */
  lemma {:induction false} FoldIsMeant(windows: seq<ParsedWindow>, k: nat, now: Time, lead: Duration)
    requires k <= |windows| && ValidWindows(windows) && ZERO_TIME < now && lead >= 0
    ensures var r := Fold(windows, k, now, lead);
            if r.Err? then r.error in {NoOccurrence, TooManyOccurrences}
            else
              && StrongestOpen(windows, k, now, lead, r.value.active)
              && (if k == 0 then r.value.wake == ZERO_TIME && r.value.upcoming == ZERO_TIME
                  else LeastBoundary(windows, k, now, lead, r.value.wake) && NextStart(windows, k, now, r.value.upcoming))
  {
    hide ScanOf, ActiveMeans, WakeMeans, UpcomingMeans, PreferOpenWindow, EarlierTime, ValidWindow;
    if k > 0 {
      FoldIsMeant(windows, k - 1, now, lead);
      hide LeastBoundary, NextStart, StrongestOpen;
      var before := Fold(windows, k - 1, now, lead);
      if before.Ok? {
        ScanIsClosed(windows[k - 1], now, lead);
        var scan := ScanOf(windows[k - 1], now, lead);
        if scan.Ok? {
          ScanIsMeant(windows[k - 1], now, lead);
          PreferredIsStrongest(windows, k - 1, now, lead, before.value.active, scan.value.active);
          EarlierIsLeast(windows, k - 1, now, lead, before.value.wake, scan.value.wake);
          EarlierStartIsNext(windows, k - 1, now, before.value.upcoming, scan.value.upcoming);
        }
      }
    }
  }

  lemma WakeIsAhead(windows: seq<ParsedWindow>, now: Time, lead: Duration)
    requires ValidWindows(windows) && ZERO_TIME < now && lead >= 0 && windows != []
    ensures var r := Fold(windows, |windows|, now, lead); r.Ok? ==> now < r.value.wake
  {
    FoldIsMeant(windows, |windows|, now, lead);
    hide StrongestOpen, NextStart, Boundary, Fold, ValidWindows;
  }

  lemma EvaluationSucceedsIff(windows: seq<ParsedWindow>, now: Time, lead: Duration)
    requires ValidWindows(windows) && ZERO_TIME < now && lead >= 0
    ensures Evaluate(windows, now, lead).Ok? <==> AllAnswer(windows, |windows|, now, lead)
  {
    FoldSucceedsIff(windows, |windows|, now, lead);
    if windows != [] {
      WakeIsAhead(windows, now, lead);
    }
    hide Fold, AllAnswer, ValidWindows;
  }

  /** What the evaluation says where it answers. */
  ghost predicate EvaluationMeans(windows: seq<ParsedWindow>, now: Time, lead: Duration, e: Evaluation) {
    && StrongestOpen(windows, |windows|, now, lead, e.active)
    && (if windows == [] then e.wait == 0 && e.next == ZERO_TIME
        else
          && e.wait > 0
          && LeastBoundary(windows, |windows|, now, lead, now + e.wait)
          && NextStart(windows, |windows|, now, e.next))
  }

  /**
   The evaluation answers exactly if every window does, and then is its declarative meaning over
   every occurrence of every window. Only a schedule's horizon or the step limit can fail it.
   */
  lemma EvaluationIsMeant(windows: seq<ParsedWindow>, now: Time, lead: Duration)
    requires ValidWindows(windows) && ZERO_TIME < now && lead >= 0
    ensures var r := Evaluate(windows, now, lead);
            && (r.Ok? <==> AllAnswer(windows, |windows|, now, lead))
            && (if r.Err? then r.error in {NoOccurrence, TooManyOccurrences} else EvaluationMeans(windows, now, lead, r.value))
  {
    EvaluationSucceedsIff(windows, now, lead);
    FoldIsMeant(windows, |windows|, now, lead);
    if windows != [] {
      WakeIsAhead(windows, now, lead);
    }
    hide Fold, StrongestOpen, NextStart, LeastBoundary, AllAnswer, ValidWindows;
  }

  // --- The answer holds until the wait is over --------------------------------------

  lemma {:induction false} FoldIsStable(windows: seq<ParsedWindow>, k: nat, now: Time, t: Time, lead: Duration)
    requires k <= |windows| && ValidWindows(windows) && ZERO_TIME < now <= t && lead >= 0
    requires var r := Fold(windows, k, now, lead); r.Ok? && (k > 0 ==> t < r.value.wake)
    ensures Fold(windows, k, t, lead) == Fold(windows, k, now, lead)
  {
    hide ScanOf, PreferOpenWindow, ValidWindow;
    if k > 0 {
      FoldIsMeant(windows, k, now, lead);
      FoldIsMeant(windows, k - 1, now, lead);
      ScanIsMeant(windows[k - 1], now, lead);
      hide StrongestOpen, NextStart, ActiveMeans, UpcomingMeans, Boundary;
      ScanIsStable(windows[k - 1], now, t, lead);
      FoldIsStable(windows, k - 1, now, t, lead);
    }
  }

  /** Before now + wait, the evaluation answers the same, and waits for the same instant. */
  lemma EvaluationIsStable(windows: seq<ParsedWindow>, now: Time, t: Time, lead: Duration)
    requires ValidWindows(windows) && ZERO_TIME < now <= t && lead >= 0
    requires Evaluate(windows, now, lead).Ok?
    requires windows == [] || t < now + Evaluate(windows, now, lead).value.wait
    ensures var e := Evaluate(windows, now, lead).value;
            Evaluate(windows, t, lead) == Ok(e.(wait := if windows == [] then 0 else now + e.wait - t))
  {
    hide ValidWindows;
    if windows != [] {
      hide Fold;
      WakeIsAhead(windows, now, lead);
      FoldIsStable(windows, |windows|, now, t, lead);
    }
  }
}
