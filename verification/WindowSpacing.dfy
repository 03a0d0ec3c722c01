/** Which schedules can be evaluated at every instant, and which stop and start answering. */
module WindowSpacing {
  import opened Clock
  import opened Products
  import opened Int64Words
  import opened Windows
  import opened WindowLaws
  import opened WindowSuccess

  /** Next finds something at every instant. */
  ghost predicate Endless(w: ParsedWindow) {
    forall x :: w.next(x) != ZERO_TIME
  }

  /** Two starts are at least a gap apart. */
  ghost predicate Spaced(w: ParsedWindow, gap: Duration) {
    gap >= 1 && forall t, u | Occurs(w, t) && Occurs(w, u) && t < u :: t + gap <= u
  }

  lemma EndlessContinues(w: ParsedWindow, from: Time, until: Time)
    requires Endless(w)
    ensures Continues(w, from, until)
  {
  }

  /** After a start, the starts up to an instant fit a gap each. */
  lemma {:induction false} StartsAfterStart(w: ParsedWindow, gap: Duration, start: Time, until: Time)
    requires ValidWindow(w) && Endless(w) && Spaced(w, gap) && Occurs(w, start) && start <= until
    ensures |Starts(w, start, until)| * gap <= until - start
    decreases until - start
  {
    var next := w.next(start);
    NextOccurs(w, start);
    assert start + gap <= next;
    hide LeastElement, Occurs, Spaced;
    if next > until {
      NoStarts(w, start, until);
    } else {
      FirstStart(w, start, until);
      StartsAfterStart(w, gap, next, until);
      SumTimes(1, |Starts(w, next, until)|, gap);
    }
    hide Starts, Endless;
  }

  lemma FewerThan(n: int, most: int, gap: Duration, span: Duration)
    requires gap >= 1 && n * gap <= span < most * gap
    ensures n < most
  {
    if n >= most {
      OrderTimes(most, n, gap);
    }
  }

  lemma SpacedStartsAreFew(w: ParsedWindow, gap: Duration, from: Time, until: Time, most: nat)
    requires ValidWindow(w) && Endless(w) && Spaced(w, gap) && from < until <= from + most * gap
    ensures |Starts(w, from, until)| <= most
  {
    var first := w.next(from);
    NextOccurs(w, from);
    if first > until {
      NoStarts(w, from, until);
      assert |Starts(w, from, until)| == 0;
    } else {
      FirstStart(w, from, until);
      StartsAfterStart(w, gap, first, until);
      FewerThan(|Starts(w, first, until)|, most, gap, until - first);
    }
    hide LeastElement, Occurs, Starts, Continues;
  }

  /** Starts that are spaced well against the duration are never too many. */
  lemma SpacedWindowAnswers(w: ParsedWindow, gap: Duration, now: Time, lead: Duration)
    requires ValidWindow(w) && Endless(w) && Spaced(w, gap) && w.duration <= MAX_WINDOW_OCCURRENCES * gap
    ensures Answers(w, now, lead)
  {
    EndlessContinues(w, now - w.duration, now);
    SpacedStartsAreFew(w, gap, now - w.duration, now, MAX_WINDOW_OCCURRENCES);
    hide LeastElement, Spaced, Starts, Continues;
  }

  // --- Periodic schedules ------------------------------------------------------------

  /** Next of a schedule that starts every period, at one of whose starts the clock reads phase. */
  function Every(period: Duration, phase: Time): Time -> Time
    requires period >= 1
  {
    x => phase + ((x - phase) / period + 1) * period
  }

  /** A period, and a phase inside it, so that the unset time is no start. */
  predicate Periodic(period: Duration, phase: Time) {
    0 < phase < period
  }

  /** The period that an instant lies in. */
  function PeriodOf(period: Duration, phase: Time, x: Time): int
    requires period >= 1
  {
    (x - phase) / period
  }

  lemma PeriodIs(period: Duration, phase: Time, x: Time, k: int)
    requires period >= 1
    ensures PeriodOf(period, phase, x) == k <==> phase + k * period <= x < phase + k * period + period
  {
    SumTimes(k, 1, period);
    FloorAtLeast(x - phase, period, k);
    FloorAtLeast(x - phase, period, k + 1);
  }

  lemma EveryIsNext(period: Duration, phase: Time, x: Time)
    requires Periodic(period, phase)
    ensures var next := Every(period, phase)(x);
            && x < next <= x + period
            && next != ZERO_TIME
            && PeriodOf(period, phase, next) == PeriodOf(period, phase, x) + 1
            && next == phase + PeriodOf(period, phase, next) * period
  {
    var k := PeriodOf(period, phase, x);
    PeriodIs(period, phase, x, k);
    SumTimes(k, 1, period);
    PeriodIs(period, phase, phase + (k + 1) * period, k + 1);
    if k + 1 <= -1 {
      OrderTimes(k + 1, -1, period);
    } else {
      OrderTimes(0, k + 1, period);
    }
  }

  lemma SamePeriod(period: Duration, phase: Time, x: Time, y: Time)
    requires Periodic(period, phase) && x <= y < Every(period, phase)(x)
    ensures PeriodOf(period, phase, y) == PeriodOf(period, phase, x)
  {
    var k := PeriodOf(period, phase, x);
    PeriodIs(period, phase, x, k);
    SumTimes(k, 1, period);
    PeriodIs(period, phase, y, k);
  }

  lemma EveryIsLeastElement(period: Duration, phase: Time)
    requires Periodic(period, phase)
    ensures LeastElement(Every(period, phase))
  {
    var next := Every(period, phase);
    forall x
      ensures x < next(x)
    {
      EveryIsNext(period, phase, x);
    }
    forall x, y | x <= y < next(x)
      ensures next(y) == next(x)
    {
      SamePeriod(period, phase, x, y);
    }
  }

  /** The starts between two instants, counted by their periods. */
  lemma {:induction false} StartsByPeriods(w: ParsedWindow, period: Duration, phase: Time, from: Time, until: Time)
    requires ValidWindow(w) && Periodic(period, phase) && w.next == Every(period, phase) && from <= until
    ensures |Starts(w, from, until)| == PeriodOf(period, phase, until) - PeriodOf(period, phase, from)
    decreases until - from
  {
    EveryIsNext(period, phase, from);
    var next := w.next(from);
    hide Starts, LeastElement;
    if next > until {
      NoStarts(w, from, until);
      SamePeriod(period, phase, from, until);
      assert |Starts(w, from, until)| == 0;
    } else {
      FirstStart(w, from, until);
      hide Every, PeriodOf;
      StartsByPeriods(w, period, phase, next, until);
    }
  }

  /** How far into its period an instant is. */
  function OffsetOf(period: Duration, phase: Time, x: Time): Duration
    requires period >= 1
  {
    (x - phase) % period
  }

  /** How many starts lie in a duration up to an instant: as many as the periods in it, or one more. */
  function RecentStarts(period: Duration, phase: Time, duration: Duration, now: Time): int
    requires period >= 1
  {
    duration / period + if OffsetOf(period, phase, now) >= duration % period then 0 else 1
  }

  /** Going back m periods and a rest crosses one more start if the rest exceeds the offset. */
  lemma PeriodBack(period: Duration, phase: Time, x: Time, duration: Duration, k: int, offset: Duration, m: int, rest: Duration)
    requires 0 <= offset < period && 0 <= rest < period
    requires x == phase + k * period + offset && duration == m * period + rest
    ensures PeriodOf(period, phase, x - duration) == if offset >= rest then k - m else k - m - 1
  {
    SumTimes(k, -m, period);
    SumTimes(k - m, -1, period);
    PeriodIs(period, phase, x - duration, if offset >= rest then k - m else k - m - 1);
    hide PeriodOf;
  }

  lemma Divided(x: int, period: Duration)
    requires period >= 1
    ensures x == x / period * period + x % period && 0 <= x % period < period
  {
  }

  /** A duration before an instant lies as many periods back as it holds, or one more. */
  lemma PeriodBefore(period: Duration, phase: Time, x: Time, duration: Duration)
    requires period >= 1 && duration >= 0
    ensures PeriodOf(period, phase, x) - PeriodOf(period, phase, x - duration) == RecentStarts(period, phase, duration, x)
  {
    Divided(x - phase, period);
    Divided(duration, period);
    var k, offset := PeriodOf(period, phase, x), OffsetOf(period, phase, x);
    assert x == phase + k * period + offset && 0 <= offset < period;
    hide PeriodOf, OffsetOf;
    PeriodBack(period, phase, x, duration, k, offset, duration / period, duration % period);
  }

  /** A window of a duration that starts every period. */
  function EveryWindow(state: WindowState, period: Duration, phase: Time, duration: Duration): ParsedWindow
    requires period >= 1
  {
    ParsedWindow(state, Every(period, phase), duration)
  }

  lemma EveryIsEndless(state: WindowState, period: Duration, phase: Time, duration: Duration)
    requires Periodic(period, phase)
    ensures Endless(EveryWindow(state, period, phase, duration))
  {
    forall x
      ensures Every(period, phase)(x) != ZERO_TIME
    {
      EveryIsNext(period, phase, x);
    }
  }

  /** A periodic window is a valid one, and its recent starts are those of its period and duration. */
  lemma PeriodicStarts(state: WindowState, period: Duration, phase: Time, duration: Duration, now: Time)
    requires Periodic(period, phase) && duration >= 1
    ensures var w := EveryWindow(state, period, phase, duration);
            && ValidWindow(w)
            && |Starts(w, now - duration, now)| == RecentStarts(period, phase, duration, now)
  {
    EveryIsLeastElement(period, phase);
    hide Every, PeriodOf, RecentStarts, LeastElement, Starts;
    StartsByPeriods(EveryWindow(state, period, phase, duration), period, phase, now - duration, now);
    PeriodBefore(period, phase, now, duration);
  }

  lemma EndlessAnswersByCount(w: ParsedWindow, now: Time, lead: Duration, count: int)
    requires Endless(w) && |Starts(w, now - w.duration, now)| == count
    ensures Answers(w, now, lead) <==> count <= MAX_WINDOW_OCCURRENCES
  {
    EndlessContinues(w, now - w.duration, now);
    assert w.next(now + lead) != ZERO_TIME;
    hide Starts, Continues, Endless;
  }

  /** Exactly when a periodic window can be evaluated, from how far into its period the clock is. */
  lemma PeriodicAnswersIff(state: WindowState, period: Duration, phase: Time, duration: Duration, now: Time, lead: Duration)
    requires Periodic(period, phase) && duration >= 1
    ensures var w := EveryWindow(state, period, phase, duration);
            && ValidWindow(w) && Endless(w)
            && (Answers(w, now, lead) <==>
                RecentStarts(period, phase, duration, now) <= MAX_WINDOW_OCCURRENCES)
  {
    var w := EveryWindow(state, period, phase, duration);
    assert w.duration == duration;
    hide EveryWindow, Every, RecentStarts, ValidWindow, Starts, Continues, Endless, Answers;
    PeriodicStarts(state, period, phase, duration, now);
    EveryIsEndless(state, period, phase, duration);
    EndlessAnswersByCount(w, now, lead, RecentStarts(period, phase, duration, now));
  }

  lemma DurationInPeriods(period: Duration, duration: Duration, most: int)
    requires period >= 1 && duration >= 1
    ensures duration <= most * period <==> duration / period < most || (duration / period == most && duration % period == 0)
    ensures duration < (most + 1) * period <==> duration / period <= most
  {
    FloorAtLeast(duration, period, most);
    FloorAtLeast(duration, period, most + 1);
    SumTimes(most, 1, period);
    assert duration == duration / period * period + duration % period;
  }

  /** The first instant of a period sees the most starts, and the last the fewest. */
  lemma RecentStartsWithin(period: Duration, phase: Time, duration: Duration, now: Time, most: int)
    requires period >= 1 && duration >= 1
    ensures duration <= most * period ==> RecentStarts(period, phase, duration, now) <= most
    ensures RecentStarts(period, phase, duration, now) <= most ==> duration < (most + 1) * period
    ensures RecentStarts(period, phase, duration, phase) <= most ==> duration <= most * period
    ensures duration < (most + 1) * period ==> RecentStarts(period, phase, duration, phase + period - 1) <= most
  {
    DurationInPeriods(period, duration, most);
    assert OffsetOf(period, phase, phase) == 0;
    assert OffsetOf(period, phase, phase + period - 1) == period - 1;
    hide OffsetOf;
  }

  lemma PeriodicAnswersWithin(state: WindowState, period: Duration, phase: Time, duration: Duration, now: Time, lead: Duration)
    requires Periodic(period, phase) && duration >= 1
    ensures var w := EveryWindow(state, period, phase, duration);
            && (duration <= MAX_WINDOW_OCCURRENCES * period ==> Answers(w, now, lead))
            && (Answers(w, now, lead) ==> duration < (MAX_WINDOW_OCCURRENCES + 1) * period)
            && (Answers(w, phase, lead) ==> duration <= MAX_WINDOW_OCCURRENCES * period)
            && (duration < (MAX_WINDOW_OCCURRENCES + 1) * period ==> Answers(w, phase + period - 1, lead))
  {
    hide Answers, ValidWindow, EveryWindow, Endless, RecentStarts;
    RecentStartsWithin(period, phase, duration, now, MAX_WINDOW_OCCURRENCES);
    PeriodicAnswersIff(state, period, phase, duration, now, lead);
    PeriodicAnswersIff(state, period, phase, duration, phase, lead);
    PeriodicAnswersIff(state, period, phase, duration, phase + period - 1, lead);
  }

  ghost predicate AlwaysAnswers(w: ParsedWindow, lead: Duration) {
    forall now | ZERO_TIME < now :: Answers(w, now, lead)
  }

  ghost predicate NeverAnswers(w: ParsedWindow, lead: Duration) {
    forall now | ZERO_TIME < now :: !Answers(w, now, lead)
  }

  /**
   A periodic schedule answers at every instant exactly if its windows last no longer than the limit
   of periods, and at none exactly if they last a period more. In between it stops and starts again.
   */
  lemma PeriodicScheduleAnswersIff(state: WindowState, period: Duration, phase: Time, duration: Duration, lead: Duration)
    requires Periodic(period, phase) && duration >= 1
    ensures var w := EveryWindow(state, period, phase, duration);
            && (AlwaysAnswers(w, lead) <==> duration <= MAX_WINDOW_OCCURRENCES * period)
            && (NeverAnswers(w, lead) <==> (MAX_WINDOW_OCCURRENCES + 1) * period <= duration)
  {
    var w := EveryWindow(state, period, phase, duration);
    hide Answers, EveryWindow;
    PeriodicAnswersWithin(state, period, phase, duration, phase, lead);
    forall now
      ensures duration <= MAX_WINDOW_OCCURRENCES * period ==> Answers(w, now, lead)
      ensures Answers(w, now, lead) ==> duration < (MAX_WINDOW_OCCURRENCES + 1) * period
    {
      PeriodicAnswersWithin(state, period, phase, duration, now, lead);
    }
  }
}
