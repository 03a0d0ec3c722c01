/**
 Node metrics with changing labels: the exported series against the last labels recorded.
 `Board` is the value of all of them, `Metrics` the object that the reconciles update.
 */
module Metrics {
  import opened Outcomes
  import opened Texts

  datatype ActivityLabels = ActivityLabels(state: string, activity: string)

  datatype TaintLabels = TaintLabels(key: string, value: string, effect: string)

  /** The series of one gauge, and the last labels recorded for each node. */
  datatype Tracked<L(==, !new)> = Tracked(series: set<(string, L)>, last: map<string, L>) {
    function Observed(node: string, labels: L): Tracked<L> {
      Tracked(Stale(node, labels) + {(node, labels)}, last[node := labels])
    }

    /** The series without an older one of the node. */
    function Stale(node: string, labels: L): set<(string, L)> {
      if node in last && last[node] != labels then series - {(node, last[node])} else series
    }

    function Added(node: string, labels: L): Tracked<L> {
      Tracked(series + {(node, labels)}, last[node := labels])
    }

    function Dropped(node: string): Tracked<L> {
      if node in last then Tracked(series - {(node, last[node])}, last - {node}) else this
    }

    /** Each node has the one series that is recorded for it, or none. */
    ghost predicate Synced() {
      forall node, labels :: (node, labels) in series <==> node in last && last[node] == labels
    }
  }

  datatype Board = Board(
    activity: Tracked<ActivityLabels>,
    taint: Tracked<TaintLabels>,
    schedulable: map<string, bool>,
    admission: Tracked<string>,
    outcome: Tracked<string>,
    blocked: Tracked<string>,
    windows: map<string, bool>)

  const BLANK := Board(Tracked({}, map[]), Tracked({}, map[]), map[], Tracked({}, map[]), Tracked({}, map[]), Tracked({}, map[]), map[])

  const BLOCKED := "blocked"

  const BLOCKER_REASONS := {"pdb-blocked", "api-error", "eviction-conflict", "pod-gone", "retry-backoff"}

  function BoundedBlocker(reason: string): string {
    if reason in BLOCKER_REASONS then reason else "api-error"
  }

  function OrUnknown(s: string): string {
    if s == "" then "unknown" else s
  }

  function WithActivity(
    b: Board, node: string, state: string, activity: string, desired: Option<TaintLabels>, isFresh: bool): Board {
    b.(activity := b.activity.Observed(node, ActivityLabels(OrUnknown(state), OrUnknown(activity))),
       taint := if desired.None? then b.taint.Dropped(node) else b.taint.Observed(node, desired.value),
       schedulable := b.schedulable[node := isFresh && state == "idle" && activity == "idle" && desired.None?])
  }

  function WithEviction(b: Board, node: string, outcome: string, blocker: string): Board {
    var known := node in b.blocked.last && (outcome != BLOCKED || b.blocked.last[node] != blocker);
    var cleared := if known then b.blocked.Dropped(node) else b.blocked;
    b.(outcome := b.outcome.Observed(node, outcome),
       blocked := if outcome != BLOCKED then cleared
                  else cleared.Added(node, BoundedBlocker(blocker)))
  }

  function WithoutNode(b: Board, node: string): Board {
    Board(b.activity.Dropped(node), b.taint.Dropped(node), b.schedulable - {node}, b.admission.Dropped(node),
          b.outcome.Dropped(node), b.blocked.Dropped(node), b.windows - {node})
  }

  /** The calls that change the metrics. Names come as they are; a blank one changes nothing. */
  datatype Call =
    | ObserveActivity(node: string, state: string, activity: string, desired: Option<TaintLabels>, isFresh: bool)
    | ObserveAdmission(node: string, reason: string)
    | ObserveEviction(node: string, outcome: string, blocker: string)
    | ObserveWindow(node: string, active: bool)
    | Clear(node: string)

  function After(b: Board, c: Call): Board {
    var node := TrimSpace(c.node);
    if node == "" then b
    else
      match c
      case ObserveActivity(_, state, activity, desired, isFresh) => WithActivity(b, node, state, activity, desired, isFresh)
      case ObserveAdmission(_, reason) => if reason == "" then b else b.(admission := b.admission.Observed(node, reason))
      case ObserveEviction(_, outcome, blocker) =>
        if TrimSpace(outcome) == "" then b else WithEviction(b, node, TrimSpace(outcome), blocker)
      case ObserveWindow(given, active) => b.(windows := b.windows[given := active])
      case Clear(_) => WithoutNode(b, node)
  }

  /** One exported gauge with the last labels of each node. */
  class Gauge<L(==, !new)> {
    var series: set<(string, L)>
    var last: map<string, L>

    constructor ()
      ensures Value() == Tracked({}, map[])
    {
      series, last := {}, map[];
    }

    function Value(): Tracked<L>
      reads this
    {
      Tracked(series, last)
    }

    method Observe(node: string, labels: L)
      modifies this
      ensures Value() == old(Value()).Observed(node, labels)
    {
      if node in last && last[node] != labels {
        series := series - {(node, last[node])};
      }
      Add(node, labels);
    }

    method Add(node: string, labels: L)
      modifies this
      ensures Value() == old(Value()).Added(node, labels)
    {
      series := series + {(node, labels)};
      last := last[node := labels];
    }

    method Drop(node: string)
      modifies this
      ensures Value() == old(Value()).Dropped(node)
    {
      if node in last {
        series := series - {(node, last[node])};
        last := last - {node};
      }
    }
  }

  class Metrics {
    const activity: Gauge<ActivityLabels>
    const taint: Gauge<TaintLabels>
    const admission: Gauge<string>
    const outcome: Gauge<string>
    const blocked: Gauge<string>
    var schedulable: map<string, bool>
    var windows: map<string, bool>

    constructor ()
      ensures Separate() && Value() == BLANK
      ensures fresh(activity) && fresh(taint) && fresh(admission) && fresh(outcome) && fresh(blocked)
    {
      activity := new Gauge();
      taint := new Gauge();
      admission := new Gauge();
      outcome := new Gauge();
      blocked := new Gauge();
      schedulable, windows := map[], map[];
    }

    /** No gauge serves two purposes. */
    predicate Separate() {
      admission != outcome && admission != blocked && outcome != blocked
    }

    function Value(): Board
      reads this, activity, taint, admission, outcome, blocked
    {
      Board(activity.Value(), taint.Value(), schedulable, admission.Value(), outcome.Value(), blocked.Value(), windows)
    }

    method ObserveActivityAndTaint(
      name: string, state: string, activityText: string, desired: Option<TaintLabels>, isFresh: bool)
      requires Separate()
      modifies `schedulable, activity, taint
      ensures Value() == After(old(Value()), ObserveActivity(name, state, activityText, desired, isFresh))
    {
      hide TrimSpace, Tracked.Observed, Tracked.Dropped, OrUnknown;
      var node := TrimSpace(name);
      if node == "" {
        return;
      }
      activity.Observe(node, ActivityLabels(OrUnknown(state), OrUnknown(activityText)));
      if desired.None? {
        taint.Drop(node);
      } else {
        taint.Observe(node, desired.value);
      }
      schedulable := schedulable[node := isFresh && state == "idle" && activityText == "idle" && desired.None?];
    }

    method ObserveAdmissionReason(name: string, reason: string)
      requires Separate()
      modifies admission
      ensures Value() == After(old(Value()), ObserveAdmission(name, reason))
    {
      hide TrimSpace, Tracked.Observed;
      var node := TrimSpace(name);
      if node == "" || reason == "" {
        return;
      }
      admission.Observe(node, reason);
    }

    method ObserveEvictionStatus(name: string, given: string, blocker: string)
      requires Separate()
      modifies outcome, blocked
      ensures Value() == After(old(Value()), ObserveEviction(name, given, blocker))
    {
      hide TrimSpace, BoundedBlocker, Tracked.Observed, Tracked.Dropped, Tracked.Added;
      var node, text := TrimSpace(name), TrimSpace(given);
      if node == "" || text == "" {
        return;
      }
      outcome.Observe(node, text);
      if node in blocked.last && (text != BLOCKED || blocked.last[node] != blocker) {
        blocked.Drop(node);
      }
      if text == BLOCKED {
        blocked.Add(node, BoundedBlocker(blocker));
      }
    }

    /** The series keeps the name as given. */
    method ObserveWindowActive(name: string, active: bool)
      requires Separate()
      modifies this
      ensures Value() == After(old(Value()), ObserveWindow(name, active))
    {
      hide TrimSpace;
      if TrimSpace(name) == "" {
        return;
      }
      windows := windows[name := active];
    }

    method ClearNode(name: string)
      requires Separate()
      modifies this, activity, taint, admission, outcome, blocked
      ensures Value() == After(old(Value()), Clear(name))
    {
      hide TrimSpace, Tracked.Dropped;
      var node := TrimSpace(name);
      if node == "" {
        return;
      }
      activity.Drop(node);
      taint.Drop(node);
      schedulable, windows := schedulable - {node}, windows - {node};
      admission.Drop(node);
      outcome.Drop(node);
      blocked.Drop(node);
    }
  }

  // --- Runs -----------------------------------------------------------------------------

  function AfterAll(b: Board, calls: seq<Call>): Board {
    if calls == [] then b else After(AfterAll(b, calls[..|calls| - 1]), calls[|calls| - 1])
  }

  /** Every gauge shows what is recorded. */
  ghost predicate Shown(b: Board) {
    b.activity.Synced() && b.taint.Synced() && b.admission.Synced() && b.outcome.Synced() && b.blocked.Synced()
  }

  /** What the records of a node say of each other. */
  ghost predicate Coherent(b: Board) {
    && (forall node :: node in b.blocked.last <==> node in b.outcome.last && b.outcome.last[node] == BLOCKED)
    && (forall node | node in b.blocked.last :: b.blocked.last[node] in BLOCKER_REASONS)
    && (forall node :: node in b.schedulable <==> node in b.activity.last)
    && (forall node | node in b.taint.last :: node in b.activity.last && !b.schedulable[node])
  }

  lemma ObservedKeepsSync<L(!new)>(t: Tracked<L>, node: string, labels: L)
    requires t.Synced()
    ensures t.Observed(node, labels).Synced() && t.Dropped(node).Synced()
  {
  }

  lemma AddedKeepsSync<L(!new)>(t: Tracked<L>, node: string, labels: L)
    requires t.Synced() && (node in t.last ==> t.last[node] == labels)
    ensures t.Added(node, labels).Synced()
  {
  }

  lemma BlockedKeepsSync(b: Board, node: string, outcome: string, blocker: string)
    requires b.blocked.Synced()
    requires node in b.blocked.last ==> b.blocked.last[node] in BLOCKER_REASONS
    ensures WithEviction(b, node, outcome, blocker).blocked.Synced()
  {
    ObservedKeepsSync(b.blocked, node, blocker);
    var known := node in b.blocked.last && (outcome != BLOCKED || b.blocked.last[node] != blocker);
    var cleared := if known then b.blocked.Dropped(node) else b.blocked;
    hide Tracked.Synced;
    if outcome == BLOCKED {
      assert node in cleared.last ==> cleared.last[node] == BoundedBlocker(blocker);
      hide BoundedBlocker;
      AddedKeepsSync(cleared, node, BoundedBlocker(blocker));
    }
  }

  lemma CallKeepsShown(b: Board, c: Call)
    requires Shown(b) && Coherent(b)
    ensures Shown(After(b, c))
  {
    hide TrimSpace, Tracked.Synced, OrUnknown, Tracked.Observed, Tracked.Dropped;
    var node := TrimSpace(c.node);
    match c {
      case ObserveActivity(_, state, activity, desired, _) =>
        ObservedKeepsSync(b.activity, node, ActivityLabels(OrUnknown(state), OrUnknown(activity)));
        ObservedKeepsSync(b.taint, node, if desired.Some? then desired.value else TaintLabels("", "", ""));
      case ObserveAdmission(_, reason) =>
        ObservedKeepsSync(b.admission, node, reason);
      case ObserveEviction(_, outcome, blocker) =>
        ObservedKeepsSync(b.outcome, node, TrimSpace(outcome));
        BlockedKeepsSync(b, node, TrimSpace(outcome), blocker);
      case ObserveWindow(_, _) =>
      case Clear(_) =>
        ObservedKeepsSync(b.activity, node, ActivityLabels("", ""));
        ObservedKeepsSync(b.taint, node, TaintLabels("", "", ""));
        ObservedKeepsSync(b.admission, node, "");
        ObservedKeepsSync(b.outcome, node, "");
        ObservedKeepsSync(b.blocked, node, "");
    }
  }

  lemma ActivityKeepsCoherent(
    b: Board, node: string, state: string, activity: string, desired: Option<TaintLabels>, isFresh: bool)
    requires Coherent(b)
    ensures Coherent(WithActivity(b, node, state, activity, desired, isFresh))
  {
    hide Tracked.Stale, OrUnknown, BLOCKER_REASONS;
  }

  lemma EvictionKeepsCoherent(b: Board, node: string, outcome: string, blocker: string)
    requires Coherent(b)
    ensures Coherent(WithEviction(b, node, outcome, blocker))
  {
    assert BoundedBlocker(blocker) in BLOCKER_REASONS;
    hide Tracked.Stale, BoundedBlocker, BLOCKER_REASONS;
  }

  lemma CallKeepsCoherent(b: Board, c: Call)
    requires Coherent(b)
    ensures Coherent(After(b, c))
  {
    hide TrimSpace, WithActivity, WithEviction, BLOCKER_REASONS;
    match c {
      case ObserveActivity(_, state, activity, desired, isFresh) =>
        ActivityKeepsCoherent(b, TrimSpace(c.node), state, activity, desired, isFresh);
      case ObserveEviction(_, outcome, blocker) =>
        EvictionKeepsCoherent(b, TrimSpace(c.node), TrimSpace(outcome), blocker);
      case _ =>
    }
  }

  /** The labels shown for a node. */
  datatype View = View(
    activity: set<ActivityLabels>, taint: set<TaintLabels>, admission: set<string>, outcome: set<string>, blocked: set<string>,
    schedulable: set<bool>)

  function LabelsOf<L(==, !new)>(t: Tracked<L>, node: string): set<L> {
    set s | s in t.series && s.0 == node :: s.1
  }

  function ViewOf(b: Board, node: string): View {
    View(LabelsOf(b.activity, node), LabelsOf(b.taint, node), LabelsOf(b.admission, node), LabelsOf(b.outcome, node),
         LabelsOf(b.blocked, node), if node in b.schedulable then {b.schedulable[node]} else {})
  }

  lemma ObservedShows<L(!new)>(t: Tracked<L>, node: string, labels: L, other: string)
    requires t.Synced()
    ensures LabelsOf(t.Observed(node, labels), node) == {labels} && LabelsOf(t.Dropped(node), node) == {}
    ensures other != node ==> LabelsOf(t.Observed(node, labels), other) == LabelsOf(t, other) == LabelsOf(t.Dropped(node), other)
  {
    ObservedKeepsSync(t, node, labels);
    var after := t.Observed(node, labels);
    assert (node, labels) in after.series;
    if other != node {
      assert forall l :: (other, l) in after.series <==> (other, l) in t.series;
    }
  }

  /** Records that agree with the series say which one a node has. */
  lemma RecordIsShown<L(!new)>(t: Tracked<L>, node: string)
    requires t.Synced()
    ensures LabelsOf(t, node) == if node in t.last then {t.last[node]} else {}
  {
    if node in t.last {
      assert (node, t.last[node]) in t.series;
    }
  }

  /** The reason under which a blocker is shown. */
  function Reason(blocker: string): string {
    if blocker in {"pdb-blocked", "eviction-conflict", "pod-gone", "retry-backoff"} then blocker else "api-error"
  }

  /** A blocked outcome shows its reason alone, and any other none. */
  lemma BlockedShows(b: Board, node: string, outcome: string, blocker: string, other: string)
    requires b.blocked.Synced() && Coherent(b) && other != node
    ensures LabelsOf(WithEviction(b, node, outcome, blocker).blocked, node) == if outcome == "blocked" then {Reason(blocker)} else {}
    ensures LabelsOf(WithEviction(b, node, outcome, blocker).blocked, other) == LabelsOf(b.blocked, other)
  {
    var after := WithEviction(b, node, outcome, blocker).blocked;
    BlockedKeepsSync(b, node, outcome, blocker);
    RecordIsShown(after, node);
    RecordIsShown(after, other);
    RecordIsShown(b.blocked, other);
    hide LabelsOf, Tracked.Synced;
  }

  /**
   A call shows its labels for its own node in place of the old ones, a blocked outcome with its reason,
   and leaves every other node alone.
   */
  lemma CallShowsItsLabels(calls: seq<Call>, c: Call, other: string)
    requires TrimSpace(c.node) != "" && other != TrimSpace(c.node)
    ensures var before := AfterAll(BLANK, calls);
            var b, node := After(before, c), TrimSpace(c.node);
            && ViewOf(b, other) == ViewOf(before, other)
            && (match c
                case ObserveActivity(_, state, activity, desired, isFresh) =>
                  ViewOf(b, node) == ViewOf(before, node).(
                    activity := {ActivityLabels(if state == "" then "unknown" else state, if activity == "" then "unknown" else activity)},
                    taint := if desired.None? then {} else {desired.value},
                    schedulable := {isFresh && state == "idle" && activity == "idle" && desired.None?})
                case ObserveAdmission(_, reason) =>
                  ViewOf(b, node) == ViewOf(before, node).(admission := if reason == "" then ViewOf(before, node).admission else {reason})
                case ObserveEviction(_, outcome, blocker) =>
                  if TrimSpace(outcome) == "" then ViewOf(b, node) == ViewOf(before, node)
                  else
                    ViewOf(b, node) == ViewOf(before, node).(
                      outcome := {TrimSpace(outcome)},
                      blocked := if TrimSpace(outcome) == "blocked" then {Reason(blocker)} else {})
                case ObserveWindow(_, _) => ViewOf(b, node) == ViewOf(before, node)
                case Clear(_) => ViewOf(b, node) == View({}, {}, {}, {}, {}, {}))
            && b.windows == (match c
                             case ObserveWindow(given, active) => before.windows[given := active]
                             case Clear(_) => before.windows - {node}
                             case _ => before.windows)
  {
    var b, node := AfterAll(BLANK, calls), TrimSpace(c.node);
    SeriesAgreeWithRecords(calls);
    hide TrimSpace, LabelsOf, Tracked.Observed, Tracked.Dropped, Tracked.Added, Tracked.Synced, AfterAll, Coherent, Reason, BoundedBlocker;
    match c {
      case ObserveActivity(_, state, activity, desired, _) =>
        ObservedShows(b.activity, node, ActivityLabels(OrUnknown(state), OrUnknown(activity)), other);
        ObservedShows(b.taint, node, if desired.Some? then desired.value else TaintLabels("", "", ""), other);
      case ObserveAdmission(_, reason) =>
        ObservedShows(b.admission, node, reason, other);
      case ObserveEviction(_, outcome, blocker) =>
        ObservedShows(b.outcome, node, TrimSpace(outcome), other);
        BlockedShows(b, node, TrimSpace(outcome), blocker, other);
      case ObserveWindow(_, _) =>
      case Clear(_) =>
        ObservedShows(b.activity, node, ActivityLabels("", ""), other);
        ObservedShows(b.taint, node, TaintLabels("", "", ""), other);
        ObservedShows(b.admission, node, "", other);
        ObservedShows(b.outcome, node, "", other);
        ObservedShows(b.blocked, node, "", other);
    }
  }

  /**
   After any calls, every node has the one series of each gauge that is recorded for it, a blocked
   series exactly while its outcome is blocked, with a bounded reason, and no node that shows a
   taint is shown schedulable.
   */
  lemma {:induction false} SeriesAgreeWithRecords(calls: seq<Call>)
    ensures Shown(AfterAll(BLANK, calls)) && Coherent(AfterAll(BLANK, calls))
  {
    if calls != [] {
      SeriesAgreeWithRecords(calls[..|calls| - 1]);
      CallKeepsShown(AfterAll(BLANK, calls[..|calls| - 1]), calls[|calls| - 1]);
      CallKeepsCoherent(AfterAll(BLANK, calls[..|calls| - 1]), calls[|calls| - 1]);
      hide Shown, Coherent, After;
    }
  }

  /** A node of which no series is left, under any spelling of its name. */
  ghost predicate Gone(b: Board, node: string) {
    && (forall labels :: (node, labels) !in b.activity.series)
    && (forall labels :: (node, labels) !in b.taint.series)
    && (forall reason :: (node, reason) !in b.admission.series && (node, reason) !in b.outcome.series && (node, reason) !in b.blocked.series)
    && node !in b.schedulable
    && (forall name | name in b.windows :: TrimSpace(name) != node)
  }

  /**
   Clearing a node removes all of its series, whatever came before, exactly if no window was
   observed under a name with spaces around it: window series keep the name as given, and only
   the trimmed one is deleted.
   */
  lemma ClearRemovesAllIffNamesAreTrimmed(calls: seq<Call>, name: string)
    requires TrimSpace(name) != ""
    ensures var b := AfterAll(BLANK, calls);
            Gone(After(b, Clear(name)), TrimSpace(name)) <==>
            forall given | given in b.windows && TrimSpace(given) == TrimSpace(name) :: given == TrimSpace(name)
  {
    var b := AfterAll(BLANK, calls);
    var after := After(b, Clear(name));
    SeriesAgreeWithRecords(calls);
    CallKeepsShown(b, Clear(name));
    hide AfterAll, TrimSpace;
    assert forall given :: given in after.windows <==> given in b.windows && given != TrimSpace(name);
  }

  /**
   One that clearing leaves behind. A reconcile observes windows only under the name of a Node that it
   has found, and such a name has no spaces, so the program's own calls never do this.
   */
  lemma PaddedWindowOutlivesClear()
    ensures var b := AfterAll(BLANK, [ObserveWindow(" n ", true)]);
            TrimSpace(" n ") == "n" && !Gone(After(b, Clear(" n ")), "n")
  {
    var calls := [ObserveWindow(" n ", true)];
    assert calls[..0] == [];
    assert AfterAll(BLANK, calls) == After(BLANK, calls[0]);
    assert TrimLeft("n ") == "n " && TrimLeft(" n ") == TrimLeft("n ") by {
      assert " n "[1..] == "n ";
    }
    assert TrimRight("n") == "n" && TrimRight("n ") == TrimRight("n") by {
      assert "n "[..1] == "n";
    }
    hide TrimLeft, TrimRight;
    assert " n " in After(AfterAll(BLANK, calls), Clear(" n ")).windows;
  }
}
