/** Aggregates every live enrollment of a node into one protection. */
module Protection {
  import opened Clock
  import opened Outcomes
  import opened Heartbeats
  import opened Enrollments
  import opened PolicyDecisions

  /** The answer for a node. Without a live enrollment there is no source and nothing to do. */
  datatype NodeProtection = NodeProtection(
    source: Option<Enrollment>,
    decision: Option<Decision>,
    requeueAfter: Duration,
    count: nat)
  {
    function Taint(): Option<Taint> {
      if decision.None? then None else decision.value.taint
    }

    /** The transition that status reports. */
    function NextTransition(): Time {
      if decision.None? then ZERO_TIME else decision.value.nextTransition
    }
  }

  const NO_PROTECTION := NodeProtection(None, None, 0, 0)

  predicate StringLess(a: string, b: string) {
    if b == [] then false
    else if a == [] then true
    else a[0] < b[0] || (a[0] == b[0] && StringLess(a[1..], b[1..]))
  }

  /** The order of the list: by namespace, then by name. */
  predicate Before(a: Enrollment, b: Enrollment) {
    if a.namespace != b.namespace then StringLess(a.namespace, b.namespace) else StringLess(a.name, b.name)
  }

  predicate SameKey(a: Enrollment, b: Enrollment) {
    a.namespace == b.namespace && a.name == b.name
  }

  predicate Live(e: Enrollment, node: string) {
    e.nodeName == node && !e.deleting
  }

  function Rank(p: TaintPolicy, e: Enrollment, now: Time): nat {
    var taint := DecidePolicy(p, e, now).taint;
    if taint.None? then 0
    else if taint.value.effect != NoSchedule then 1
    else if e.state == Active && e.activity == GameActivity && p.Freshness(e.heartbeatAt, now).Fresh? then 3
    else 2
  }

  /** Insertion into an ordered list. */
  function Insert(e: Enrollment, sorted: seq<Enrollment>): seq<Enrollment> {
    if sorted == [] || Before(e, sorted[0]) then [e] + sorted
    else [sorted[0]] + Insert(e, sorted[1..])
  }

  function Sorted(items: seq<Enrollment>): seq<Enrollment> {
    if items == [] then [] else Insert(items[0], Sorted(items[1..]))
  }

  function AddEnrollment(p: TaintPolicy, r: NodeProtection, best: int, e: Enrollment, now: Time): NodeProtection {
    var d := DecidePolicy(p, e, now);
    var requeue := if d.requeueAfter > 0 && (r.requeueAfter == 0 || d.requeueAfter < r.requeueAfter)
                   then d.requeueAfter else r.requeueAfter;
    if Rank(p, e, now) > best then NodeProtection(Some(e), Some(d), requeue, r.count + 1)
    else r.(requeueAfter := requeue, count := r.count + 1)
  }

  /** The first k enrollments, folded in order. */
  function Folded(p: TaintPolicy, sorted: seq<Enrollment>, k: nat, node: string, now: Time): NodeProtection
    requires k <= |sorted|
  {
    if k == 0 then NO_PROTECTION
    else
      var r := Folded(p, sorted, k - 1, node, now);
      if Live(sorted[k - 1], node) then AddEnrollment(p, r, BestRank(p, r, now), sorted[k - 1], now) else r
  }

  function BestRank(p: TaintPolicy, r: NodeProtection, now: Time): int {
    if r.source.None? then -1 else Rank(p, r.source.value, now)
  }

  function Protect(p: TaintPolicy, items: seq<Enrollment>, node: string, now: Time): NodeProtection {
    Folded(p, Sorted(items), |Sorted(items)|, node, now)
  }

  method ProtectionForNode(p: TaintPolicy, items: seq<Enrollment>, node: string, now: Time)
    returns (result: NodeProtection)
    ensures result == Protect(p, items, node, now)
  {
    hide DecidePolicy, Sorted, Live, HeartbeatFreshness;
    var sorted := Sorted(items);
    result := NO_PROTECTION;
    var best := -1;
    for i := 0 to |sorted|
      invariant result == Folded(p, sorted, i, node, now)
      invariant best == BestRank(p, result, now)
    {
      var item := sorted[i];
      if !Live(item, node) {
        continue;
      }
      result := result.(count := result.count + 1);
      var decision := DecidePolicy(p, item, now);
      if decision.requeueAfter > 0 && (result.requeueAfter == 0 || decision.requeueAfter < result.requeueAfter) {
        result := result.(requeueAfter := decision.requeueAfter);
      }
      var rank := 0;
      if decision.taint.Some? {
        rank := 1;
        if decision.taint.value.effect == NoSchedule {
          rank := 2;
          if item.state == Active && item.activity == GameActivity && p.Freshness(item.heartbeatAt, now).Fresh? {
            rank := 3;
          }
        }
      }
      if rank > best {
        best := rank;
        result := result.(source := Some(item), decision := Some(decision));
      }
    }
  }

  /** The stand-down rule: a fresh idle report and no desired taint. */
  predicate ControllerAdmitted(isFresh: bool, state: State, activity: Activity, desired: Option<Taint>) {
    isFresh && state == Idle && activity == IdleActivity && desired.None?
  }

  predicate PolicyAdmitted(p: TaintPolicy, r: NodeProtection, now: Time) {
    if r.source.None? then false
    else
      ControllerAdmitted(p.Freshness(r.source.value.heartbeatAt, now).Fresh?,
                         r.source.value.state, r.source.value.activity, r.Taint())
  }
}
