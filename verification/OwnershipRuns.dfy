/** Ownership over whole runs: what is kept, what is cleaned up, and what a departure can leave behind. */
module OwnershipRuns {
  import opened Clock
  import opened Outcomes
  import opened Texts
  import opened Enrollments
  import opened Protection
  import opened ProtectionLaws
  import opened RequeueLaws
  import opened NodeOwnership
  import opened OwnershipLaws

  /** One node, and the enrollments of the cluster. Those guarded carry the finalizer. */
  datatype World = World(fields: Fields, items: seq<Enrollment>, guarded: set<(string, string)>)

  datatype Event =
    | Enroll(e: Enrollment)
    | Update(e: Enrollment)
    | Move(e: Enrollment)
    | Delete(e: Enrollment)
    | Patch(e: Enrollment, carries: bool)
    | Vanish(e: Enrollment)
    | Reconcile(e: Enrollment, now: Time)
    | Finalize(e: Enrollment, decidedAt: Time, writtenAt: Time)

  function NameOf(e: Enrollment): (string, string) {
    (e.namespace, e.name)
  }

  function Replaced(items: seq<Enrollment>, e: Enrollment): seq<Enrollment> {
    if items == [] then []
    else [if SameKey(items[0], e) then e else items[0]] + Replaced(items[1..], e)
  }

  function Removed(items: seq<Enrollment>, e: Enrollment): seq<Enrollment> {
    if items == [] then []
    else (if SameKey(items[0], e) then [] else [items[0]]) + Removed(items[1..], e)
  }

  /**
   What the API server and the controller allow. Deleting an enrollment that carries the finalizer
   marks it; one that does not, or no longer does, vanishes. Anyone can patch the finalizer in or out.
   */
  ghost predicate Enabled(w: World, event: Event) {
    match event
    case Enroll(e) => !e.deleting && forall x | x in w.items :: !SameKey(x, e)
    case Update(e) => exists x | x in w.items :: SameKey(x, e) && x.deleting == e.deleting && x.nodeName == e.nodeName
    case Move(e) => exists x | x in w.items :: SameKey(x, e) && x.deleting == e.deleting
    case Delete(e) =>
      NameOf(e) in w.guarded && e.deleting && exists x | x in w.items :: SameKey(x, e) && x.nodeName == e.nodeName
    case Patch(e, carries) => e in w.items
    case Vanish(e) => e in w.items && NameOf(e) !in w.guarded
    case Reconcile(e, now) => ZERO_TIME < now && e in w.items && !e.deleting
    case Finalize(e, decidedAt, writtenAt) =>
      ZERO_TIME < decidedAt <= writtenAt && e in w.items && e.deleting && NameOf(e) in w.guarded
  }

  /** A reconcile sets the finalizer and writes the node it names; a finalizer trims that name. */
  function Next(p: TaintPolicy, node: string, w: World, event: Event): World {
    match event
    case Enroll(e) => w.(items := w.items + [e])
    case Update(e) => w.(items := Replaced(w.items, e))
    case Move(e) => w.(items := Replaced(w.items, e))
    case Delete(e) => w.(items := Replaced(w.items, e))
    case Patch(e, carries) => w.(guarded := if carries then w.guarded + {NameOf(e)} else w.guarded - {NameOf(e)})
    case Vanish(e) => w.(items := Removed(w.items, e))
    case Reconcile(e, now) =>
      if IsBlank(e.nodeName) then w
      else
        World(if e.nodeName == node then Reconciled(p, w.fields, Protect(p, w.items, node, now), now) else w.fields,
              w.items, w.guarded + {NameOf(e)})
    case Finalize(e, decidedAt, writtenAt) =>
      World(if TrimSpace(e.nodeName) == node
            then Finalized(p, w.fields, Protect(p, w.items, node, decidedAt), writtenAt) else w.fields,
            Removed(w.items, e), w.guarded - {NameOf(e)})
  }

  ghost predicate Runs(p: TaintPolicy, node: string, w: World, events: seq<Event>)
    decreases |events|
  {
    events == [] || (Enabled(w, events[0]) && Runs(p, node, Next(p, node, w, events[0]), events[1..]))
  }

  function Final(p: TaintPolicy, node: string, w: World, events: seq<Event>): World
    decreases |events|
  {
    if events == [] then w else Final(p, node, Next(p, node, w, events[0]), events[1..])
  }

  /** Nothing of the controller is left on the node. */
  ghost predicate Clean(p: TaintPolicy, f: Fields) {
    && Carries(f.taints, p.key, None)
    && (p.burstTaintKey != "" ==> Carries(f.taints, p.burstTaintKey, None))
    && SCHEDULABLE_LABEL !in f.labels
  }

  /** No enrollment names the node. */
  ghost predicate Gone(node: string, w: World) {
    forall x | x in w.items :: x.nodeName != node
  }

  /** The name of a Node is not empty and has no spaces around it. */
  predicate IsNodeName(node: string) {
    node != "" && TrimSpace(node) == node
  }

  // --- What every event keeps --------------------------------------------------------------

  /** What is kept, against the fields the run started from. */
  ghost predicate Kept(p: TaintPolicy, start: Fields, w: World) {
    && DistinctKeys(w.items)
    && Unowned(p, w.fields.taints) == Unowned(p, start.taints)
    && w.fields.labels - {SCHEDULABLE_LABEL} == start.labels - {SCHEDULABLE_LABEL}
  }

  lemma {:induction false} ReplacedItems(items: seq<Enrollment>, e: Enrollment)
    ensures |Replaced(items, e)| == |items|
    ensures forall i | 0 <= i < |items| :: Replaced(items, e)[i] == if SameKey(items[i], e) then e else items[i]
  {
    if items != [] {
      ReplacedItems(items[1..], e);
    }
  }

  lemma {:induction false} RemovedItems(items: seq<Enrollment>, e: Enrollment)
    requires DistinctKeys(items)
    ensures DistinctKeys(Removed(items, e))
    ensures forall x :: x in Removed(items, e) <==> x in items && !SameKey(x, e)
  {
    if items != [] {
      var rest := Removed(items[1..], e);
      RemovedItems(items[1..], e);
      forall j | 0 <= j < |rest|
        ensures !SameKey(items[0], rest[j])
      {
        assert rest[j] in items[1..];
      }
      hide SameKey;
    }
  }

  lemma EnrolledKeysStayDistinct(items: seq<Enrollment>, e: Enrollment)
    requires DistinctKeys(items) && forall x | x in items :: !SameKey(x, e)
    ensures DistinctKeys(items + [e])
  {
    hide SameKey;
  }

  lemma ReplacedKeysStayDistinct(items: seq<Enrollment>, e: Enrollment)
    requires DistinctKeys(items)
    ensures DistinctKeys(Replaced(items, e))
  {
    ReplacedItems(items, e);
    hide Replaced;
  }

  /** Any write keeps what is not owned. */
  lemma WriteKeepsOthers(p: TaintPolicy, f: Fields, admitted: bool, desired: Option<Taint>, fenced: bool)
    requires p.Valid() && Belongs(desired, p.key)
    ensures var after := Written(p, f, admitted, desired, fenced);
            && Unowned(p, after.taints) == Unowned(p, f.taints)
            && after.labels - {SCHEDULABLE_LABEL} == f.labels - {SCHEDULABLE_LABEL}
            && (!admitted && desired.None? && !fenced ==> Clean(p, after))
  {
    WriteOwnsOnlyItsKeys(p, f, admitted, desired, fenced);
    WriteLabelsAdmission(p, f, admitted, desired, fenced);
    hide Unowned, Written, Carries;
  }

  lemma ReconcileKeepsOthers(p: TaintPolicy, node: string, w: World, now: Time)
    requires p.Valid() && ZERO_TIME < now && DistinctKeys(w.items)
    ensures var after := Reconciled(p, w.fields, Protect(p, w.items, node, now), now);
            && Unowned(p, after.taints) == Unowned(p, w.fields.taints)
            && after.labels - {SCHEDULABLE_LABEL} == w.fields.labels - {SCHEDULABLE_LABEL}
  {
    var r := Protect(p, w.items, node, now);
    DecidedTaintBelongs(p, r, w.items, node, now);
    hide DistinctKeys, Protect, PolicyAdmitted, Unowned, Written;
    WriteKeepsOthers(p, w.fields, PolicyAdmitted(p, r, now), r.Taint(), !PolicyAdmitted(p, r, now));
  }

  /** A finalizer keeps what is not owned, and cleans the node when nothing live is left. */
  lemma FinalizeKeepsOthers(p: TaintPolicy, node: string, w: World, decidedAt: Time, writtenAt: Time)
    requires p.Valid() && ZERO_TIME < decidedAt <= writtenAt && DistinctKeys(w.items)
    ensures var after := Finalized(p, w.fields, Protect(p, w.items, node, decidedAt), writtenAt);
            && Unowned(p, after.taints) == Unowned(p, w.fields.taints)
            && after.labels - {SCHEDULABLE_LABEL} == w.fields.labels - {SCHEDULABLE_LABEL}
            && SCHEDULABLE_LABEL !in after.labels
            && ((forall x | x in w.items :: !Live(x, node)) ==> Clean(p, after))
  {
    var r := Protect(p, w.items, node, decidedAt);
    ProtectionIsMeant(p, w.items, node, decidedAt);
    DecidedTaintBelongs(p, r, w.items, node, decidedAt);
    hide DistinctKeys, Protect, PolicyAdmitted, Unowned, Written, Live, WinsOver, Clean;
    var fenced := r.source.Some? && !PolicyAdmitted(p, r, writtenAt);
    WriteKeepsOthers(p, w.fields, false, r.Taint(), fenced);
    WriteLabelsAdmission(p, w.fields, false, r.Taint(), fenced);
  }

  lemma EventKeepsOthers(p: TaintPolicy, node: string, start: Fields, w: World, event: Event)
    requires p.Valid() && Kept(p, start, w) && Enabled(w, event)
    ensures Kept(p, start, Next(p, node, w, event))
  {
    match event {
      case Enroll(e) =>
        EnrolledKeysStayDistinct(w.items, e);
      case Update(e) =>
        ReplacedKeysStayDistinct(w.items, e);
      case Move(e) =>
        ReplacedKeysStayDistinct(w.items, e);
      case Delete(e) =>
        ReplacedKeysStayDistinct(w.items, e);
      case Patch(_, _) =>
      case Vanish(e) =>
        RemovedItems(w.items, e);
      case Reconcile(e, now) =>
        ReconcileKeepsOthers(p, node, w, now);
      case Finalize(e, decidedAt, writtenAt) =>
        FinalizeKeepsOthers(p, node, w, decidedAt, writtenAt);
        RemovedItems(w.items, e);
    }
    hide DistinctKeys, Unowned, Clean, Reconciled, Finalized, Replaced, Removed, Protect, SameKey, Live, TaintPolicy.Valid;
    hide TrimSpace, IsBlank;
  }

  /**
   Over any run of enrolling, editing, moving, patching, deleting, reconciling and finalizing, the taints and
   labels of others keep their values and their order.
   */
  lemma {:induction false} RunKeepsOthers(p: TaintPolicy, node: string, start: Fields, w: World, events: seq<Event>)
    requires p.Valid() && Kept(p, start, w) && Runs(p, node, w, events)
    ensures Kept(p, start, Final(p, node, w, events))
    decreases |events|
  {
    hide Kept, Next, Enabled, TaintPolicy.Valid;
    if events != [] {
      EventKeepsOthers(p, node, start, w, events[0]);
      RunKeepsOthers(p, node, start, Next(p, node, w, events[0]), events[1..]);
    }
  }

  // --- What a departure leaves behind --------------------------------------------------

  /** A finalizer that writes the node although its enrollment names it with spaces around. */
  predicate Sweeps(node: string, event: Event) {
    event.Finalize? && TrimSpace(event.e.nodeName) == node
  }

  lemma OnlyRemovedNamed(w: World, e: Enrollment, node: string, x: Enrollment)
    requires DistinctKeys(w.items) && e in w.items && x in w.items && x.nodeName == node
    requires forall y | y in Removed(w.items, e) :: y.nodeName != node
    ensures x == e
  {
    RemovedItems(w.items, e);
    assert x !in Removed(w.items, e);
    hide Removed;
    var i, j :| 0 <= i < |w.items| && 0 <= j < |w.items| && w.items[i] == x && w.items[j] == e;
    assert SameKey(w.items[i], w.items[j]) && SameKey(w.items[j], w.items[i]);
  }

  /** A finalizer that leaves no enrollment of the node behind leaves nothing else either. */
  lemma LastFinalizerCleans(p: TaintPolicy, node: string, w: World, event: Event)
    requires p.Valid() && DistinctKeys(w.items) && Enabled(w, event) && Sweeps(node, event)
    requires Gone(node, Next(p, node, w, event))
    ensures Clean(p, Next(p, node, w, event).fields)
  {
    var e := event.e;
    forall x | x in w.items
      ensures !Live(x, node)
    {
      if x.nodeName == node {
        OnlyRemovedNamed(w, e, node, x);
      }
    }
    hide Protect, DistinctKeys, Finalized, Removed, TrimSpace, Clean, Live;
    FinalizeKeepsOthers(p, node, w, event.decidedAt, event.writtenAt);
  }

  lemma NamedItemStays(w: World, e: Enrollment, node: string, x: Enrollment)
    requires DistinctKeys(w.items) && exists z | z in w.items :: SameKey(z, e) && z.nodeName == e.nodeName
    requires x in w.items && x.nodeName == node
    ensures exists y :: y in Replaced(w.items, e) && y.nodeName == node
  {
    var i :| 0 <= i < |w.items| && w.items[i] == x;
    ReplacedItems(w.items, e);
    var y := Replaced(w.items, e)[i];
    if SameKey(x, e) {
      var z :| z in w.items && SameKey(z, e) && z.nodeName == e.nodeName;
      var j :| 0 <= j < |w.items| && w.items[j] == z;
      assert SameKey(w.items[i], w.items[j]) && SameKey(w.items[j], w.items[i]);
    }
    assert y in Replaced(w.items, e) && y.nodeName == node;
  }

  /** Neither enrolling, editing, marking, patching nor reconciling takes an enrollment off its node. */
  lemma NodeStaysNamed(p: TaintPolicy, node: string, w: World, event: Event)
    requires DistinctKeys(w.items) && Enabled(w, event) && !Gone(node, w)
    requires event.Enroll? || event.Update? || event.Delete? || event.Patch? || event.Reconcile?
    ensures !Gone(node, Next(p, node, w, event))
  {
    var x :| x in w.items && x.nodeName == node;
    if event.Enroll? {
      assert x in w.items + [event.e];
    } else if event.Update? || event.Delete? {
      NamedItemStays(w, event.e, node, x);
    }
    hide Protect, DistinctKeys, Reconciled, Replaced, TrimSpace, IsBlank, SameKey;
  }

  /** Only a finalizer, a vanishing or a move can take the last enrollment off a node. */
  lemma DepartureIsKnown(p: TaintPolicy, node: string, w: World, event: Event)
    requires DistinctKeys(w.items) && Enabled(w, event) && IsNodeName(node)
    requires !Gone(node, w) && Gone(node, Next(p, node, w, event))
    ensures event.Vanish? || event.Move? || Sweeps(node, event)
  {
    if event.Finalize? {
      var x :| x in w.items && x.nodeName == node;
      OnlyRemovedNamed(w, event.e, node, x);
    } else if !event.Vanish? && !event.Move? {
      NodeStaysNamed(p, node, w, event);
    }
    hide Protect, DistinctKeys, Reconciled, Finalized, Removed, Replaced, TrimSpace, IsBlank, SameKey;
  }

  /** The event that takes the last enrollment off a node leaves it clean exactly if it is a finalizer, or it was. */
  lemma DepartureCleansIff(p: TaintPolicy, node: string, w: World, event: Event)
    requires p.Valid() && DistinctKeys(w.items) && Enabled(w, event) && IsNodeName(node)
    requires !Gone(node, w) && Gone(node, Next(p, node, w, event))
    ensures Clean(p, Next(p, node, w, event).fields) <==> event.Finalize? || Clean(p, w.fields)
  {
    DepartureIsKnown(p, node, w, event);
    if Sweeps(node, event) {
      LastFinalizerCleans(p, node, w, event);
    }
    hide Protect, DistinctKeys, Reconciled, Finalized, Removed, Replaced, TrimSpace, IsBlank, Clean, Gone;
  }

  /** Once no enrollment names a node, only a finalizer of one that names it with spaces writes it. */
  lemma EmptyNodeStays(p: TaintPolicy, node: string, w: World, event: Event)
    requires p.Valid() && DistinctKeys(w.items) && Enabled(w, event)
    requires Gone(node, w) && Gone(node, Next(p, node, w, event))
    ensures Clean(p, Next(p, node, w, event).fields) <==> Sweeps(node, event) || Clean(p, w.fields)
  {
    if Sweeps(node, event) {
      LastFinalizerCleans(p, node, w, event);
    }
    hide Protect, DistinctKeys, Reconciled, Finalized, Removed, Replaced, TrimSpace, IsBlank, Clean;
  }

  /** The world after the first k events. */
  function After(p: TaintPolicy, node: string, w: World, events: seq<Event>, k: nat): World
    requires k <= |events|
  {
    Final(p, node, w, events[..k])
  }

  lemma {:induction false} AfterExtends(p: TaintPolicy, node: string, w: World, events: seq<Event>, k: nat)
    requires k < |events| && Runs(p, node, w, events)
    ensures After(p, node, w, events, k + 1) == Next(p, node, After(p, node, w, events, k), events[k])
    ensures Enabled(After(p, node, w, events, k), events[k])
    decreases k
  {
    hide Next, Enabled;
    assert events[..k + 1][0] == events[0] && events[..k + 1][1..] == events[1..][..k];
    if k > 0 {
      AfterExtends(p, node, Next(p, node, w, events[0]), events[1..], k - 1);
      assert events[..k][1..] == events[1..][..k - 1];
      assert events[1..][..k - 1 + 1] == events[1..][..k];
    } else {
      assert events[1..][..0] == [];
      assert Final(p, node, Next(p, node, w, events[0]), []) == Next(p, node, w, events[0]);
    }
  }

  lemma {:induction false} AfterKeepsOthers(p: TaintPolicy, node: string, start: Fields, w: World, events: seq<Event>, k: nat)
    requires p.Valid() && Kept(p, start, w) && Runs(p, node, w, events) && k <= |events|
    ensures Kept(p, start, After(p, node, w, events, k))
    decreases k
  {
    assert After(p, node, w, events, 0) == w;
    hide Kept, Next, Enabled, TaintPolicy.Valid, Runs, After;
    if k > 0 {
      AfterKeepsOthers(p, node, start, w, events, k - 1);
      AfterExtends(p, node, w, events, k - 1);
      EventKeepsOthers(p, node, start, After(p, node, w, events, k - 1), events[k - 1]);
    }
  }

  /** The last moment, up to k, at which some enrollment named the node. */
  ghost function LastOccupied(p: TaintPolicy, node: string, w: World, events: seq<Event>, k: nat): (last: nat)
    requires k <= |events| && !Gone(node, After(p, node, w, events, 0))
    ensures last <= k && !Gone(node, After(p, node, w, events, last))
    ensures forall j | last < j <= k :: Gone(node, After(p, node, w, events, j))
  {
    if k == 0 || !Gone(node, After(p, node, w, events, k)) then k else LastOccupied(p, node, w, events, k - 1)
  }

  /** From a departure on, through a stretch in which no enrollment names the node. */
  lemma {:induction false} EmptyStretchIsCleanIff(
    p: TaintPolicy, node: string, start: Fields, w: World, events: seq<Event>, last: nat, k: nat)
    requires p.Valid() && IsNodeName(node) && Kept(p, start, w) && Runs(p, node, w, events)
    requires last < k <= |events| && !Gone(node, After(p, node, w, events, last))
    requires forall j | last < j <= k :: Gone(node, After(p, node, w, events, j))
    ensures Clean(p, After(p, node, w, events, k).fields) <==>
            || events[last].Finalize?
            || Clean(p, After(p, node, w, events, last).fields)
            || exists i | last < i < k :: Sweeps(node, events[i])
    decreases k
  {
    hide After, Next, Enabled, Gone, Clean, Sweeps, Runs, TaintPolicy.Valid, IsNodeName;
    AfterExtends(p, node, w, events, k - 1);
    AfterKeepsOthers(p, node, start, w, events, k - 1);
    var before := After(p, node, w, events, k - 1);
    assert DistinctKeys(before.items);
    hide Kept, DistinctKeys;
    if k == last + 1 {
      DepartureCleansIff(p, node, before, events[last]);
    } else {
      EmptyStretchIsCleanIff(p, node, start, w, events, last, k - 1);
      EmptyNodeStays(p, node, before, events[k - 1]);
    }
  }

  /**
   A run that ends with no enrollment of the node leaves it clean exactly if the last one left through
   its finalizer, or the node was clean before it left, or a later finalizer swept it. So finalizers
   alone always clean up; an enrollment that vanishes without one, or moves, need not.
   */
  lemma EmptiedNodeIsCleanIff(p: TaintPolicy, node: string, w: World, events: seq<Event>)
    requires p.Valid() && IsNodeName(node) && DistinctKeys(w.items) && Runs(p, node, w, events)
    requires !Gone(node, After(p, node, w, events, 0)) && Gone(node, After(p, node, w, events, |events|))
    ensures var last := LastOccupied(p, node, w, events, |events|);
            && last < |events|
            && (Clean(p, After(p, node, w, events, |events|).fields) <==>
                || events[last].Finalize?
                || Clean(p, After(p, node, w, events, last).fields)
                || exists i | last < i < |events| :: Sweeps(node, events[i]))
    ensures (forall event | event in events :: !event.Vanish? && !event.Move?) ==>
              Clean(p, After(p, node, w, events, |events|).fields)
  {
    var last := LastOccupied(p, node, w, events, |events|);
    EmptyStretchIsCleanIff(p, node, w.fields, w, events, last, |events|);
    AfterExtends(p, node, w, events, last);
    AfterKeepsOthers(p, node, w.fields, w, events, last);
    assert events[last] in events;
    hide After, Next, Enabled, Gone, Clean, Runs, DistinctKeys, TaintPolicy.Valid, TrimSpace, Unowned;
    DepartureIsKnown(p, node, After(p, node, w, events, last), events[last]);
  }

  // --- Runs that leave something behind ------------------------------------------------

  lemma RunsStep(p: TaintPolicy, node: string, w: World, event: Event, rest: seq<Event>)
    requires Enabled(w, event) && Runs(p, node, Next(p, node, w, event), rest)
    ensures Runs(p, node, w, [event] + rest)
    ensures Final(p, node, w, [event] + rest) == Final(p, node, Next(p, node, w, event), rest)
  {
    assert ([event] + rest)[1..] == rest;
    hide Next, Enabled;
  }

  /** A write for a fresh active game never leaves a node clean. */
  lemma GameLeavesTaint(p: TaintPolicy, f: Fields, items: seq<Enrollment>, b: Enrollment, node: string, now: Time)
    requires p.Valid() && ZERO_TIME < now && DistinctKeys(items) && b in items && Live(b, node) && Playing(p, b, now)
    ensures !Clean(p, Reconciled(p, f, Protect(p, items, node, now), now))
    ensures !Clean(p, Finalized(p, f, Protect(p, items, node, now), now))
  {
    var r := Protect(p, items, node, now);
    StrongestTaintWins(p, items, node, now, b);
    DecidedTaintBelongs(p, r, items, node, now);
    hide Protect, DistinctKeys, Live, Playing, Written, PolicyAdmitted, Unowned;
    WriteOwnsOnlyItsKeys(p, f, PolicyAdmitted(p, r, now), r.Taint(), !PolicyAdmitted(p, r, now));
    WriteOwnsOnlyItsKeys(p, f, false, r.Taint(), r.source.Some? && !PolicyAdmitted(p, r, now));
  }

  lemma TwoItems(a: Enrollment, marked: Enrollment, b: Enrollment)
    requires SameKey(a, marked) && !SameKey(b, marked)
    ensures Replaced([a, b], marked) == [marked, b]
    ensures Removed([marked, b], marked) == [b] && Removed([b], b) == []
  {
    assert [a, b][1..] == [b] && [marked, b][1..] == [b] && [b][1..] == [];
    assert Replaced([b], marked) == [b] && Removed([b], marked) == [b];
  }

  /** a is enrolled and reconciled, b is enrolled, a is deleted and finalized, and b vanishes. */
  function LeakingRun(a: Enrollment, b: Enrollment, now: Time): seq<Event> {
    var marked := a.(deleting := true);
    [Enroll(a)] + ([Reconcile(a, now)] + ([Enroll(b)] + ([Delete(marked)] + ([Finalize(marked, now, now)] + ([Vanish(b)] + [])))))
  }

  /** Three events of a run, one after the other. */
  lemma RunsThree(p: TaintPolicy, node: string, w: World, x: Event, y: Event, z: Event, rest: seq<Event>)
    requires Enabled(w, x)
    requires var w1 := Next(p, node, w, x);
             var w2 := Next(p, node, w1, y);
             Enabled(w1, y) && Enabled(w2, z) && Runs(p, node, Next(p, node, w2, z), rest)
    ensures var w3 := Next(p, node, Next(p, node, Next(p, node, w, x), y), z);
            && Runs(p, node, w, [x] + ([y] + ([z] + rest)))
            && Final(p, node, w, [x] + ([y] + ([z] + rest))) == Final(p, node, w3, rest)
  {
    hide Next, Enabled, Runs, Final;
    var w1 := Next(p, node, w, x);
    var w2 := Next(p, node, w1, y);
    RunsStep(p, node, w2, z, rest);
    RunsStep(p, node, w1, y, [z] + rest);
    RunsStep(p, node, w, x, [y] + ([z] + rest));
  }

  /** The worlds of the leaking run up to the enrollment of b, and what each event needs. */
  lemma LeakingStarts(p: TaintPolicy, node: string, w0: World, a: Enrollment, b: Enrollment, now: Time)
    requires w0.items == [] && w0.guarded == {} && !IsBlank(a.nodeName) && ZERO_TIME < now
    requires !a.deleting && !b.deleting && !SameKey(a, b)
    ensures var w1 := Next(p, node, w0, Enroll(a));
            var w2 := Next(p, node, w1, Reconcile(a, now));
            var w3 := Next(p, node, w2, Enroll(b));
            && Enabled(w0, Enroll(a)) && Enabled(w1, Reconcile(a, now)) && Enabled(w2, Enroll(b))
            && w3.items == [a, b] && w3.guarded == {NameOf(a)}
  {
    hide Reconciled, Protect, IsBlank;
  }

  /** The rest of them. */
  lemma LeakingEnds(p: TaintPolicy, node: string, w3: World, a: Enrollment, b: Enrollment, now: Time)
    requires w3.items == [a, b] && w3.guarded == {NameOf(a)} && ZERO_TIME < now
    requires !a.deleting && !b.deleting && !SameKey(a, b)
    ensures var marked := a.(deleting := true);
            var w4 := Next(p, node, w3, Delete(marked));
            var w5 := Next(p, node, w4, Finalize(marked, now, now));
            && Enabled(w3, Delete(marked)) && Enabled(w4, Finalize(marked, now, now)) && Enabled(w5, Vanish(b))
            && w4.items == [marked, b] && w5.items == [b] && Next(p, node, w5, Vanish(b)).items == []
            && Next(p, node, w5, Vanish(b)).fields == w5.fields
            && (TrimSpace(a.nodeName) == node ==>
                  w5.fields == Finalized(p, w4.fields, Protect(p, w4.items, node, now), now))
  {
    var marked := a.(deleting := true);
    TwoItems(a, marked, b);
    hide Finalized, Protect, TrimSpace, Replaced, Removed;
  }

  lemma VanishingRuns(p: TaintPolicy, node: string, w0: World, a: Enrollment, b: Enrollment, now: Time)
    requires w0.items == [] && w0.guarded == {} && !IsBlank(a.nodeName) && ZERO_TIME < now
    requires !a.deleting && !b.deleting && !SameKey(a, b)
    ensures var marked := a.(deleting := true);
            var w3 := Next(p, node, Next(p, node, Next(p, node, w0, Enroll(a)), Reconcile(a, now)), Enroll(b));
            var w4 := Next(p, node, w3, Delete(marked));
            var w5 := Next(p, node, w4, Finalize(marked, now, now));
            && Runs(p, node, w0, LeakingRun(a, b, now))
            && Final(p, node, w0, LeakingRun(a, b, now)) == Next(p, node, w5, Vanish(b))
            && w4.items == [marked, b] && w5.items == [b] && Next(p, node, w5, Vanish(b)).items == []
            && Next(p, node, w5, Vanish(b)).fields == w5.fields
            && (TrimSpace(a.nodeName) == node ==>
                  w5.fields == Finalized(p, w4.fields, Protect(p, w4.items, node, now), now))
  {
    var marked := a.(deleting := true);
    var w3 := Next(p, node, Next(p, node, Next(p, node, w0, Enroll(a)), Reconcile(a, now)), Enroll(b));
    LeakingStarts(p, node, w0, a, b, now);
    LeakingEnds(p, node, w3, a, b, now);
    hide Next, Enabled, NameOf, SameKey;
    RunsThree(p, node, w3, Delete(marked), Finalize(marked, now, now), Vanish(b), []);
    RunsThree(p, node, w0, Enroll(a), Reconcile(a, now), Enroll(b),
              [Delete(marked)] + ([Finalize(marked, now, now)] + ([Vanish(b)] + [])));
  }

  /**
   The finalizer of one enrollment writes the protection of another that has none yet. If that one is
   deleted before its first reconcile, it vanishes, and the node stays fenced without an enrollment.
   */
  lemma VanishingLeaks(p: TaintPolicy, node: string, f: Fields, a: Enrollment, b: Enrollment, now: Time)
    requires p.Valid() && IsNodeName(node) && !IsBlank(node) && ZERO_TIME < now
    requires a.nodeName == node == b.nodeName && !a.deleting && !b.deleting && !SameKey(a, b) && Playing(p, b, now)
    ensures var w := World(f, [], {});
            && Runs(p, node, w, LeakingRun(a, b, now))
            && Final(p, node, w, LeakingRun(a, b, now)).items == []
            && !Clean(p, Final(p, node, w, LeakingRun(a, b, now)).fields)
  {
    var marked := a.(deleting := true);
    var w0 := World(f, [], {});
    var w3 := Next(p, node, Next(p, node, Next(p, node, w0, Enroll(a)), Reconcile(a, now)), Enroll(b));
    var w4 := Next(p, node, w3, Delete(marked));
    var w5 := Next(p, node, w4, Finalize(marked, now, now));
    VanishingRuns(p, node, w0, a, b, now);
    hide Next, Runs, Final, Finalized, Protect, Playing, TrimSpace, IsBlank, Clean, LeakingRun;
    assert w4.items == [marked, b] && b in w4.items && Live(b, node);
    assert DistinctKeys(w4.items);
    hide DistinctKeys, Live, SameKey;
    GameLeavesTaint(p, w4.fields, w4.items, b, node, now);
  }

  /** Editing the name of the node leaves the old node as it was. */
  lemma MovingLeaks(p: TaintPolicy, node: string, other: string, f: Fields, b: Enrollment, now: Time)
    requires p.Valid() && !IsBlank(node) && other != node && ZERO_TIME < now
    requires b.nodeName == node && !b.deleting && Playing(p, b, now)
    ensures var w := World(f, [], {});
            var moved := b.(nodeName := other);
            var run := [Enroll(b)] + ([Reconcile(b, now)] + ([Move(moved)] + []));
            && Runs(p, node, w, run)
            && Gone(node, Final(p, node, w, run))
            && !Clean(p, Final(p, node, w, run).fields)
  {
    var moved := b.(nodeName := other);
    var w0 := World(f, [], {});
    var w1 := Next(p, node, w0, Enroll(b));
    var w2 := Next(p, node, w1, Reconcile(b, now));
    var w3 := Next(p, node, w2, Move(moved));
    hide Reconciled, Protect, Playing, IsBlank, Clean;
    assert w1.items == [b] && w2.items == [b];
    assert Replaced([], moved) == [] && [b][1..] == [];
    assert w3.items == [moved] && w3.fields == w2.fields;
    GameLeavesTaint(p, w1.fields, w1.items, b, node, now);
    hide Next;
    RunsStep(p, node, w2, Move(moved), []);
    RunsStep(p, node, w1, Reconcile(b, now), [Move(moved)] + []);
    RunsStep(p, node, w0, Enroll(b), [Reconcile(b, now)] + ([Move(moved)] + []));
  }

  /** A second reconcile at the same instant, from a sibling that lists in another order, writes nothing new. */
  lemma SiblingsWriteTheSame(p: TaintPolicy, f: Fields, a: seq<Enrollment>, b: seq<Enrollment>, node: string, now: Time)
    requires p.Valid() && ZERO_TIME < now
    requires DistinctKeys(a) && DistinctKeys(b) && multiset(a) == multiset(b)
    ensures var once := Reconciled(p, f, Protect(p, a, node, now), now);
            Reconciled(p, once, Protect(p, b, node, now), now) == once
  {
    ProtectionIgnoresListOrder(p, a, b, node, now);
    var r := Protect(p, a, node, now);
    DecidedTaintBelongs(p, r, a, node, now);
    hide Protect, PolicyAdmitted, Written, DistinctKeys;
    WriteIsIdempotent(p, f, PolicyAdmitted(p, r, now), r.Taint(), !PolicyAdmitted(p, r, now));
  }
}
