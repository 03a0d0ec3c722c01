/** What a pass does with each of its Pods, what it leaves of their deadlines, and which blocker it names. */
module PassFates {
  import opened Clock
  import opened Names
  import opened EvictionPolicies
  import opened EvictionBudgets
  import opened Pods
  import opened PodGate
  import opened EvictionRetries
  import opened EvictionPasses
  import opened PassLaws
  import opened PassRuns
  import opened PassWaits

  /** The key of a Pod: its node, and the Pod with its identity. */
  function PodKey(v: Visit, pod: Pod): RetryKey {
    RetryKey(v.node, pod.namespace, pod.name, pod.uid)
  }

  /** When the pass starts, the deadline of this very Pod lies ahead. */
  predicate HeldBy(w: Shared, v: Visit, pod: Pod) {
    PodKey(v, pod) in w.deadlines && v.now < w.deadlines[PodKey(v, pod)]
  }

  // --- Fates -----------------------------------------------------------------------------

  lemma EarlierHaveOtherKeys(node: NodeName, listed: seq<Listed>, n: nat)
    requires n < |listed| && ListsOnce(listed)
    ensures forall l | l in listed[..n] :: KeyOf(node, l.pod) != KeyOf(node, listed[n].pod)
  {
    forall l | l in listed[..n]
      ensures KeyOf(node, l.pod) != KeyOf(node, listed[n].pod)
    {
      var k :| 0 <= k < |listed[..n]| && listed[..n][k] == l;
      assert listed[k] == l;
    }
  }

  lemma PrunedAtKey(w: Shared, v: Visit, listed: seq<Listed>, pod: Pod)
    requires pod.nodeName == v.node.text ==> exists l :: l in listed && l.pod == pod
    ensures var at := Opened(w, v, listed).deadlines;
            && (pod.nodeName == v.node.text ==> (PodKey(v, pod) in at <==> HeldBy(w, v, pod)))
            && (PodKey(v, pod) in at ==> HeldBy(w, v, pod) && at[PodKey(v, pod)] == w.deadlines[PodKey(v, pod)])
  {
    PrunedIsExact(w.deadlines, v.now, v.node, PodsOf(listed), PodKey(v, pod));
    if pod.nodeName == v.node.text {
      var l :| l in listed && l.pod == pod;
      var k :| 0 <= k < |listed| && listed[k] == l;
      assert PodsOf(listed)[k] == pod;
      assert pod in PodsOf(listed);
    }
    hide Pruned, ListedKeys, PodsOf;
  }

  /** The turn of a Pod finds its deadline as the pass started. */
  lemma KeyAtItsTurn(s: Setting, st: PassState, listed: seq<Listed>, n: nat)
    requires n < |listed| && ListsOnce(listed)
    ensures var key, at := KeyOf(s.node, listed[n].pod), StateAt(s, st, listed, n).deadlines;
            (key in at <==> key in st.deadlines) && (key in at ==> at[key] == st.deadlines[key])
  {
    EarlierHaveOtherKeys(s.node, listed, n);
    OthersLeaveKeyAlone(s, st, listed[..n], KeyOf(s.node, listed[n].pod));
    hide Processed, ListsOnce;
  }

  /**
   The fate of the n-th Pod of a pass. It is considered if the class of the node reaches it; skipped if a
   gate keeps it; audited if the pass sends nothing; backing off if its own deadline lay ahead; without
   identity, not asked for; and otherwise asked for exactly if the budgets of its class grant that.
   */
  lemma FateInPassIsMeant(w: Shared, v: Visit, given: EvictionPolicy, hash: RetryKey -> nat, n: nat)
    requires ZERO_TIME < v.now && Works(v, given) && ListsOnce(v.listed.value) && n < |v.listed.value|
    ensures n < |FatesIn(w, v, given, hash)|
    ensures var s, l, f := SettingOf(v, given, hash), v.listed.value[n], FatesIn(w, v, given, hash)[n];
            var eligible := Reached(s, l.pod) && Passing(s, l.pod);
            var sends := given.enabled && !given.audit && v.hasEvictor;
            var identified := l.pod.uid != "" && l.pod.resourceVersion != "";
            var budgets := Before(w, v, given, hash, n).budgets;
            && (f.NotConsidered? <==> !Reached(s, l.pod))
            && (f.Skipped? <==> Reached(s, l.pod) && !Passing(s, l.pod))
            && (f.Audited? <==> eligible && !sends)
            && (f.BackingOff? <==> eligible && sends && HeldBy(w, v, l.pod))
            && (f.BackingOff? ==> f.remaining == w.deadlines[PodKey(v, l.pod)] - v.now)
            && (f.NoIdentity? <==> eligible && sends && !HeldBy(w, v, l.pod) && !identified)
            && (f.Spends() <==> eligible && sends && !HeldBy(w, v, l.pod) && identified)
            && (f.Spends() ==>
                  (f.Asked() <==> Take(budgets, MarkedLossy(l.pod), v.node, v.now, given.Normalized()).granted))
            && (f.Asked() ==> (f.Evicted? <==> l.answer.Accepted?))
  {
    var s, listed := SettingOf(v, given, hash), v.listed.value;
    var st, l := Opened(w, v, listed), listed[n];
    var at := StateAt(s, st, listed, n);
    PassInParts(s, st, listed, n);
    KeyAtItsTurn(s, st, listed, n);
    PrunedAtKey(w, v, listed, l.pod);
    FateIsMeant(s, at.deadlines, at.budgets, l);
    assert Sends(s) <==> given.enabled && !given.audit && v.hasEvictor;
    hide Take, Fates, FateOf, StateAt, Opened, Passing, MarkedLossy, EvictionPolicy.Normalized, ListsOnce;
  }

  // --- Deadlines ---------------------------------------------------------------------------

  lemma {:induction false} DeadlineOfPod(s: Setting, st: PassState, listed: seq<Listed>, n: nat)
    requires n < |listed| && ListsOnce(listed)
    ensures n < |Fates(s, st, listed)|
    ensures var key, at := KeyOf(s.node, listed[n].pod), Processed(s, st, listed).deadlines;
            var said := Deadlined(st.deadlines, key, s.now, Fates(s, st, listed)[n]);
            (key in at <==> key in said) && (key in at ==> at[key] == said[key])
  {
    var key, at := KeyOf(s.node, listed[n].pod), StateAt(s, st, listed, n);
    PassInParts(s, st, listed, n);
    KeyAtItsTurn(s, st, listed, n);
    LaterHaveOtherKeys(s.node, listed, n);
    OthersLeaveKeyAlone(s, Applied(s, at, listed[n]), listed[n + 1..], key);
    assert Applied(s, at, listed[n]).deadlines == Deadlined(at.deadlines, key, s.now, Fates(s, st, listed)[n]);
    hide Fates, FateOf, StateAt, Processed, ListsOnce, Applied;
  }

  lemma LaterHaveOtherKeys(node: NodeName, listed: seq<Listed>, n: nat)
    requires n < |listed| && ListsOnce(listed)
    ensures forall l | l in listed[n + 1..] :: KeyOf(node, l.pod) != KeyOf(node, listed[n].pod)
  {
    forall l | l in listed[n + 1..]
      ensures KeyOf(node, l.pod) != KeyOf(node, listed[n].pod)
    {
      var k :| 0 <= k < |listed[n + 1..]| && listed[n + 1..][k] == l;
      assert listed[n + 1 + k] == l;
    }
  }

  /**
   The deadlines that a pass leaves. A considered Pod has one exactly if it backs off or was refused, the
   one it had or the instant of the pass and the delay. One that is not considered keeps what lies ahead.
   */
  lemma DeadlineAfterPassIsMeant(w: Shared, v: Visit, given: EvictionPolicy, hash: RetryKey -> nat, n: nat)
    requires ZERO_TIME < v.now && Works(v, given) && ListsOnce(v.listed.value) && n < |v.listed.value|
    requires v.listed.value[n].pod.nodeName == v.node.text
    ensures n < |FatesIn(w, v, given, hash)|
    ensures var pod, f, after := v.listed.value[n].pod, FatesIn(w, v, given, hash)[n], Pass(w, v, given, hash).shared.deadlines;
            var key := PodKey(v, pod);
            && (key in after <==> f.BackingOff? || f.Refused? || (f.NotConsidered? && HeldBy(w, v, pod)))
            && (f.Refused? ==> after[key] == v.now + f.delay)
            && (key in after && !f.Refused? ==> key in w.deadlines && after[key] == w.deadlines[key])
  {
    var s, listed := SettingOf(v, given, hash), v.listed.value;
    DeadlineOfPod(s, Opened(w, v, listed), listed, n);
    PrunedAtKey(w, v, listed, listed[n].pod);
    FateInPassIsMeant(w, v, given, hash, n);
    hide Fates, Processed, Opened, Reached, Passing, MarkedLossy, Take, EvictionPolicy.Normalized, ListsOnce;
  }

  /** The deadlines of other nodes, and those of Pods that are gone. */
  lemma OtherDeadlinesAfterPass(w: Shared, v: Visit, given: EvictionPolicy, hash: RetryKey -> nat, key: RetryKey)
    requires ZERO_TIME < v.now && Works(v, given)
    requires forall l | l in v.listed.value :: PodKey(v, l.pod) != key
    ensures var after := Pass(w, v, given, hash).shared.deadlines;
            && (key in after <==> key in w.deadlines && v.now < w.deadlines[key] && key.node != v.node)
            && (key in after ==> after[key] == w.deadlines[key])
  {
    var s, listed := SettingOf(v, given, hash), v.listed.value;
    PrunedIsExact(w.deadlines, v.now, v.node, PodsOf(listed), key);
    forall pod | pod in PodsOf(listed)
      ensures key != RetryKey(v.node, pod.namespace, pod.name, pod.uid)
    {
      var k :| 0 <= k < |PodsOf(listed)| && PodsOf(listed)[k] == pod;
      assert listed[k] in listed;
    }
    OthersLeaveKeyAlone(s, Opened(w, v, listed), listed, key);
    hide Pruned, ListedKeys, PodsOf, Processed, EvictionPolicy.Normalized;
  }

  // --- The blocker ---------------------------------------------------------------------------

  /** The API refused some Pod of the pass for a reason. */
  ghost predicate Met(fates: seq<Fate>, listed: seq<Listed>, reason: ApiReason) {
    exists n | 0 <= n < |fates| && n < |listed| ::
      fates[n].Refused? && listed[n].answer.Rejected? && listed[n].answer.reason == reason
  }

  ghost predicate SomeBacksOff(fates: seq<Fate>) {
    exists n | 0 <= n < |fates| :: fates[n].BackingOff?
  }

  lemma {:induction false} RefusalsAreAnswers(s: Setting, st: PassState, listed: seq<Listed>)
    ensures |Fates(s, st, listed)| == |listed|
    ensures forall n | 0 <= n < |listed| :: Fates(s, st, listed)[n].Refused? ==>
              listed[n].answer.Rejected? && Fates(s, st, listed)[n].blocker == BlockerOf(listed[n].answer.reason)
    decreases |listed|
  {
    hide BlockedRetryDelay, Take, Gate, BlockerOf;
    if listed != [] {
      RefusalsAreAnswers(s, Applied(s, st, listed[0]), listed[1..]);
      hide Applied;
    }
  }

  /** What the strongest blocker of some fates is, reason by reason. */
  lemma StrongestIsGravest(b: Blocker, fates: seq<Fate>, listed: seq<Listed>)
    requires Strongest(b, NoBlocker, fates) && |fates| == |listed|
    requires forall n | 0 <= n < |listed| :: fates[n].Refused? ==>
               listed[n].answer.Rejected? && fates[n].blocker == BlockerOf(listed[n].answer.reason)
    ensures b == (if Met(fates, listed, TooManyRequests) then PdbBlocked
                  else if Met(fates, listed, OtherReason) then ApiError
                  else if Met(fates, listed, Conflict) then EvictionConflict
                  else if Met(fates, listed, NotFound) then PodGone
                  else if SomeBacksOff(fates) then RetryBackoff
                  else NoBlocker)
  {
    assert forall n | 0 <= n < |fates| :: fates[n] in fates;
    if b != NoBlocker {
      var f :| f in fates && b == BlockerIn(f);
      var n :| 0 <= n < |fates| && fates[n] == f;
    }
  }

  /**
   The blocker that a pass names is the gravest it met: a disruption budget before any other error, that
   before a conflict, that before a Pod that is gone, and a retry that is not due last.
   */
  lemma BlockerIsGravest(w: Shared, v: Visit, given: EvictionPolicy, hash: RetryKey -> nat)
    requires Works(v, given)
    ensures var fates, listed := FatesIn(w, v, given, hash), v.listed.value;
            Pass(w, v, given, hash).summary.value.blocker
            == (if Met(fates, listed, TooManyRequests) then PdbBlocked
                else if Met(fates, listed, OtherReason) then ApiError
                else if Met(fates, listed, Conflict) then EvictionConflict
                else if Met(fates, listed, NotFound) then PodGone
                else if SomeBacksOff(fates) then RetryBackoff
                else NoBlocker)
  {
    var s, listed := SettingOf(v, given, hash), v.listed.value;
    PassOutcomeIsMeant(w, v, given, hash);
    RefusalsAreAnswers(s, Opened(w, v, listed), listed);
    hide Pass, Fates, Opened, SettingOf, Strongest, IsBlock;
    StrongestIsGravest(Pass(w, v, given, hash).summary.value.blocker, FatesIn(w, v, given, hash), listed);
  }
}
