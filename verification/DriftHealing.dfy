/** Changes made by others to the owned fields of a node are seen exactly, and healed. */
module DriftHealing {
  import opened Clock
  import opened Outcomes
  import opened Enrollments
  import opened Protection
  import opened ProtectionLaws
  import opened NodeOwnership
  import opened OwnershipLaws

  lemma {:induction false} ProjectionAdds(p: TaintPolicy, a: seq<Taint>, b: seq<Taint>)
    ensures Projection(p, a + b) == Projection(p, a) + Projection(p, b)
  {
    if b == [] {
      assert a + b == a;
    } else {
      var last := |b| - 1;
      ProjectionAdds(p, a, b[..last]);
      assert (a + b)[..|a + b| - 1] == a + b[..last];
    }
  }

  lemma {:induction false} ProjectionOfUnowned(p: TaintPolicy, taints: seq<Taint>)
    requires forall t | t in taints :: !OwnedKey(p, t.key)
    ensures Projection(p, taints) == []
  {
    if taints != [] {
      assert taints[|taints| - 1] in taints;
      ProjectionOfUnowned(p, taints[..|taints| - 1]);
    }
  }

  lemma ProjectionOfOwned(p: TaintPolicy, t: Option<Taint>, key: string)
    requires Belongs(t, key) && OwnedKey(p, key)
    ensures Projection(p, AsList(t)) == AsList(t)
  {
    if t.Some? {
      assert AsList(t)[..0] == [];
    }
  }

  /** Key, value and effect of the taints under the two keys, in order. */
  function Shown(p: TaintPolicy, taints: seq<Taint>): seq<(string, string, Effect)> {
    if taints == [] then []
    else
      var last := taints[|taints| - 1];
      Shown(p, taints[..|taints| - 1]) +
      if last.key != "" && last.key in {p.key, p.burstTaintKey} then [(last.key, last.value, last.effect)] else []
  }

  function Timeless(shown: seq<(string, string, Effect)>): seq<Taint> {
    seq(|shown|, i requires 0 <= i < |shown| => Taint(shown[i].0, shown[i].1, shown[i].2, None))
  }

  lemma {:induction false} ProjectionIsShown(p: TaintPolicy, taints: seq<Taint>)
    ensures Projection(p, taints) == Timeless(Shown(p, taints))
  {
    if taints != [] {
      ProjectionIsShown(p, taints[..|taints| - 1]);
    }
  }

  /** The watch compares the label and the owned taints, and not the times they were added. */
  lemma WatchComparesOwnedFields(p: TaintPolicy, before: Fields, after: Fields)
    ensures OwnedFieldsChanged(p, before, after) <==>
            || Shown(p, before.taints) != Shown(p, after.taints)
            || (if SCHEDULABLE_LABEL in before.labels then before.labels[SCHEDULABLE_LABEL] else "")
               != (if SCHEDULABLE_LABEL in after.labels then after.labels[SCHEDULABLE_LABEL] else "")
  {
    ProjectionIsShown(p, before.taints);
    ProjectionIsShown(p, after.taints);
    var a, b := Shown(p, before.taints), Shown(p, after.taints);
    hide Projection, Shown;
    if Timeless(a) == Timeless(b) {
      assert |a| == |Timeless(a)| == |b|;
      forall i | 0 <= i < |a|
        ensures a[i] == b[i]
      {
        assert Timeless(a)[i] == Timeless(b)[i];
      }
      assert a == b;
    }
  }

  /** The owned fields, up to the times taints were added, are the ones to be written. */
  ghost predicate Right(p: TaintPolicy, f: Fields, admitted: bool, desired: Option<Taint>, fenced: bool) {
    && Projection(p, f.taints) == AsList(desired) + AsList(DesiredBurst(p, fenced))
    && SchedulableValue(f) == (if admitted then "true" else "")
  }

  /** Any write, onto any node, makes the owned fields right. */
  lemma WriteMakesRight(p: TaintPolicy, f: Fields, admitted: bool, desired: Option<Taint>, fenced: bool)
    requires p.Valid() && Belongs(desired, p.key)
    ensures Right(p, Written(p, f, admitted, desired, fenced), admitted, desired, fenced)
  {
    var u, burst := Unowned(p, f.taints), DesiredBurst(p, fenced);
    WrittenTaints(p, f, admitted, desired, fenced);
    UnownedIsClean(p, f.taints);
    WriteLabelsAdmission(p, f, admitted, desired, fenced);
    hide Unowned, Own;
    ProjectionAdds(p, u + AsList(desired), AsList(burst));
    ProjectionAdds(p, u, AsList(desired));
    ProjectionOfUnowned(p, u);
    ProjectionOfOwned(p, desired, p.key);
    if burst.Some? {
      ProjectionOfOwned(p, burst, p.burstTaintKey);
    } else {
      assert Projection(p, []) == [];
    }
    hide Projection, AsList, DesiredBurst;
  }

  /** From a right node, the watch accepts an update exactly when it leaves the node wrong. */
  lemma DriftIsSeenExactly(
    p: TaintPolicy, before: Fields, after: Fields, admitted: bool, desired: Option<Taint>, fenced: bool)
    requires Right(p, before, admitted, desired, fenced)
    ensures OwnedFieldsChanged(p, before, after) <==> !Right(p, after, admitted, desired, fenced)
  {
    hide Projection, SchedulableValue, AsList;
  }

  /** Whatever others write, the node is right again after at most the reconcile the watch asks for. */
  lemma DriftIsHealed(p: TaintPolicy, before: Fields, edited: Fields, items: seq<Enrollment>, node: string, now: Time)
    requires p.Valid() && ZERO_TIME < now && DistinctKeys(items)
    requires var r := Protect(p, items, node, now);
             Right(p, before, PolicyAdmitted(p, r, now), r.Taint(), !PolicyAdmitted(p, r, now))
    ensures var r := Protect(p, items, node, now);
            var admitted := PolicyAdmitted(p, r, now);
            var next := if OwnedFieldsChanged(p, before, edited) then Reconciled(p, edited, r, now) else edited;
            Right(p, next, admitted, r.Taint(), !admitted) && Unowned(p, next.taints) == Unowned(p, edited.taints)
  {
    var r := Protect(p, items, node, now);
    var admitted := PolicyAdmitted(p, r, now);
    DecidedTaintBelongs(p, r, items, node, now);
    DriftIsSeenExactly(p, before, edited, admitted, r.Taint(), !admitted);
    WriteMakesRight(p, edited, admitted, r.Taint(), !admitted);
    WriteOwnsOnlyItsKeys(p, edited, admitted, r.Taint(), !admitted);
    hide Right, OwnedFieldsChanged, Written, Protect, PolicyAdmitted, Unowned, DistinctKeys, Carries;
  }

  // --- What a finalizer leaves to the others -----------------------------------------------

  /** A finalizer leaves the survivors' node right exactly if they are not admitted: it never labels. */
  lemma FinalizedIsRightIff(
    p: TaintPolicy, f: Fields, items: seq<Enrollment>, node: string, decidedAt: Time, writtenAt: Time)
    requires p.Valid() && ZERO_TIME < decidedAt && DistinctKeys(items)
    requires Protect(p, items, node, decidedAt).source.Some?
    ensures var r := Protect(p, items, node, decidedAt);
            var admitted := PolicyAdmitted(p, r, writtenAt);
            Right(p, Finalized(p, f, r, writtenAt), admitted, r.Taint(), !admitted) <==> !admitted
  {
    var r := Protect(p, items, node, decidedAt);
    DecidedTaintBelongs(p, r, items, node, decidedAt);
    WriteMakesRight(p, f, false, r.Taint(), !PolicyAdmitted(p, r, writtenAt));
    hide Protect, PolicyAdmitted, Written, Projection, SchedulableValue, DistinctKeys;
  }

  /** The owned taints of two right nodes agree exactly if the same is desired of both. */
  lemma ProjectionsAgree(p: TaintPolicy, a: Option<Taint>, aFenced: bool, b: Option<Taint>, bFenced: bool)
    requires p.Valid() && Belongs(a, p.key) && Belongs(b, p.key)
    ensures AsList(a) + AsList(DesiredBurst(p, aFenced)) == AsList(b) + AsList(DesiredBurst(p, bFenced)) <==>
            a == b && DesiredBurst(p, aFenced) == DesiredBurst(p, bFenced)
  {
    var x, y := AsList(a) + AsList(DesiredBurst(p, aFenced)), AsList(b) + AsList(DesiredBurst(p, bFenced));
    if x == y {
      assert a.Some? ==> x[0] == a.value;
      assert b.Some? ==> y[0] == b.value;
      assert DesiredBurst(p, aFenced).Some? ==> x[|x| - 1] == BurstTaint(p);
      assert DesiredBurst(p, bFenced).Some? ==> y[|y| - 1] == BurstTaint(p);
    }
  }

  /**
   The watch sees a finalizer's write exactly if the node was labelled, another taint is desired than
   before, or the fence falls. So a survivor's missing label can go unseen, only without a burst key.
   */
  lemma FinalizerIsSeenIff(
    p: TaintPolicy, before: Fields, wasAdmitted: bool, was: Option<Taint>,
    items: seq<Enrollment>, node: string, decidedAt: Time, writtenAt: Time)
    requires p.Valid() && ZERO_TIME < decidedAt && DistinctKeys(items) && Belongs(was, p.key)
    requires Right(p, before, wasAdmitted, was, !wasAdmitted)
    requires Protect(p, items, node, decidedAt).source.Some?
    ensures var r := Protect(p, items, node, decidedAt);
            OwnedFieldsChanged(p, before, Finalized(p, before, r, writtenAt)) <==>
            wasAdmitted || was != r.Taint() || (p.burstTaintKey != "" && PolicyAdmitted(p, r, writtenAt))
  {
    var r := Protect(p, items, node, decidedAt);
    var fenced := !PolicyAdmitted(p, r, writtenAt);
    DecidedTaintBelongs(p, r, items, node, decidedAt);
    WriteMakesRight(p, before, false, r.Taint(), fenced);
    ProjectionsAgree(p, was, !wasAdmitted, r.Taint(), fenced);
    hide Protect, PolicyAdmitted, Written, Projection, DistinctKeys, AsList;
  }
}
