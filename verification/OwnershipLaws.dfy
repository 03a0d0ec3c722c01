/** What reconciling and finalizing keep, restore, and remove on a node. */
module OwnershipLaws {
  import opened Clock
  import opened Outcomes
  import opened Enrollments
  import opened PolicyDecisions
  import opened DecisionLaws
  import opened Protection
  import opened ProtectionLaws
  import opened RequeueLaws
  import opened NodeOwnership

  // --- Lists of taints -------------------------------------------------------------

  lemma {:induction false} WithoutAdds(a: seq<Taint>, b: seq<Taint>, key: string)
    ensures Without(a + b, key) == Without(a, key) + Without(b, key)
  {
    if b == [] {
      assert a + b == a;
    } else {
      var last := |b| - 1;
      WithoutAdds(a, b[..last], key);
      assert (a + b)[..|a + b| - 1] == a + b[..last];
    }
  }

  lemma {:induction false} WithoutIsClean(taints: seq<Taint>, key: string)
    ensures forall t | t in Without(taints, key) :: t.key != key && t in taints
  {
    if taints != [] {
      WithoutIsClean(taints[..|taints| - 1], key);
    }
  }

  lemma {:induction false} WithoutNothing(taints: seq<Taint>, key: string)
    requires forall t | t in taints :: t.key != key
    ensures Without(taints, key) == taints
  {
    if taints != [] {
      var last := |taints| - 1;
      assert taints[last] in taints;
      WithoutNothing(taints[..last], key);
      assert taints == taints[..last] + [taints[last]];
    }
  }

  lemma {:induction false} WithoutCommutes(taints: seq<Taint>, a: string, b: string)
    ensures Without(Without(taints, a), b) == Without(Without(taints, b), a)
  {
    if taints != [] {
      var front, last := taints[..|taints| - 1], [taints[|taints| - 1]];
      WithoutCommutes(front, a, b);
      assert front + last == taints;
      WithoutAdds(Without(front, a), if last[0].key != a then last else [], b);
      WithoutAdds(Without(front, b), if last[0].key != b then last else [], a);
      WithoutOne(last[0], a);
      WithoutOne(last[0], b);
    }
  }

  lemma WithoutOne(t: Taint, key: string)
    ensures Without([t], key) == if t.key != key then [t] else []
    ensures Without([], key) == []
  {
    assert [t][..0] == [];
  }

  /** The taints the controller does not own. */
  function Unowned(p: TaintPolicy, taints: seq<Taint>): seq<Taint> {
    var rest := Without(taints, p.key);
    if p.burstTaintKey != "" then Without(rest, p.burstTaintKey) else rest
  }

  /** A desired taint belongs to its key and carries no time. */
  predicate Belongs(t: Option<Taint>, key: string) {
    t.Some? ==> t.value.key == key && t.value.timeAdded.None?
  }

  lemma OwnOfOtherKey(taints: seq<Taint>, key: string, other: string, desired: Option<Taint>)
    requires Belongs(desired, key) && key != other
    ensures Without(Own(taints, key, desired), other) == Without(Without(taints, other), key) + AsList(desired)
  {
    WithoutCommutes(taints, key, other);
    WithoutAdds(Without(taints, key), AsList(desired), other);
    WithoutListed(desired, other);
  }

  /** Everything a write leaves on the list: the unowned taints, then what is desired. */
  lemma WrittenTaints(p: TaintPolicy, f: Fields, admitted: bool, desired: Option<Taint>, fenced: bool)
    requires p.Valid() && Belongs(desired, p.key)
    ensures Written(p, f, admitted, desired, fenced).taints
         == Unowned(p, f.taints) + AsList(desired) + AsList(DesiredBurst(p, fenced))
  {
    if p.burstTaintKey != "" {
      OwnOfOtherKey(f.taints, p.key, p.burstTaintKey, desired);
      WithoutCommutes(f.taints, p.key, p.burstTaintKey);
    }
  }

  lemma UnownedOfWritten(p: TaintPolicy, rest: seq<Taint>, desired: Option<Taint>, fenced: bool)
    requires p.Valid() && Belongs(desired, p.key)
    ensures Unowned(p, Unowned(p, rest) + AsList(desired) + AsList(DesiredBurst(p, fenced))) == Unowned(p, rest)
  {
    var u := Unowned(p, rest);
    UnownedIsClean(p, rest);
    var tail := AsList(desired) + AsList(DesiredBurst(p, fenced));
    assert u + AsList(desired) + AsList(DesiredBurst(p, fenced)) == u + tail;
    WithoutAdds(u, tail, p.key);
    WithoutNothing(u, p.key);
    if p.burstTaintKey != "" {
      WithoutAdds(u, Without(tail, p.key), p.burstTaintKey);
      WithoutNothing(u, p.burstTaintKey);
    }
    OnlyOwned(p, desired, fenced);
  }

  lemma WithoutListed(t: Option<Taint>, key: string)
    ensures Without(AsList(t), key) == if t.Some? && t.value.key != key then [t.value] else []
  {
    if t.Some? {
      WithoutOne(t.value, key);
    } else {
      WithoutOne(Taint("", "", NoSchedule, None), key);
    }
  }

  lemma OnlyOwned(p: TaintPolicy, desired: Option<Taint>, fenced: bool)
    requires p.Valid() && Belongs(desired, p.key)
    ensures Unowned(p, AsList(desired) + AsList(DesiredBurst(p, fenced))) == []
  {
    var burst := DesiredBurst(p, fenced);
    WithoutAdds(AsList(desired), AsList(burst), p.key);
    WithoutListed(desired, p.key);
    WithoutListed(burst, p.key);
    WithoutListed(burst, p.burstTaintKey);
    assert Without(AsList(desired) + AsList(burst), p.key) == AsList(burst);
  }

  lemma UnownedIsClean(p: TaintPolicy, taints: seq<Taint>)
    ensures forall t | t in Unowned(p, taints) :: !(t.key == p.key) && !(p.burstTaintKey != "" && t.key == p.burstTaintKey)
  {
    WithoutIsClean(taints, p.key);
    WithoutIsClean(Without(taints, p.key), p.burstTaintKey);
  }

  // --- Writes ------------------------------------------------------------------------

  /** Each owned key carries what is desired of it, and nothing else. */
  ghost predicate Carries(taints: seq<Taint>, key: string, desired: Option<Taint>) {
    && (forall t | t in taints && t.key == key :: desired == Some(t))
    && (desired.Some? ==> desired.value in taints)
  }

  lemma ListCarriesDesired(u: seq<Taint>, a: Option<Taint>, b: Option<Taint>, key: string, other: string)
    requires Belongs(a, key) && Belongs(b, other) && (b.Some? ==> key != other)
    requires forall t | t in u :: t.key != key && (b.Some? ==> t.key != other)
    ensures Carries(u + AsList(a) + AsList(b), key, a)
    ensures b.Some? ==> Carries(u + AsList(a) + AsList(b), other, b)
  {
  }

  lemma NoFenceNoBurst(u: seq<Taint>, a: Option<Taint>, key: string, other: string)
    requires Belongs(a, key) && key != other && forall t | t in u :: t.key != other
    ensures Carries(u + AsList(a) + [], other, None)
  {
  }

  /** The taint of a node that is closed to bursts: under the burst key, if there is one. */
  function Fence(p: TaintPolicy, fenced: bool): Option<Taint> {
    if fenced then Some(Taint(p.burstTaintKey, p.failClosedValue, NoSchedule, None)) else None
  }

  /** A write leaves unowned taints alone, in value and order, and gives each owned key what is desired. */
  lemma WriteOwnsOnlyItsKeys(p: TaintPolicy, f: Fields, admitted: bool, desired: Option<Taint>, fenced: bool)
    requires p.Valid() && Belongs(desired, p.key)
    ensures var after := Written(p, f, admitted, desired, fenced).taints;
            && Unowned(p, after) == Unowned(p, f.taints)
            && Carries(after, p.key, desired)
            && (p.burstTaintKey != "" ==> Carries(after, p.burstTaintKey, Fence(p, fenced)))
  {
    var u, burst := Unowned(p, f.taints), DesiredBurst(p, fenced);
    WrittenTaints(p, f, admitted, desired, fenced);
    UnownedOfWritten(p, f.taints, desired, fenced);
    UnownedIsClean(p, f.taints);
    ListCarriesDesired(u, desired, burst, p.key, p.burstTaintKey);
    if p.burstTaintKey != "" && burst.None? {
      NoFenceNoBurst(u, desired, p.key, p.burstTaintKey);
    }
    hide Unowned, Own, Carries, Written;
  }

  /** A write touches one label, which says "true" exactly when the node is admitted. */
  lemma WriteLabelsAdmission(p: TaintPolicy, f: Fields, admitted: bool, desired: Option<Taint>, fenced: bool)
    ensures var after := Written(p, f, admitted, desired, fenced);
            && after.labels - {SCHEDULABLE_LABEL} == f.labels - {SCHEDULABLE_LABEL}
            && (admitted <==> SCHEDULABLE_LABEL in after.labels && after.labels[SCHEDULABLE_LABEL] == "true")
            && (!admitted ==> SCHEDULABLE_LABEL !in after.labels)
  {
    hide Own;
  }

  /** Writing twice is writing once. */
  lemma WriteIsIdempotent(p: TaintPolicy, f: Fields, admitted: bool, desired: Option<Taint>, fenced: bool)
    requires p.Valid() && Belongs(desired, p.key)
    ensures var once := Written(p, f, admitted, desired, fenced);
            Written(p, once, admitted, desired, fenced) == once
  {
    WrittenTaints(p, f, admitted, desired, fenced);
    WrittenTaints(p, Written(p, f, admitted, desired, fenced), admitted, desired, fenced);
    UnownedOfWritten(p, f.taints, desired, fenced);
    hide Unowned, Own, TaintPolicy.Valid;
  }

  lemma PrimaryMoves(p: TaintPolicy, u: seq<Taint>, desired: Option<Taint>, fenced: bool)
    requires p.Valid() && Belongs(desired, p.key)
    requires forall t | t in u :: t.key != p.key
    ensures var taints := u + AsList(desired) + AsList(DesiredBurst(p, fenced));
            Own(taints, p.key, desired) == u + AsList(DesiredBurst(p, fenced)) + AsList(desired)
  {
    var burst := DesiredBurst(p, fenced);
    WithoutAdds(u + AsList(desired), AsList(burst), p.key);
    WithoutAdds(u, AsList(desired), p.key);
    WithoutNothing(u, p.key);
    WithoutListed(desired, p.key);
    WithoutListed(burst, p.key);
    assert u + [] == u;
  }

  /** On a list that is already right, the primary call sees a change only if the fence follows it. */
  lemma PrimaryReports(p: TaintPolicy, u: seq<Taint>, desired: Option<Taint>, fenced: bool)
    requires p.Valid() && Belongs(desired, p.key)
    requires forall t | t in u :: t.key != p.key
    ensures var taints := u + AsList(desired) + AsList(DesiredBurst(p, fenced));
            Own(taints, p.key, desired) != taints <==> desired.Some? && DesiredBurst(p, fenced).Some?
  {
    var burst := DesiredBurst(p, fenced);
    PrimaryMoves(p, u, desired, fenced);
    if desired.Some? && burst.Some? {
      assert (u + AsList(burst) + AsList(desired))[|u|].key == p.burstTaintKey;
      assert (u + AsList(desired) + AsList(burst))[|u|].key == p.key;
    }
    hide Own;
  }

  /**
   A repeated write reports a change exactly when both taints are desired: each call moves its own
   key to the end of the list, although the list comes out the same.
   */
  lemma RepeatReportsChangeIffBothDesired(p: TaintPolicy, f: Fields, admitted: bool, desired: Option<Taint>, fenced: bool)
    requires p.Valid() && Belongs(desired, p.key)
    ensures var once := Written(p, f, admitted, desired, fenced);
            WriteReported(p, once, admitted, desired, fenced) <==> desired.Some? && DesiredBurst(p, fenced).Some?
  {
    WrittenTaints(p, f, admitted, desired, fenced);
    UnownedIsClean(p, f.taints);
    PrimaryReports(p, Unowned(p, f.taints), desired, fenced);
    WriteIsIdempotent(p, f, admitted, desired, fenced);
    hide Unowned, Own, DesiredBurst;
  }

  lemma DecidedTaintBelongs(p: TaintPolicy, r: NodeProtection, items: seq<Enrollment>, node: string, now: Time)
    requires p.Valid() && ZERO_TIME < now && DistinctKeys(items) && r == Protect(p, items, node, now)
    ensures Belongs(r.Taint(), p.key)
  {
    ProtectionIsMeant(p, items, node, now);
    hide DistinctKeys, Protect, WinsOver, Live;
    if r.source.Some? {
      DecisionFollowsReason(p, r.source.value, now);
      hide DecidePolicy;
    }
  }
}
