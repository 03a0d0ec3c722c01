/** The fields of a node that the controller owns: two taint keys and one label. */
module NodeOwnership {
  import opened Clock
  import opened Outcomes
  import opened Enrollments
  import opened Protection

  const SCHEDULABLE_LABEL := "availability.interactive-node.io/schedulable"

  /** The taints and labels of a node. */
  datatype Fields = Fields(taints: seq<Taint>, labels: map<string, string>)

  class Node {
    var taints: seq<Taint>
    var labels: map<string, string>

    constructor (taints: seq<Taint>, labels: map<string, string>)
      ensures Value() == Fields(taints, labels)
    {
      this.taints, this.labels := taints, labels;
    }

    function Value(): Fields
      reads this
    {
      Fields(taints, labels)
    }
  }

  /** The taints with another key, in their order. */
  function Without(taints: seq<Taint>, key: string): seq<Taint> {
    if taints == [] then []
    else
      var last := taints[|taints| - 1];
      Without(taints[..|taints| - 1], key) + if last.key != key then [last] else []
  }

  function AsList(t: Option<Taint>): seq<Taint> {
    if t.None? then [] else [t.value]
  }

  /** One owned key: its old taints go, and the desired one, if any, is last. */
  function Own(taints: seq<Taint>, key: string, desired: Option<Taint>): seq<Taint> {
    Without(taints, key) + AsList(desired)
  }

  method ReconcileOwnedTaint(node: Node, key: string, desired: Option<Taint>) returns (changed: bool)
    modifies node`taints
    ensures node.taints == Own(old(node.taints), key, desired)
    ensures changed <==> node.taints != old(node.taints)
  {
    var next: seq<Taint> := [];
    for i := 0 to |node.taints|
      invariant node.taints == old(node.taints)
      invariant next == Without(node.taints[..i], key)
    {
      assert node.taints[..i + 1][..i] == node.taints[..i];
      if node.taints[i].key != key {
        next := next + [node.taints[i]];
      }
    }
    assert node.taints[..|node.taints|] == node.taints;
    if desired.Some? {
      next := next + [desired.value];
    }
    if |next| == |node.taints| {
      var equal := true;
      for i := 0 to |next|
        invariant equal <==> forall j | 0 <= j < i :: next[j] == node.taints[j]
        invariant node.taints == old(node.taints)
      {
        if next[i] != node.taints[i] {
          equal := false;
          break;
        }
      }
      if equal {
        return false;
      }
    }
    node.taints := next;
    return true;
  }

  function Labelled(labels: map<string, string>, schedulable: bool): map<string, string> {
    if schedulable then labels[SCHEDULABLE_LABEL := "true"] else labels - {SCHEDULABLE_LABEL}
  }

  method ReconcileSchedulableLabel(node: Node, schedulable: bool) returns (changed: bool)
    modifies node`labels
    ensures node.labels == Labelled(old(node.labels), schedulable)
    ensures changed <==> node.labels != old(node.labels)
  {
    if schedulable {
      if SCHEDULABLE_LABEL !in node.labels || node.labels[SCHEDULABLE_LABEL] != "true" {
        node.labels := node.labels[SCHEDULABLE_LABEL := "true"];
        return true;
      }
      return false;
    }
    if SCHEDULABLE_LABEL in node.labels {
      node.labels := node.labels - {SCHEDULABLE_LABEL};
      return true;
    }
    return false;
  }

  function BurstTaint(p: TaintPolicy): Taint {
    Taint(p.burstTaintKey, p.failClosedValue, NoSchedule, None)
  }

  function DesiredBurst(p: TaintPolicy, fenced: bool): Option<Taint> {
    if p.burstTaintKey != "" && fenced then Some(BurstTaint(p)) else None
  }

  /** The node's fields after a write of both keys and the label. */
  function Written(p: TaintPolicy, f: Fields, admitted: bool, desired: Option<Taint>, fenced: bool): Fields {
    var primary := Own(f.taints, p.key, desired);
    Fields(
      if p.burstTaintKey != "" then Own(primary, p.burstTaintKey, DesiredBurst(p, fenced)) else primary,
      Labelled(f.labels, admitted))
  }

  /** What a reconcile at `now` writes: the label, the protection, and the burst fence. */
  function Reconciled(p: TaintPolicy, f: Fields, r: NodeProtection, now: Time): Fields {
    var admitted := PolicyAdmitted(p, r, now);
    Written(p, f, admitted, r.Taint(), !admitted)
  }

  /** What a finalizer writes: never the label, and no fence once nothing live is left. */
  function Finalized(p: TaintPolicy, f: Fields, r: NodeProtection, now: Time): Fields {
    Written(p, f, false, r.Taint(), r.source.Some? && !PolicyAdmitted(p, r, now))
  }

  /** Whether any of the three calls saw a change of its own. Only then is the node sent back. */
  predicate WriteReported(p: TaintPolicy, f: Fields, admitted: bool, desired: Option<Taint>, fenced: bool) {
    var primary := Own(f.taints, p.key, desired);
    || Labelled(f.labels, admitted) != f.labels
    || primary != f.taints
    || (p.burstTaintKey != "" && Own(primary, p.burstTaintKey, DesiredBurst(p, fenced)) != primary)
  }

  method WriteOwnedFields(p: TaintPolicy, node: Node, admitted: bool, desired: Option<Taint>, fenced: bool)
    returns (changed: bool)
    modifies node
    ensures node.Value() == Written(p, old(node.Value()), admitted, desired, fenced)
    ensures changed <==> WriteReported(p, old(node.Value()), admitted, desired, fenced)
  {
    var changedLabel := ReconcileSchedulableLabel(node, admitted);
    var changedPrimary := ReconcileOwnedTaint(node, p.key, desired);
    var changedBurst := false;
    if p.burstTaintKey != "" {
      var desiredBurst: Option<Taint> := None;
      if fenced {
        desiredBurst := Some(BurstTaint(p));
      }
      changedBurst := ReconcileOwnedTaint(node, p.burstTaintKey, desiredBurst);
    }
    changed := changedLabel || changedPrimary || changedBurst;
  }

  method ReconcileNode(p: TaintPolicy, node: Node, r: NodeProtection, now: Time) returns (changed: bool)
    modifies node
    ensures node.Value() == Reconciled(p, old(node.Value()), r, now)
  {
    var admitted := PolicyAdmitted(p, r, now);
    changed := WriteOwnedFields(p, node, admitted, r.Taint(), !admitted);
  }

  method FinalizeNode(p: TaintPolicy, node: Node, r: NodeProtection, now: Time) returns (changed: bool)
    modifies node
    ensures node.Value() == Finalized(p, old(node.Value()), r, now)
  {
    changed := WriteOwnedFields(p, node, false, r.Taint(), r.source.Some? && !PolicyAdmitted(p, r, now));
  }

  // --- The node watch --------------------------------------------------------------

  /** Key, value and effect of the owned taints, without the time they were added. */
  function Projection(p: TaintPolicy, taints: seq<Taint>): seq<Taint> {
    if taints == [] then []
    else
      var last := taints[|taints| - 1];
      Projection(p, taints[..|taints| - 1]) +
      if OwnedKey(p, last.key) then [last.(timeAdded := None)] else []
  }

  predicate OwnedKey(p: TaintPolicy, key: string) {
    (p.key != "" && key == p.key) || (p.burstTaintKey != "" && key == p.burstTaintKey)
  }

  method ManagedTaintProjection(p: TaintPolicy, taints: seq<Taint>) returns (found: seq<Taint>)
    ensures found == Projection(p, taints)
  {
    var keys: set<string> := {};
    if p.key != "" {
      keys := keys + {p.key};
    }
    if p.burstTaintKey != "" {
      keys := keys + {p.burstTaintKey};
    }
    found := [];
    for i := 0 to |taints|
      invariant found == Projection(p, taints[..i])
    {
      assert taints[..i + 1][..i] == taints[..i];
      if taints[i].key in keys {
        found := found + [taints[i].(timeAdded := None)];
      }
    }
    assert taints[..|taints|] == taints;
  }

  function SchedulableValue(f: Fields): string {
    if SCHEDULABLE_LABEL in f.labels then f.labels[SCHEDULABLE_LABEL] else ""
  }

  /** Whether an update of the node, by anyone, is worth a reconcile. */
  predicate OwnedFieldsChanged(p: TaintPolicy, before: Fields, after: Fields) {
    SchedulableValue(before) != SchedulableValue(after) ||
    Projection(p, before.taints) != Projection(p, after.taints)
  }
}
