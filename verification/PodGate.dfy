/** The safety gates one Pod has to pass before it may be evicted. */
module PodGate {
  import opened Outcomes
  import opened EvictionPolicies
  import opened Pods

  datatype Refusal =
    | NotOptedIn
    | ProtectedNamespace
    | Terminating
    | MirrorStatic
    | DaemonSetOwned
    | UnmanagedPod
    | DirectPinned
    | NodeSelector
    | RequiredNodeAffinity
    | CriticalPriority
    | HostPathVolume
    | LocalEmptyDir
    | PvcLookupFailed
    | PvcNotBound
    | PvcReadWriteOnce
    | PvLookupFailed
    | LocalPv
    | PvcNotAllowed
    | CompletedPod
  {
    /** Of one volume, whichever it is. */
    predicate OfVolume() {
      this in {HostPathVolume, LocalEmptyDir, PvcLookupFailed, PvcNotBound, PvcReadWriteOnce, PvLookupFailed, LocalPv, PvcNotAllowed}
    }
  }

  predicate SingleNode(mode: AccessMode) {
    mode == ReadWriteOnce || mode == ReadWriteOncePod
  }

  /** Why a volume keeps its Pod in place, if it does. */
  function VolumeRefusal(v: Volume, namespace: string, storage: Storage, lossy: bool): Option<Refusal> {
    if v.hostPath then Some(HostPathVolume)
    else if v.emptyDir && !lossy then Some(LocalEmptyDir)
    else if v.claim.None? then None
    else if (namespace, v.claim.value) !in storage.claims then Some(PvcLookupFailed)
    else
      var claim := storage.claims[(namespace, v.claim.value)];
      if claim.volumeName == "" then Some(PvcNotBound)
      else if exists mode | mode in claim.modes :: SingleNode(mode) then Some(PvcReadWriteOnce)
      else if claim.volumeName !in storage.volumes then Some(PvLookupFailed)
      else if storage.volumes[claim.volumeName].local || storage.volumes[claim.volumeName].hostPath then Some(LocalPv)
      else if lossy then Some(PvcNotAllowed)
      else None
  }

  /** The refusal of the first volume that has one. */
  function FirstVolumeRefusal(volumes: seq<Volume>, namespace: string, storage: Storage, lossy: bool): Option<Refusal> {
    if volumes == [] then None
    else
      var first := VolumeRefusal(volumes[0], namespace, storage, lossy);
      if first.Some? then first else FirstVolumeRefusal(volumes[1..], namespace, storage, lossy)
  }

  /** The first gate that refuses a Pod judged as lossy or as standard. */
  function Gate(pod: Pod, storage: Storage, policy: EvictionPolicy, lossy: bool): Option<Refusal> {
    if Lookup(pod.labels, policy.evictableLabel) != "true" then Some(NotOptedIn)
    else if pod.namespace in policy.protectedNamespaces then Some(ProtectedNamespace)
    else if pod.terminating then Some(Terminating)
    else if Lookup(pod.annotations, MIRROR_ANNOTATION) != "" then Some(MirrorStatic)
    else if "DaemonSet" in pod.owners then Some(DaemonSetOwned)
    else if pod.owners == [] then Some(UnmanagedPod)
    else if EqualFoldTrue(Lookup(pod.annotations, PINNED_ANNOTATION)) then Some(DirectPinned)
    else if pod.nodeSelector != map[] && !lossy then Some(NodeSelector)
    else if pod.requiredNodeAffinity && !lossy then Some(RequiredNodeAffinity)
    else if pod.priority.Some? && pod.priority.value >= SYSTEM_PRIORITY then Some(CriticalPriority)
    else
      var volume := FirstVolumeRefusal(pod.volumes, pod.namespace, storage, lossy);
      if volume.Some? then volume
      else if pod.phase == Succeeded || pod.phase == Failed then Some(CompletedPod)
      else None
  }

  lemma {:induction false} FirstRefusalSkipsPassing(
    volumes: seq<Volume>, k: nat, namespace: string, storage: Storage, lossy: bool)
    requires k <= |volumes|
    requires forall i | 0 <= i < k :: VolumeRefusal(volumes[i], namespace, storage, lossy).None?
    ensures FirstVolumeRefusal(volumes, namespace, storage, lossy) == FirstVolumeRefusal(volumes[k..], namespace, storage, lossy)
  {
    hide VolumeRefusal;
    if k > 0 {
      FirstRefusalSkipsPassing(volumes[1..], k - 1, namespace, storage, lossy);
      assert volumes[1..][k - 1..] == volumes[k..];
    }
  }

  method EvictionDecision(pod: Pod, storage: Storage, policy: EvictionPolicy) returns (refusal: Option<Refusal>)
    ensures refusal == Gate(pod, storage, policy, pod.AllowsLossy())
  {
    if Lookup(pod.labels, policy.evictableLabel) != "true" {
      return Some(NotOptedIn);
    }
    if pod.namespace in policy.protectedNamespaces {
      return Some(ProtectedNamespace);
    }
    if pod.terminating {
      return Some(Terminating);
    }
    if Lookup(pod.annotations, MIRROR_ANNOTATION) != "" {
      return Some(MirrorStatic);
    }
    for i := 0 to |pod.owners|
      invariant "DaemonSet" !in pod.owners[..i]
    {
      if pod.owners[i] == "DaemonSet" {
        return Some(DaemonSetOwned);
      }
    }
    if |pod.owners| == 0 {
      return Some(UnmanagedPod);
    }
    if EqualFoldTrue(Lookup(pod.annotations, PINNED_ANNOTATION)) {
      return Some(DirectPinned);
    }
    var lossy := pod.AllowsLossy();
    if |pod.nodeSelector| > 0 && !lossy {
      return Some(NodeSelector);
    }
    if pod.requiredNodeAffinity && !lossy {
      return Some(RequiredNodeAffinity);
    }
    if pod.priority.Some? && pod.priority.value >= SYSTEM_PRIORITY {
      return Some(CriticalPriority);
    }
    for i := 0 to |pod.volumes|
      invariant forall j | 0 <= j < i :: VolumeRefusal(pod.volumes[j], pod.namespace, storage, lossy).None?
    {
      FirstRefusalSkipsPassing(pod.volumes, i, pod.namespace, storage, lossy);
      var found := JudgeVolume(pod.volumes[i], pod.namespace, storage, lossy);
      if found.Some? {
        return found;
      }
    }
    FirstRefusalSkipsPassing(pod.volumes, |pod.volumes|, pod.namespace, storage, lossy);
    if pod.phase == Succeeded || pod.phase == Failed {
      return Some(CompletedPod);
    }
    return None;
  }

  /** One round of the loop over volumes. */
  method JudgeVolume(v: Volume, namespace: string, storage: Storage, lossy: bool) returns (refusal: Option<Refusal>)
    ensures refusal == VolumeRefusal(v, namespace, storage, lossy)
  {
    if v.hostPath {
      return Some(HostPathVolume);
    }
    if v.emptyDir && !lossy {
      return Some(LocalEmptyDir);
    }
    if v.claim.None? {
      return None;
    }
    if (namespace, v.claim.value) !in storage.claims {
      return Some(PvcLookupFailed);
    }
    var claim := storage.claims[(namespace, v.claim.value)];
    if claim.volumeName == "" {
      return Some(PvcNotBound);
    }
    for i := 0 to |claim.modes|
      invariant forall j | 0 <= j < i :: !SingleNode(claim.modes[j])
    {
      if SingleNode(claim.modes[i]) {
        assert claim.modes[i] in claim.modes;
        return Some(PvcReadWriteOnce);
      }
    }
    if claim.volumeName !in storage.volumes {
      return Some(PvLookupFailed);
    }
    var pv := storage.volumes[claim.volumeName];
    if pv.local || pv.hostPath {
      return Some(LocalPv);
    }
    if lossy {
      return Some(PvcNotAllowed);
    }
    return None;
  }

  // --- What the gates mean ----------------------------------------------------------------

  function Lowered(s: string): string {
    seq(|s|, i requires 0 <= i < |s| => if 'A' <= s[i] <= 'Z' then s[i] - 'A' + 'a' else s[i])
  }

  /** A key that is present and spells "true", in some mix of cases. */
  predicate Marked(m: map<string, string>, key: string) {
    key in m && Lowered(m[key]) == "true"
  }

  /** What opts a Pod in to losing its data: the annotation, or the label of the same key. */
  predicate MarkedLossy(pod: Pod) {
    Marked(pod.annotations, ALLOW_LOSSY) || Marked(pod.labels, ALLOW_LOSSY)
  }

  lemma LoweredIsTrue(s: string)
    ensures EqualFoldTrue(s) <==> Lowered(s) == "true"
  {
    if |s| == 4 {
      assert Lowered(s) == "true" <==> Lowered(s)[0] == 't' && Lowered(s)[1] == 'r' && Lowered(s)[2] == 'u' && Lowered(s)[3] == 'e';
    }
  }

  lemma MarkIsRead(m: map<string, string>, key: string)
    ensures EqualFoldTrue(Lookup(m, key)) <==> Marked(m, key)
  {
    LoweredIsTrue(Lookup(m, key));
    assert Lowered("") == "";
    hide EqualFoldTrue, Lowered;
  }

  /** A bound claim on shared storage that any node can reach. */
  predicate SharedClaim(name: string, namespace: string, storage: Storage) {
    (namespace, name) in storage.claims &&
    var claim := storage.claims[(namespace, name)];
    && claim.volumeName != ""
    && (forall mode | mode in claim.modes :: mode == ReadOnlyMany || mode == ReadWriteMany)
    && claim.volumeName in storage.volumes
    && storage.volumes[claim.volumeName] == PersistentVolume(false, false)
  }

  /** Nothing local is lost: a lossy Pod gives up its emptyDir, but never brings a claim. */
  predicate Portable(v: Volume, namespace: string, storage: Storage, lossy: bool) {
    && !v.hostPath
    && (lossy || !v.emptyDir)
    && (v.claim.Some? ==> !lossy && SharedClaim(v.claim.value, namespace, storage))
  }

  /** Managed by something that recreates it elsewhere, opted in, and not held back. */
  predicate Movable(pod: Pod, policy: EvictionPolicy, lossy: bool) {
    && policy.evictableLabel in pod.labels && pod.labels[policy.evictableLabel] == "true"
    && pod.namespace !in policy.protectedNamespaces
    && !pod.terminating && pod.phase != Succeeded && pod.phase != Failed
    && (MIRROR_ANNOTATION in pod.annotations ==> pod.annotations[MIRROR_ANNOTATION] == "")
    && pod.owners != [] && (forall kind | kind in pod.owners :: kind != "DaemonSet")
    && !Marked(pod.annotations, PINNED_ANNOTATION)
    && (lossy || (pod.nodeSelector == map[] && !pod.requiredNodeAffinity))
    && (pod.priority.Some? ==> pod.priority.value < 2_000_000_000)
  }

  lemma VolumePassesIffPortable(v: Volume, namespace: string, storage: Storage, lossy: bool)
    ensures VolumeRefusal(v, namespace, storage, lossy).None? <==> Portable(v, namespace, storage, lossy)
  {
    if v.claim.Some? && (namespace, v.claim.value) in storage.claims {
      var modes := storage.claims[(namespace, v.claim.value)].modes;
      assert forall mode :: SingleNode(mode) <==> !(mode == ReadOnlyMany || mode == ReadWriteMany);
    }
  }

  lemma {:induction false} VolumesPassIffPortable(volumes: seq<Volume>, namespace: string, storage: Storage, lossy: bool)
    ensures FirstVolumeRefusal(volumes, namespace, storage, lossy).None? <==>
            forall v | v in volumes :: Portable(v, namespace, storage, lossy)
  {
    if volumes != [] {
      VolumePassesIffPortable(volumes[0], namespace, storage, lossy);
      VolumesPassIffPortable(volumes[1..], namespace, storage, lossy);
      assert volumes == [volumes[0]] + volumes[1..];
      hide VolumeRefusal, Portable;
    }
  }

  /** A Pod passes exactly when it is movable and every one of its volumes is portable. */
  lemma GatePassesIff(pod: Pod, storage: Storage, policy: EvictionPolicy, lossy: bool)
    ensures Gate(pod, storage, policy, lossy).None? <==>
            Movable(pod, policy, lossy) && forall v | v in pod.volumes :: Portable(v, pod.namespace, storage, lossy)
  {
    VolumesPassIffPortable(pod.volumes, pod.namespace, storage, lossy);
    MarkIsRead(pod.annotations, PINNED_ANNOTATION);
    hide FirstVolumeRefusal, Portable, EqualFoldTrue, Marked;
  }

  /** What a Pod is judged as: lossy exactly if it is marked so. */
  lemma LossyIsMarked(pod: Pod)
    ensures pod.AllowsLossy() <==> MarkedLossy(pod)
  {
    MarkIsRead(pod.annotations, ALLOW_LOSSY);
    MarkIsRead(pod.labels, ALLOW_LOSSY);
    hide EqualFoldTrue, Lookup, Marked;
  }

  /**
   The decision on a Pod. It passes exactly if it is movable and its volumes are portable, as its own
   mark has it: without one, no Pod with an emptyDir, a selector or a required affinity does.
   */
  lemma DecisionIsMeant(pod: Pod, storage: Storage, policy: EvictionPolicy)
    ensures var lossy, refusal := MarkedLossy(pod), Gate(pod, storage, policy, pod.AllowsLossy());
            && (refusal.None? <==>
                  Movable(pod, policy, lossy) && forall v | v in pod.volumes :: Portable(v, pod.namespace, storage, lossy))
            && (refusal.None? && !lossy ==>
                  pod.nodeSelector == map[] && !pod.requiredNodeAffinity && forall v | v in pod.volumes :: !v.emptyDir)
            && (refusal.None? && lossy ==> forall v | v in pod.volumes :: v.claim.None?)
  {
    LossyIsMarked(pod);
    GatePassesIff(pod, storage, policy, pod.AllowsLossy());
    hide Gate, MarkedLossy, Pod.AllowsLossy, Marked;
  }

  lemma {:induction false} VolumeRefusalIsOfVolume(volumes: seq<Volume>, namespace: string, storage: Storage, lossy: bool)
    ensures var r := FirstVolumeRefusal(volumes, namespace, storage, lossy);
            r.Some? ==> r.value.OfVolume() && exists v | v in volumes :: VolumeRefusal(v, namespace, storage, lossy) == r
  {
    if volumes != [] {
      VolumeRefusalIsOfVolume(volumes[1..], namespace, storage, lossy);
      var first := VolumeRefusal(volumes[0], namespace, storage, lossy);
      assert first.Some? ==> first.value.OfVolume();
      assert volumes[0] in volumes && forall v | v in volumes[1..] :: v in volumes;
      hide VolumeRefusal, Refusal.OfVolume;
    }
  }

  /**
   What lossy opt-in changes: it excuses a selector, a required affinity or an emptyDir, and it
   forbids every claim. Without a claim it never makes a Pod harder to evict.
   */
  lemma LossyAgainstStandard(pod: Pod, storage: Storage, policy: EvictionPolicy)
    ensures var asLossy, asStandard := Gate(pod, storage, policy, true), Gate(pod, storage, policy, false);
            && (asStandard.None? && (forall v | v in pod.volumes :: v.claim.None?) ==> asLossy.None?)
            && (asLossy.None? ==> forall v | v in pod.volumes :: v.claim.None?)
            && (asLossy.None? && asStandard.Some? ==> asStandard.value in {NodeSelector, RequiredNodeAffinity, LocalEmptyDir})
  {
    GatePassesIff(pod, storage, policy, true);
    GatePassesIff(pod, storage, policy, false);
    VolumeRefusalIsOfVolume(pod.volumes, pod.namespace, storage, false);
    hide FirstVolumeRefusal, EqualFoldTrue, Lookup;
  }

  /** The gates in the order they are tried, with those of a volume in theirs. */
  function Place(r: Refusal): nat {
    match r
    case NotOptedIn => 0
    case ProtectedNamespace => 1
    case Terminating => 2
    case MirrorStatic => 3
    case DaemonSetOwned => 4
    case UnmanagedPod => 5
    case DirectPinned => 6
    case NodeSelector => 7
    case RequiredNodeAffinity => 8
    case CriticalPriority => 9
    case HostPathVolume => 10
    case LocalEmptyDir => 11
    case PvcLookupFailed => 12
    case PvcNotBound => 13
    case PvcReadWriteOnce => 14
    case PvLookupFailed => 15
    case LocalPv => 16
    case PvcNotAllowed => 17
    case CompletedPod => 18
  }

  /** Whether a gate of volumes, tried alone, refuses a volume. */
  predicate Holds(r: Refusal, v: Volume, namespace: string, storage: Storage, lossy: bool) {
    var claimed := v.claim.Some? && (namespace, v.claim.value) in storage.claims;
    match r
    case HostPathVolume => v.hostPath
    case LocalEmptyDir => v.emptyDir && !lossy
    case PvcLookupFailed => v.claim.Some? && !claimed
    case PvcNotBound => claimed && storage.claims[(namespace, v.claim.value)].volumeName == ""
    case PvcReadWriteOnce =>
      claimed && (ReadWriteOnce in storage.claims[(namespace, v.claim.value)].modes ||
                  ReadWriteOncePod in storage.claims[(namespace, v.claim.value)].modes)
    case PvLookupFailed => claimed && storage.claims[(namespace, v.claim.value)].volumeName !in storage.volumes
    case LocalPv =>
      claimed && storage.claims[(namespace, v.claim.value)].volumeName in storage.volumes &&
      storage.volumes[storage.claims[(namespace, v.claim.value)].volumeName] != PersistentVolume(false, false)
    case PvcNotAllowed => v.claim.Some? && lossy
    case _ => false
  }

  /** A volume is refused by the first of its gates that holds it. */
  lemma VolumeReasonIsFirst(v: Volume, namespace: string, storage: Storage, lossy: bool, other: Refusal)
    requires VolumeRefusal(v, namespace, storage, lossy).Some?
    ensures var r := VolumeRefusal(v, namespace, storage, lossy).value;
            Holds(r, v, namespace, storage, lossy) && (Place(other) < Place(r) ==> !Holds(other, v, namespace, storage, lossy))
  {
    if v.claim.Some? && (namespace, v.claim.value) in storage.claims {
      var claim := storage.claims[(namespace, v.claim.value)];
      assert (exists mode | mode in claim.modes :: SingleNode(mode)) <==> ReadWriteOnce in claim.modes || ReadWriteOncePod in claim.modes;
    }
  }

  /** Whether a gate of Pods, tried alone, refuses the Pod. */
  predicate Refuses(r: Refusal, pod: Pod, policy: EvictionPolicy, lossy: bool) {
    match r
    case NotOptedIn => !(policy.evictableLabel in pod.labels && pod.labels[policy.evictableLabel] == "true")
    case ProtectedNamespace => pod.namespace in policy.protectedNamespaces
    case Terminating => pod.terminating
    case MirrorStatic => MIRROR_ANNOTATION in pod.annotations && pod.annotations[MIRROR_ANNOTATION] != ""
    case DaemonSetOwned => exists kind | kind in pod.owners :: kind == "DaemonSet"
    case UnmanagedPod => pod.owners == []
    case DirectPinned => Marked(pod.annotations, PINNED_ANNOTATION)
    case NodeSelector => !lossy && pod.nodeSelector != map[]
    case RequiredNodeAffinity => !lossy && pod.requiredNodeAffinity
    case CriticalPriority => pod.priority.Some? && pod.priority.value >= 2_000_000_000
    case CompletedPod => pod.phase in {Succeeded, Failed}
    case _ => false
  }

  /** Volume k is the first that is not portable, and is refused for r. */
  ghost predicate FirstHeld(volumes: seq<Volume>, k: nat, namespace: string, storage: Storage, lossy: bool, r: Refusal) {
    && k < |volumes| && VolumeRefusal(volumes[k], namespace, storage, lossy) == Some(r)
    && forall i | 0 <= i < k :: Portable(volumes[i], namespace, storage, lossy)
  }

  lemma {:induction false} SomeVolumeIsFirst(volumes: seq<Volume>, namespace: string, storage: Storage, lossy: bool)
    ensures var r := FirstVolumeRefusal(volumes, namespace, storage, lossy);
            r.Some? ==> exists k: nat :: FirstHeld(volumes, k, namespace, storage, lossy, r.value)
  {
    var r := FirstVolumeRefusal(volumes, namespace, storage, lossy);
    if volumes != [] && r.Some? {
      VolumePassesIffPortable(volumes[0], namespace, storage, lossy);
      SomeVolumeIsFirst(volumes[1..], namespace, storage, lossy);
      hide VolumeRefusal, Portable;
      if VolumeRefusal(volumes[0], namespace, storage, lossy).Some? {
        assert FirstHeld(volumes, 0, namespace, storage, lossy, r.value);
      } else {
        var k: nat :| FirstHeld(volumes[1..], k, namespace, storage, lossy, r.value);
        assert FirstHeld(volumes, k + 1, namespace, storage, lossy, r.value);
      }
    }
  }

  /**
   The reported reason is of a gate that does refuse, and every gate before it passes. Of the volumes it
   is the first that refuses, for the first of its own gates.
   */
  lemma ReasonIsFirstRefusal(pod: Pod, storage: Storage, policy: EvictionPolicy, lossy: bool, other: Refusal)
    requires Gate(pod, storage, policy, lossy).Some?
    ensures var r := Gate(pod, storage, policy, lossy).value;
            && (Place(other) < Place(r) ==> !Refuses(other, pod, policy, lossy))
            && (if r.OfVolume() then exists k: nat :: FirstHeld(pod.volumes, k, pod.namespace, storage, lossy, r)
                else Refuses(r, pod, policy, lossy))
            && (r == CompletedPod ==> forall v | v in pod.volumes :: Portable(v, pod.namespace, storage, lossy))
  {
    SomeVolumeIsFirst(pod.volumes, pod.namespace, storage, lossy);
    VolumesPassIffPortable(pod.volumes, pod.namespace, storage, lossy);
    VolumeRefusalIsOfVolume(pod.volumes, pod.namespace, storage, lossy);
    MarkIsRead(pod.annotations, PINNED_ANNOTATION);
    hide FirstVolumeRefusal, EqualFoldTrue, Marked, FirstHeld, Portable, VolumeRefusal;
  }
}
