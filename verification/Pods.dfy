/** Pods, and what the controller reads of them and of their storage. */
module Pods {
  import opened Outcomes

  const PINNED_ANNOTATION := "interactive-node-controller.io/pinned"
  const ALLOW_LOSSY := "interactive-node-controller.io/allow-lossy-eviction"
  const MIRROR_ANNOTATION := "kubernetes.io/config.mirror"
  const SYSTEM_PRIORITY := 2000000000

  /** A volume; the API sets one source, but the gate does not rely on it. */
  datatype Volume = Volume(hostPath: bool, emptyDir: bool, claim: Option<string>)

  datatype Phase = Pending | Running | Succeeded | Failed | OtherPhase(text: string)

  datatype Pod = Pod(
    namespace: string,
    name: string,
    uid: string,
    resourceVersion: string,
    nodeName: string,
    labels: map<string, string>,
    annotations: map<string, string>,
    owners: seq<string>,
    terminating: bool,
    nodeSelector: map<string, string>,
    requiredNodeAffinity: bool,
    priority: Option<int>,
    volumes: seq<Volume>,
    phase: Phase)
  {
    predicate AllowsLossy() {
      EqualFoldTrue(Lookup(annotations, ALLOW_LOSSY)) || EqualFoldTrue(Lookup(labels, ALLOW_LOSSY))
    }
  }

  datatype AccessMode = ReadWriteOnce | ReadOnlyMany | ReadWriteMany | ReadWriteOncePod

  datatype Claim = Claim(volumeName: string, modes: seq<AccessMode>)

  datatype PersistentVolume = PersistentVolume(local: bool, hostPath: bool)

  /** What lookups find. A claim has a namespace and a name; what is absent cannot be read. */
  datatype Storage = Storage(claims: map<(string, string), Claim>, volumes: map<string, PersistentVolume>)

  /** A missing key reads as the empty text. */
  function Lookup(m: map<string, string>, key: string): string {
    if key in m then m[key] else ""
  }

  /** "true" in any mix of cases. */
  predicate EqualFoldTrue(s: string) {
    |s| == 4 && s[0] in {'t', 'T'} && s[1] in {'r', 'R'} && s[2] in {'u', 'U'} && s[3] in {'e', 'E'}
  }
}
