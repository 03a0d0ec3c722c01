/**
 Retry deadlines of blocked evictions, shared by the passes of every node.
 `Deadlines` is their value, `EvictionRetries` the object that holds and updates it.
 */
module EvictionRetries {
  import opened Clock
  import opened Outcomes
  import opened Names
  import opened EvictionPolicies
  import opened Pods

  datatype RetryKey = RetryKey(node: NodeName, namespace: string, name: string, uid: string)

  type Deadlines = map<RetryKey, Time>

  function KeyOf(node: NodeName, pod: Pod): RetryKey {
    RetryKey(node, pod.namespace, pod.name, pod.uid)
  }

  /** The keys of the Pods that a list shows on a node. */
  function ListedKeys(node: NodeName, pods: seq<Pod>): set<RetryKey> {
    set pod | pod in pods && pod.nodeName == node.text :: KeyOf(node, pod)
  }

  /** An expired deadline goes, and on the pass's own node one whose Pod is not listed. */
  predicate Survives(deadlines: Deadlines, key: RetryKey, now: Time, node: NodeName, listed: set<RetryKey>)
    requires key in deadlines
  {
    now < deadlines[key] && (key.node == node ==> key in listed)
  }

  function Pruned(deadlines: Deadlines, now: Time, node: NodeName, listed: set<RetryKey>): Deadlines {
    map key | key in deadlines && Survives(deadlines, key, now, node, listed) :: deadlines[key]
  }

  function Remaining(deadlines: Deadlines, key: RetryKey, now: Time): Duration {
    var deadline := if key in deadlines then deadlines[key] else ZERO_TIME;
    if now < deadline then deadline - now else 0
  }

  /** What pruning keeps: on its own node what is listed and not expired, on others what is not expired. */
  lemma PrunedIsExact(deadlines: Deadlines, now: Time, node: NodeName, pods: seq<Pod>, key: RetryKey)
    ensures var after := Pruned(deadlines, now, node, ListedKeys(node, pods));
            && (key in after <==>
                  && key in deadlines && now < deadlines[key]
                  && (key.node == node ==>
                        exists pod | pod in pods ::
                          pod.nodeName == node.text && key == RetryKey(node, pod.namespace, pod.name, pod.uid)))
            && (key in after ==> after[key] == deadlines[key])
  {
    if key in ListedKeys(node, pods) {
      var pod :| pod in pods && pod.nodeName == node.text && KeyOf(node, pod) == key;
    }
  }

  class EvictionRetries {
    var deadlines: Deadlines

    constructor ()
      ensures deadlines == map[]
    {
      deadlines := map[];
    }

    method Prune(now: Time, node: NodeName, pods: seq<Pod>)
      modifies this
      ensures deadlines == Pruned(old(deadlines), now, node, ListedKeys(node, pods))
    {
      var live: set<RetryKey> := {};
      for i := 0 to |pods|
        invariant live == ListedKeys(node, pods[..i])
        invariant deadlines == old(deadlines)
      {
        assert pods[..i + 1] == pods[..i] + [pods[i]];
        if pods[i].nodeName == node.text {
          live := live + {KeyOf(node, pods[i])};
        }
      }
      assert pods[..|pods|] == pods;
      var keys := deadlines.Keys;
      while keys != {}
        invariant keys <= deadlines.Keys <= old(deadlines).Keys
        invariant forall key | key in deadlines :: deadlines[key] == old(deadlines)[key]
        invariant forall key | key in old(deadlines) ::
                    key in deadlines <==> key in keys || Survives(old(deadlines), key, now, node, live)
        decreases keys
      {
        var key :| key in keys;
        if deadlines[key] <= now || (key.node == node && key !in live) {
          deadlines := deadlines - {key};
        }
        keys := keys - {key};
      }
    }

    method Block(key: RetryKey, deadline: Time)
      modifies this
      ensures deadlines == old(deadlines)[key := deadline]
    {
      deadlines := deadlines[key := deadline];
    }

    method Forget(key: RetryKey)
      modifies this
      ensures deadlines == old(deadlines) - {key}
    {
      deadlines := deadlines - {key};
    }
  }

  /** A stable offset in [0, max], where any hash of the key will do. */
  function RetryJitter(key: RetryKey, max: Duration, hash: RetryKey -> nat): Duration {
    if max <= 0 then 0 else hash(key) % (max + 1)
  }

  /** The wait an API answer suggests, in seconds, where only a positive one counts. */
  function Hint(seconds: Option<int>): Duration {
    if seconds.Some? && seconds.value > 0 then seconds.value * SECOND else 0
  }

  function BlockedRetryDelay(
    key: RetryKey, policy: EvictionPolicy, seconds: Option<int>, hash: RetryKey -> nat): Duration {
    var backoff := if policy.retryBackoff < 0 then 0 else policy.retryBackoff;
    var delay := if Hint(seconds) > backoff then Hint(seconds) else backoff;
    var jitter := if policy.retryJitter < 0 then 0 else policy.retryJitter;
    var most := if policy.retryBackoff > 0 && jitter > policy.retryBackoff then policy.retryBackoff else jitter;
    delay + RetryJitter(key, most, hash)
  }

  /** The earliest retry a blocked Pod may be given: the backoff, or a longer hint of so many seconds. */
  function RetryFloor(policy: EvictionPolicy, seconds: Option<int>): Duration {
    if seconds.Some? && seconds.value * 1_000_000_000 > policy.retryBackoff then seconds.value * 1_000_000_000
    else policy.retryBackoff
  }

  /** Jitter only adds to the floor, and at most the smaller of its setting and the backoff. */
  lemma DelayIsBounded(key: RetryKey, given: EvictionPolicy, seconds: Option<int>, hash: RetryKey -> nat)
    ensures var p := given.Normalized();
            var delay := BlockedRetryDelay(key, p, seconds, hash);
            && 0 < RetryFloor(p, seconds) <= delay <= RetryFloor(p, seconds) + p.retryJitter
            && p.retryJitter <= p.retryBackoff
            && (given.retryJitter >= 0 ==> p.retryJitter <= given.retryJitter)
  {
    var p := given.Normalized();
    NormalizedIsUsable(given, true);
    assert given.retryJitter >= 0 ==> p.retryJitter <= given.retryJitter;
    hide EvictionPolicy.Normalized;
  }

  /** The delay is the floor and an offset of the key's own, among all those up to the jitter. */
  lemma DelayIsFloorAndOffset(key: RetryKey, given: EvictionPolicy, seconds: Option<int>, hash: RetryKey -> nat)
    ensures var p := given.Normalized();
            && p.retryJitter >= 0
            && BlockedRetryDelay(key, p, seconds, hash) == RetryFloor(p, seconds) + hash(key) % (p.retryJitter + 1)
  {
    NormalizedIsUsable(given, true);
    hide EvictionPolicy.Normalized;
  }
}
