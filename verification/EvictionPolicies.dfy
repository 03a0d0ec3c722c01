/** Eviction settings and their conservative defaults. */
module EvictionPolicies {
  import opened Clock
  import opened Texts

  datatype EvictionBudget = EvictionBudget(
    perNode: int,
    global: int,
    interval: Duration,
    burstPerNode: int,
    burstGlobal: int)
  {
    function Normalized(count: int, fallback: Duration): EvictionBudget {
      var n := if perNode <= 0 then count else perNode;
      var g := if global <= 0 then n else global;
      EvictionBudget(
        n,
        g,
        if interval <= 0 then fallback else interval,
        if burstPerNode <= 0 then n else burstPerNode,
        if burstGlobal <= 0 then g else burstGlobal)
    }

    predicate Positive() {
      perNode > 0 && global > 0 && interval > 0 && burstPerNode > 0 && burstGlobal > 0
    }
  }

  const DEFAULT_EVICTABLE_LABEL := "interactive-node-controller.io/evictable"

  datatype EvictionPolicy = EvictionPolicy(
    enabled: bool,
    audit: bool,
    protectedNamespaces: set<string>,
    maxPerReconcile: int,
    budgetInterval: Duration,
    retryBackoff: Duration,
    retryJitter: Duration,
    evictableLabel: string,
    standardBudget: EvictionBudget,
    lossyBudget: EvictionBudget)
  {
    function Normalized(): EvictionPolicy {
      var count := if maxPerReconcile <= 0 then 1 else maxPerReconcile;
      var fallback := if budgetInterval <= 0 then MINUTE else budgetInterval;
      var backoff := if retryBackoff <= 0 then 30 * SECOND else retryBackoff;
      var jitter := if retryJitter < 0 then 0 else retryJitter;
      this.(maxPerReconcile := count,
            budgetInterval := fallback,
            retryBackoff := backoff,
            retryJitter := if jitter > backoff then backoff else jitter,
            evictableLabel := if IsBlank(evictableLabel) then DEFAULT_EVICTABLE_LABEL else evictableLabel,
            standardBudget := standardBudget.Normalized(count, fallback),
            lossyBudget := lossyBudget.Normalized(count, fallback))
    }

    /** The allowance of one workload class. */
    function Budget(lossy: bool): EvictionBudget {
      if lossy then lossyBudget else standardBudget
    }
  }

  /** Normalizing makes every allowance usable, keeps every explicit field, and is stable. */
  lemma NormalizedIsUsable(p: EvictionPolicy, lossy: bool)
    ensures var n, given := p.Normalized().Budget(lossy), p.Budget(lossy);
            && n.Positive()
            && (given.perNode > 0 ==> n.perNode == given.perNode)
            && (given.global > 0 ==> n.global == given.global)
            && (given.interval > 0 ==> n.interval == given.interval)
            && (given.burstPerNode > 0 ==> n.burstPerNode == given.burstPerNode)
            && (given.burstGlobal > 0 ==> n.burstGlobal == given.burstGlobal)
            && (given.burstPerNode <= 0 ==> n.burstPerNode == n.perNode)
            && (given.burstGlobal <= 0 ==> n.burstGlobal == n.global)
            && (given.global <= 0 ==> n.global == n.perNode)
    ensures 0 <= p.Normalized().retryJitter <= p.Normalized().retryBackoff
    ensures p.Normalized().retryBackoff > 0
    ensures p.Normalized().Normalized() == p.Normalized()
  {
    if IsBlank(p.evictableLabel) {
      assert !IsSpace(DEFAULT_EVICTABLE_LABEL[0]);
      assert DEFAULT_EVICTABLE_LABEL[0] in DEFAULT_EVICTABLE_LABEL;
    }
  }

  /** An explicit setting, or what it inherits. */
  function Given(explicit: int, inherited: int): int {
    if explicit > 0 then explicit else inherited
  }

  predicate Inherits(n: EvictionBudget, given: EvictionBudget, count: int, interval: Duration) {
    && n.perNode == Given(given.perNode, count)
    && n.global == Given(given.global, n.perNode)
    && n.interval == Given(given.interval, interval)
    && n.burstPerNode == Given(given.burstPerNode, n.perNode)
    && n.burstGlobal == Given(given.burstGlobal, n.global)
  }

  /** Where each setting comes from: its class, then the whole policy, then the defaults. */
  lemma SettingsAreInherited(p: EvictionPolicy)
    ensures var n := p.Normalized();
            var count, interval := Given(p.maxPerReconcile, 1), Given(p.budgetInterval, 60_000_000_000);
            && Inherits(n.standardBudget, p.standardBudget, count, interval)
            && Inherits(n.lossyBudget, p.lossyBudget, count, interval)
            && n.retryBackoff == Given(p.retryBackoff, 30_000_000_000)
            && n.retryJitter == (if p.retryJitter <= 0 then 0 else if p.retryJitter < n.retryBackoff then p.retryJitter else n.retryBackoff)
            && n.evictableLabel == (if TrimSpace(p.evictableLabel) == "" then DEFAULT_EVICTABLE_LABEL else p.evictableLabel)
            && n.enabled == p.enabled && n.audit == p.audit && n.protectedNamespaces == p.protectedNamespaces
  {
    BlankIsTrimmedAway(p.evictableLabel);
    hide TrimSpace, IsBlank;
  }
}
