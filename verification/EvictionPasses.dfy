/**
 One eviction pass over the Pods of a node: gates, retry deadlines, budgets, and API answers.
 The deadlines and the budgets outlive the pass and are shared by every node.
 */
module EvictionPasses {
  import opened Clock
  import opened Outcomes
  import opened Names
  import opened EvictionPolicies
  import opened EvictionBudgets
  import opened Enrollments
  import opened EvictionMatrix
  import opened Pods
  import opened PodGate
  import opened EvictionRetries

  // --- The summary of a pass ---------------------------------------------------------------

  datatype Blocker = NoBlocker | RetryBackoff | PodGone | EvictionConflict | ApiError | PdbBlocked

  function BlockerRank(b: Blocker): nat {
    match b
    case NoBlocker => 0
    case RetryBackoff => 1
    case PodGone => 2
    case EvictionConflict => 3
    case ApiError => 4
    case PdbBlocked => 5
  }

  datatype Outcome = NoOutcome | Disabled | AuditOnly | Inactive | NoEligible | BlockedOutcome | BudgetWaiting | Completed

  datatype Summary = Summary(
    audited: nat, attempted: nat, evicted: nat, skipped: nat, blocked: nat, deferred: nat,
    outcome: Outcome,
    blocker: Blocker,
    requeueAfter: Duration)
  {
    function Noting(b: Blocker): Summary {
      if BlockerRank(b) >= BlockerRank(blocker) then this.(blocker := b) else this
    }

    function Retrying(delay: Duration): Summary {
      if delay > 0 && (requeueAfter <= 0 || delay < requeueAfter) then this.(requeueAfter := delay) else this
    }

    function Classified(): Summary {
      this.(outcome :=
        if blocked > 0 then BlockedOutcome
        else if deferred > 0 then BudgetWaiting
        else if attempted > 0 then Completed
        else if audited > 0 then AuditOnly
        else NoEligible)
    }
  }

  const NO_SUMMARY := Summary(0, 0, 0, 0, 0, 0, NoOutcome, NoBlocker, 0)

  class EvictionSummary {
    var audited: nat
    var attempted: nat
    var evicted: nat
    var skipped: nat
    var blocked: nat
    var deferred: nat
    var outcome: Outcome
    var blocker: Blocker
    var requeueAfter: Duration

    constructor ()
      ensures Value() == NO_SUMMARY
    {
      audited, attempted, evicted, skipped, blocked, deferred := 0, 0, 0, 0, 0, 0;
      outcome, blocker, requeueAfter := NoOutcome, NoBlocker, 0;
    }

    function Value(): Summary
      reads this
    {
      Summary(audited, attempted, evicted, skipped, blocked, deferred, outcome, blocker, requeueAfter)
    }

    method NoteBlocker(b: Blocker)
      modifies this
      ensures Value() == old(Value()).Noting(b)
    {
      if BlockerRank(b) >= BlockerRank(blocker) {
        blocker := b;
      }
    }

    method RetryAfter(delay: Duration)
      modifies this
      ensures Value() == old(Value()).Retrying(delay)
    {
      if delay > 0 && (requeueAfter <= 0 || delay < requeueAfter) {
        requeueAfter := delay;
      }
    }

    method Classify()
      modifies this
      ensures Value() == old(Value()).Classified()
    {
      if blocked > 0 {
        outcome := BlockedOutcome;
      } else if deferred > 0 {
        outcome := BudgetWaiting;
      } else if attempted > 0 {
        outcome := Completed;
      } else if audited > 0 {
        outcome := AuditOnly;
      } else {
        outcome := NoEligible;
      }
    }
  }

  // --- One Pod ----------------------------------------------------------------------------

  datatype ApiReason = TooManyRequests | Conflict | NotFound | OtherReason

  /** What the API answers to an eviction request, with the seconds it suggests to wait. */
  datatype Answer = Accepted | Rejected(reason: ApiReason, seconds: Option<int>)

  function BlockerOf(reason: ApiReason): Blocker {
    match reason
    case TooManyRequests => PdbBlocked
    case Conflict => EvictionConflict
    case NotFound => PodGone
    case OtherReason => ApiError
  }

  /** A listed Pod, with the answer the API gives if this pass asks for its eviction. */
  datatype Listed = Listed(pod: Pod, answer: Answer)

  /** What a pass works with. The policy is normalized. */
  datatype Setting = Setting(
    node: NodeName,
    evicts: Class,
    now: Time,
    policy: EvictionPolicy,
    storage: Storage,
    hasEvictor: bool,
    hash: RetryKey -> nat)
  {
    predicate Considers(pod: Pod) {
      pod.nodeName == node.text && (evicts == GameEviction || (evicts == LossyOnly && pod.AllowsLossy()))
    }

    predicate OnlyAudits() {
      policy.audit || !policy.enabled || !hasEvictor
    }
  }

  /** What becomes of a Pod in one pass. */
  datatype Fate =
    | NotConsidered
    | Skipped(refusal: Refusal)
    | Audited
    | BackingOff(remaining: Duration)
    | NoIdentity
    | RateLimited(wait: Duration)
    | Evicted
    | Refused(blocker: Blocker, delay: Duration)
  {
    /** A request went to the API. */
    predicate Asked() {
      Evicted? || Refused?
    }

    /** A budget was called. */
    predicate Spends() {
      Asked() || RateLimited?
    }
  }

  function FateOf(s: Setting, deadlines: Deadlines, budgets: Budgets, l: Listed): Fate {
    if !s.Considers(l.pod) then NotConsidered
    else
      var held := HeldFate(s, deadlines, l.pod);
      if held != NotConsidered then held else FateOfSpending(s, budgets, l)
  }

  /** What becomes of a considered Pod that is not asked about, or else NotConsidered. */
  function HeldFate(s: Setting, deadlines: Deadlines, pod: Pod): Fate {
    var remaining := Remaining(deadlines, KeyOf(s.node, pod), s.now);
    var refusal := Gate(pod, s.storage, s.policy, pod.AllowsLossy());
    if refusal.Some? then Skipped(refusal.value)
    else if s.OnlyAudits() then Audited
    else if remaining > 0 then BackingOff(remaining)
    else if pod.uid == "" || pod.resourceVersion == "" then NoIdentity
    else NotConsidered
  }

  /** What becomes of a Pod that may be evicted now. */
  function FateOfSpending(s: Setting, budgets: Budgets, l: Listed): Fate {
    var spend := Take(budgets, l.pod.AllowsLossy(), s.node, s.now, s.policy);
    if !spend.granted then RateLimited(spend.wait) else FateOfAnswer(s, l)
  }

  function FateOfAnswer(s: Setting, l: Listed): Fate {
    match l.answer
    case Accepted => Evicted
    case Rejected(reason, seconds) =>
      Refused(BlockerOf(reason), BlockedRetryDelay(KeyOf(s.node, l.pod), s.policy, seconds, s.hash))
  }

  /** What a pass changes. */
  datatype PassState = PassState(deadlines: Deadlines, budgets: Budgets, summary: Summary)

  function Counted(m: Summary, fate: Fate): Summary {
    match fate
    case NotConsidered => m
    case Skipped(_) => m.(skipped := m.skipped + 1)
    case Audited => m.(audited := m.audited + 1)
    case BackingOff(remaining) => m.(blocked := m.blocked + 1).Noting(RetryBackoff).Retrying(remaining)
    case NoIdentity => m.(skipped := m.skipped + 1)
    case RateLimited(wait) => m.(skipped := m.skipped + 1, deferred := m.deferred + 1).Retrying(wait)
    case Evicted => m.(attempted := m.attempted + 1, evicted := m.evicted + 1)
    case Refused(blocker, delay) =>
      m.(attempted := m.attempted + 1, blocked := m.blocked + 1).Noting(blocker).Retrying(delay)
  }

  function Deadlined(deadlines: Deadlines, key: RetryKey, now: Time, fate: Fate): Deadlines {
    match fate
    case Skipped(_) => deadlines - {key}
    case Audited => deadlines - {key}
    case Evicted => deadlines - {key}
    case Refused(_, delay) => deadlines[key := now + delay]
    case _ => deadlines
  }

  function Applied(s: Setting, st: PassState, l: Listed): PassState {
    AfterFate(s, st, l, FateOf(s, st.deadlines, st.budgets, l))
  }

  function SpentOn(s: Setting, st: PassState, l: Listed): PassState {
    AfterFate(s, st, l, FateOfSpending(s, st.budgets, l))
  }

  function AfterFate(s: Setting, st: PassState, l: Listed, fate: Fate): PassState {
    PassState(
      Deadlined(st.deadlines, KeyOf(s.node, l.pod), s.now, fate),
      if fate.Spends() then Take(st.budgets, l.pod.AllowsLossy(), s.node, s.now, s.policy).budgets else st.budgets,
      Counted(st.summary, fate))
  }

  /** The listed Pods, one after the other. */
  function Processed(s: Setting, st: PassState, listed: seq<Listed>): PassState
    decreases |listed|
  {
    if listed == [] then st else Processed(s, Applied(s, st, listed[0]), listed[1..])
  }

  method RecordAnswer(s: Setting, l: Listed, key: RetryKey, retries: EvictionRetries, summary: EvictionSummary)
    requires key == KeyOf(s.node, l.pod)
    modifies retries, summary
    ensures retries.deadlines == Deadlined(old(retries.deadlines), key, s.now, FateOfAnswer(s, l))
    ensures summary.Value() == Counted(old(summary.Value()), FateOfAnswer(s, l))
  {
    hide BlockedRetryDelay, Summary.Noting, Summary.Retrying, BlockerOf;
    summary.attempted := summary.attempted + 1;
    if l.answer.Rejected? {
      summary.blocked := summary.blocked + 1;
      summary.NoteBlocker(BlockerOf(l.answer.reason));
      var delay := BlockedRetryDelay(key, s.policy, l.answer.seconds, s.hash);
      retries.Block(key, s.now + delay);
      summary.RetryAfter(delay);
      return;
    }
    summary.evicted := summary.evicted + 1;
    retries.Forget(key);
  }

  /** Spends a token of both budgets, then asks the API. */
  method AskToEvict(
    s: Setting, l: Listed, key: RetryKey, retries: EvictionRetries, budgets: EvictionBudgets, summary: EvictionSummary)
    requires budgets.Valid() && retries !in budgets.Repr() && summary !in budgets.Repr()
    requires key == KeyOf(s.node, l.pod)
    modifies retries, summary, budgets.Repr()
    ensures budgets.Valid() && fresh(budgets.Repr() - old(budgets.Repr()))
    ensures PassState(retries.deadlines, budgets.Value(), summary.Value())
         == SpentOn(s, PassState(old(retries.deadlines), old(budgets.Value()), old(summary.Value())), l)
  {
    hide Take, BlockedRetryDelay, EvictionBudgets.Valid, Pod.AllowsLossy, Summary.Noting, Summary.Retrying;
    var granted, wait := budgets.TryTake(l.pod.AllowsLossy(), s.node, s.now, s.policy);
    if !granted {
      summary.skipped := summary.skipped + 1;
      summary.deferred := summary.deferred + 1;
      summary.RetryAfter(wait);
      return;
    }
    RecordAnswer(s, l, key, retries, summary);
  }

  /** Records a Pod that is not asked about: refused by a gate, audited, backing off, or unidentified. */
  method HoldBack(s: Setting, pod: Pod, key: RetryKey, retries: EvictionRetries, summary: EvictionSummary)
    returns (held: bool)
    requires key == KeyOf(s.node, pod)
    modifies retries, summary
    ensures held <==> HeldFate(s, old(retries.deadlines), pod) != NotConsidered
    ensures retries.deadlines == Deadlined(old(retries.deadlines), key, s.now, HeldFate(s, old(retries.deadlines), pod))
    ensures summary.Value() == Counted(old(summary.Value()), HeldFate(s, old(retries.deadlines), pod))
  {
    hide Gate, Pod.AllowsLossy, Remaining, Summary.Noting, Summary.Retrying;
    var refusal := EvictionDecision(pod, s.storage, s.policy);
    if refusal.Some? {
      retries.Forget(key);
      summary.skipped := summary.skipped + 1;
      return true;
    }
    if s.policy.audit || !s.policy.enabled || !s.hasEvictor {
      retries.Forget(key);
      summary.audited := summary.audited + 1;
      return true;
    }
    var remaining := Remaining(retries.deadlines, key, s.now);
    if remaining > 0 {
      summary.blocked := summary.blocked + 1;
      summary.NoteBlocker(RetryBackoff);
      summary.RetryAfter(remaining);
      return true;
    }
    if pod.uid == "" || pod.resourceVersion == "" {
      summary.skipped := summary.skipped + 1;
      return true;
    }
    return false;
  }

  method ConsiderPod(s: Setting, l: Listed, retries: EvictionRetries, budgets: EvictionBudgets, summary: EvictionSummary)
    requires budgets.Valid() && retries !in budgets.Repr() && summary !in budgets.Repr()
    modifies retries, summary, budgets.Repr()
    ensures budgets.Valid() && fresh(budgets.Repr() - old(budgets.Repr()))
    ensures PassState(retries.deadlines, budgets.Value(), summary.Value())
         == Applied(s, PassState(old(retries.deadlines), old(budgets.Value()), old(summary.Value())), l)
  {
    hide HeldFate, FateOfSpending, Take, EvictionBudgets.Valid, Pod.AllowsLossy, Summary.Noting, Summary.Retrying;
    var pod := l.pod;
    if pod.nodeName != s.node.text {
      return;
    }
    var allowLossy := pod.AllowsLossy();
    match s.evicts {
      case GameEviction =>
      case LossyOnly =>
        if !allowLossy {
          return;
        }
      case NoEviction =>
        return;
    }
    var key := KeyOf(s.node, pod);
    HeldSpendsNothing(s, retries.deadlines, pod);
    var held := HoldBack(s, pod, key, retries, summary);
    if !held {
      AskToEvict(s, l, key, retries, budgets, summary);
    }
  }

  lemma HeldSpendsNothing(s: Setting, deadlines: Deadlines, pod: Pod)
    ensures !HeldFate(s, deadlines, pod).Spends()
  {
  }

  // --- One pass -----------------------------------------------------------------------------

  /** What outlives a pass. */
  datatype Shared = Shared(deadlines: Deadlines, budgets: Budgets)

  /** One pass on a node: its class, its clock, and what the API shows. None is a failed list. */
  datatype Visit = Visit(
    node: NodeName,
    evicts: Class,
    now: Time,
    storage: Storage,
    hasEvictor: bool,
    listed: Option<seq<Listed>>)

  datatype PassResult = PassResult(shared: Shared, summary: Option<Summary>)

  function PodsOf(listed: seq<Listed>): seq<Pod> {
    seq(|listed|, i requires 0 <= i < |listed| => listed[i].pod)
  }

  function SettingOf(v: Visit, given: EvictionPolicy, hash: RetryKey -> nat): Setting {
    Setting(v.node, v.evicts, v.now, given.Normalized(), v.storage, v.hasEvictor, hash)
  }

  predicate IsOff(given: EvictionPolicy) {
    !given.Normalized().enabled && !given.Normalized().audit
  }

  /** The state in which a pass starts on its first Pod. */
  function Opened(w: Shared, v: Visit, listed: seq<Listed>): PassState {
    PassState(Pruned(w.deadlines, v.now, v.node, ListedKeys(v.node, PodsOf(listed))), w.budgets, NO_SUMMARY)
  }

  function Pass(w: Shared, v: Visit, given: EvictionPolicy, hash: RetryKey -> nat): PassResult {
    var cleared := w.(deadlines := Pruned(w.deadlines, v.now, v.node, ListedKeys(v.node, [])));
    if IsOff(given) then PassResult(cleared, Some(NO_SUMMARY.(outcome := Disabled)))
    else if v.evicts == NoEviction then PassResult(cleared, Some(NO_SUMMARY.(outcome := Inactive)))
    else if v.listed.None? then PassResult(w, None)
    else
      var st := Processed(SettingOf(v, given, hash), Opened(w, v, v.listed.value), v.listed.value);
      PassResult(Shared(st.deadlines, st.budgets), Some(st.summary.Classified()))
  }

  method ReconcileEvictions(
    given: EvictionPolicy, taintPolicy: TaintPolicy, e: Enrollment, taints: seq<Taint>, desired: Option<Taint>,
    v: Visit, hash: RetryKey -> nat, retries: EvictionRetries, budgets: EvictionBudgets)
    returns (result: Option<Summary>)
    requires budgets.Valid() && retries !in budgets.Repr()
    requires v.evicts == EvictionClass(taintPolicy, e, taints, desired, v.now)
    modifies retries, budgets.Repr()
    ensures budgets.Valid() && fresh(budgets.Repr() - old(budgets.Repr()))
    ensures PassResult(Shared(retries.deadlines, budgets.Value()), result)
         == Pass(Shared(old(retries.deadlines), old(budgets.Value())), v, given, hash)
  {
    hide EvictionClass, EvictionPolicy.Normalized, Pruned, Applied, EvictionBudgets.Valid;
    var policy := given.Normalized();
    var summary := new EvictionSummary();
    if !policy.enabled && !policy.audit {
      retries.Prune(v.now, v.node, []);
      return Some(NO_SUMMARY.(outcome := Disabled));
    }
    var evicts := EvictionClass(taintPolicy, e, taints, desired, v.now);
    if evicts == NoEviction {
      retries.Prune(v.now, v.node, []);
      return Some(NO_SUMMARY.(outcome := Inactive));
    }
    if v.listed.None? {
      return None;
    }
    var listed := v.listed.value;
    retries.Prune(v.now, v.node, PodsOf(listed));
    var s := Setting(v.node, evicts, v.now, policy, v.storage, v.hasEvictor, hash);
    ghost var start := PassState(retries.deadlines, budgets.Value(), summary.Value());
    for i := 0 to |listed|
      invariant budgets.Valid() && fresh(budgets.Repr() - old(budgets.Repr()))
      invariant retries !in budgets.Repr() && summary !in budgets.Repr()
      invariant Processed(s, start, listed)
             == Processed(s, PassState(retries.deadlines, budgets.Value(), summary.Value()), listed[i..])
    {
      ConsiderPod(s, listed[i], retries, budgets, summary);
      assert listed[i..][1..] == listed[i + 1..];
    }
    assert listed[|listed|..] == [];
    summary.Classify();
    return Some(summary.Value());
  }
}
