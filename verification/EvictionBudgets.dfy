/**
 Per-node and global buckets for the standard and the lossy class.
 `Budgets` is the value of all buckets, `EvictionBudgets` the object shared by every reconcile.
 */
module EvictionBudgets {
  import opened Clock
  import opened Int64Words
  import opened TokenBuckets
  import opened EvictionPolicies
  import opened Names

  /** The buckets of one class. A bucket that was never used is EMPTY_BUCKET. */
  datatype ClassBudget = ClassBudget(nodes: map<NodeName, Bucket>, global: Bucket) {
    function Node(node: NodeName): Bucket {
      if node in nodes then nodes[node] else EMPTY_BUCKET
    }
  }

  datatype Budgets = Budgets(standard: ClassBudget, lossy: ClassBudget) {
    function Class(isLossy: bool): ClassBudget {
      if isLossy then lossy else standard
    }

    function WithClass(isLossy: bool, c: ClassBudget): Budgets {
      if isLossy then this.(lossy := c) else this.(standard := c)
    }
  }

  const NO_BUDGETS := Budgets(ClassBudget(map[], EMPTY_BUCKET), ClassBudget(map[], EMPTY_BUCKET))

  datatype ClassSpend = ClassSpend(budget: ClassBudget, granted: bool, wait: Duration)

  datatype Spend = Spend(budgets: Budgets, granted: bool, wait: Duration)

  /** A bucket as a call at `now` finds it: reconfigured, then refilled. */
  function BucketAt(b: Bucket, count: int, capacity: int, interval: Duration, now: Time): Bucket {
    Refilled(Configured(b, count, capacity, interval), now)
  }

  function NodeBucketAt(c: ClassBudget, node: NodeName, now: Time, spec: EvictionBudget): Bucket {
    BucketAt(c.Node(node), spec.perNode, spec.burstPerNode, spec.interval, now)
  }

  function GlobalBucketAt(c: ClassBudget, now: Time, spec: EvictionBudget): Bucket {
    BucketAt(c.global, spec.global, spec.burstGlobal, spec.interval, now)
  }

  /** What a call leaves in the two buckets it looks at. */
  datatype PairSpend = PairSpend(node: Bucket, global: Bucket, granted: bool, wait: Duration)

  function SpendPair(nb: Bucket, gb: Bucket): PairSpend {
    if nb.tokens < 1 || gb.tokens < 1 then
      var wait := Max(WaitForOne(nb), WaitForOne(gb));
      PairSpend(nb, gb, false, if wait <= 0 then 1 else wait)
    else
      PairSpend(nb.(tokens := nb.tokens - 1), gb.(tokens := gb.tokens - 1), true, 0)
  }

  function TakeFrom(c: ClassBudget, node: NodeName, now: Time, spec: EvictionBudget): ClassSpend {
    var p := SpendPair(NodeBucketAt(c, node, now, spec), GlobalBucketAt(c, now, spec));
    ClassSpend(ClassBudget(c.nodes[node := p.node], p.global), p.granted, p.wait)
  }

  function Take(b: Budgets, isLossy: bool, node: NodeName, now: Time, policy: EvictionPolicy): Spend {
    var s := TakeFrom(b.Class(isLossy), node, now, policy.Budget(isLossy));
    Spend(b.WithClass(isLossy, s.budget), s.granted, s.wait)
  }

  /** The slots of one class: a bucket per node, and the global bucket once it is used. */
  class ClassBuckets {
    /** The value of every bucket. */
    ghost var Contents: ClassBudget
    ghost var Repr: set<object>

    var nodes: map<NodeName, TokenBucket>
    var global: TokenBucket?

    constructor ()
      ensures Valid() && fresh(Repr) && Contents == ClassBudget(map[], EMPTY_BUCKET)
    {
      nodes, global := map[], null;
      Contents, Repr := ClassBudget(map[], EMPTY_BUCKET), {this};
    }

    /** No bucket serves two nodes or both scopes. */
    ghost predicate Separate()
      reads this
    {
      && this in Repr
      && (forall n | n in nodes :: nodes[n] in Repr && nodes[n] != global)
      && (forall m, n | m in nodes && n in nodes && nodes[m] == nodes[n] :: m == n)
      && (global != null ==> global in Repr)
    }

    /** Each bucket holds its value. */
    ghost predicate Valid()
      reads this, Repr
      ensures Valid() ==> this in Repr
    {
      && Separate()
      && nodes.Keys == Contents.nodes.Keys
      && (forall n | n in nodes :: nodes[n].Value() == Contents.nodes[n])
      && (if global == null then Contents.global == EMPTY_BUCKET else global.Value() == Contents.global)
    }

    method NodeBucket(node: NodeName) returns (bucket: TokenBucket)
      requires Valid()
      modifies this
      ensures Valid()
      ensures fresh(Repr - old(Repr))
      ensures node in nodes && nodes[node] == bucket && global == old(global)
      ensures bucket.Value() == old(Contents).Node(node)
      ensures Contents.global == old(Contents).global
      ensures Contents.nodes == if node in old(Contents).nodes then old(Contents).nodes
                                else old(Contents).nodes[node := EMPTY_BUCKET]
    {
      hide TokenBucket.Value;
      if node in nodes {
        bucket := nodes[node];
      } else {
        bucket := new TokenBucket();
        nodes := nodes[node := bucket];
        Repr := Repr + {bucket};
        Contents := Contents.(nodes := Contents.nodes[node := EMPTY_BUCKET]);
      }
    }

    method GlobalBucket() returns (bucket: TokenBucket)
      requires Valid()
      modifies this
      ensures Valid()
      ensures fresh(Repr - old(Repr))
      ensures bucket == global && nodes == old(nodes) && Contents == old(Contents)
      ensures bucket.Value() == Contents.global
    {
      if global == null {
        global := new TokenBucket();
        Repr := Repr + {global};
      }
      bucket := global;
    }

    /** The two buckets of a call, created where this is their first use. */
    method Slots(node: NodeName) returns (nodeBucket: TokenBucket, globalBucket: TokenBucket)
      requires Valid()
      modifies this
      ensures Valid() && fresh(Repr - old(Repr))
      ensures node in nodes && nodes[node] == nodeBucket && global == globalBucket
      ensures nodeBucket.Value() == old(Contents).Node(node) && globalBucket.Value() == old(Contents).global
      ensures nodes.Keys == old(Contents).nodes.Keys + {node}
      ensures forall n | n in nodes && n != node :: nodes[n] != nodeBucket && nodes[n].Value() == old(Contents).nodes[n]
    {
      hide TokenBucket.Value;
      nodeBucket := NodeBucket(node);
      globalBucket := GlobalBucket();
    }

    /** Brings the value of one node's bucket and of the global one up to date. */
    ghost method Record(node: NodeName, before: map<NodeName, Bucket>)
      requires Separate() && node in nodes && global != null
      requires nodes.Keys == before.Keys + {node}
      requires forall n | n in nodes && n != node :: nodes[n].Value() == before[n]
      modifies this`Contents
      ensures Valid()
      ensures Contents == ClassBudget(before[node := nodes[node].Value()], global.Value())
    {
      hide TokenBucket.Value;
      Contents := ClassBudget(before[node := nodes[node].Value()], global.Value());
    }

    method TryTake(node: NodeName, now: Time, spec: EvictionBudget) returns (granted: bool, wait: Duration)
      requires Valid()
      modifies Repr
      ensures Valid() && fresh(Repr - old(Repr))
      ensures ClassSpend(Contents, granted, wait) == TakeFrom(old(Contents), node, now, spec)
    {
      hide BucketAt, SpendPair, TokenBucket.Value;
      ghost var before := Contents.nodes;
      var nodeBucket, globalBucket := Slots(node);
      granted, wait := SpendBoth(nodeBucket, globalBucket, now, spec);
      Record(node, before);
    }

    /** Refills a node's bucket and the global one, then spends a token of each or of neither. */
    static method SpendBoth(nodeBucket: TokenBucket, globalBucket: TokenBucket, now: Time, spec: EvictionBudget)
      returns (granted: bool, wait: Duration)
      requires nodeBucket != globalBucket
      modifies nodeBucket, globalBucket
      ensures PairSpend(nodeBucket.Value(), globalBucket.Value(), granted, wait) == SpendPair(
                BucketAt(old(nodeBucket.Value()), spec.perNode, spec.burstPerNode, spec.interval, now),
                BucketAt(old(globalBucket.Value()), spec.global, spec.burstGlobal, spec.interval, now))
    {
      hide Configured, Refilled, WaitForOne;
      nodeBucket.Configure(spec.perNode, spec.burstPerNode, spec.interval);
      globalBucket.Configure(spec.global, spec.burstGlobal, spec.interval);
      nodeBucket.Refill(now);
      globalBucket.Refill(now);
      if nodeBucket.tokens < 1 || globalBucket.tokens < 1 {
        wait := WaitForOne(nodeBucket.Value());
        var globalWait := WaitForOne(globalBucket.Value());
        if globalWait > wait {
          wait := globalWait;
        }
        if wait <= 0 {
          wait := 1;
        }
        granted := false;
      } else {
        nodeBucket.tokens := nodeBucket.tokens - 1;
        globalBucket.tokens := globalBucket.tokens - 1;
        granted, wait := true, 0;
      }
    }
  }

  class EvictionBudgets {
    const standard: ClassBuckets
    const lossy: ClassBuckets

    constructor ()
      ensures Valid() && fresh(Repr()) && Value() == NO_BUDGETS
    {
      standard := new ClassBuckets();
      lossy := new ClassBuckets();
    }

    ghost function Repr(): set<object>
      reads standard, lossy
    {
      standard.Repr + lossy.Repr
    }

    /** The two classes share no bucket. */
    ghost predicate Valid()
      reads standard, lossy, Repr()
    {
      standard.Repr !! lossy.Repr && standard.Valid() && lossy.Valid()
    }

    ghost function Value(): Budgets
      reads standard, lossy
    {
      Budgets(standard.Contents, lossy.Contents)
    }

    method TryTake(isLossy: bool, node: NodeName, now: Time, policy: EvictionPolicy)
      returns (granted: bool, wait: Duration)
      requires Valid()
      modifies Repr()
      ensures Valid() && fresh(Repr() - old(Repr()))
      ensures Spend(Value(), granted, wait) == Take(old(Value()), isLossy, node, now, policy)
      ensures !isLossy ==>
                && ClassSpend(standard.Contents, granted, wait) == TakeFrom(old(standard.Contents), node, now, policy.standardBudget)
                && lossy.Contents == old(lossy.Contents)
      ensures isLossy ==>
                && ClassSpend(lossy.Contents, granted, wait) == TakeFrom(old(lossy.Contents), node, now, policy.lossyBudget)
                && standard.Contents == old(standard.Contents)
    {
      var slot := if isLossy then lossy else standard;
      granted, wait := slot.TryTake(node, now, policy.Budget(isLossy));
    }
  }
}
