/** The strongest protection wins, whatever order the enrollments are listed in. */
module ProtectionLaws {
  import opened Clock
  import opened Enrollments
  import opened Protection

  // --- The order of the list ----------------------------------------------------------

  lemma {:induction false} StringOrder(a: string, b: string)
    ensures !(StringLess(a, b) && StringLess(b, a))
    ensures a == b <==> !StringLess(a, b) && !StringLess(b, a)
  {
    if a != [] && b != [] {
      StringOrder(a[1..], b[1..]);
      assert a == [a[0]] + a[1..] && b == [b[0]] + b[1..];
    }
  }

  lemma {:induction false} StringLessIsTransitive(a: string, b: string, c: string)
    requires StringLess(a, b) && StringLess(b, c)
    ensures StringLess(a, c)
  {
    if a != [] && a[0] == b[0] == c[0] {
      StringLessIsTransitive(a[1..], b[1..], c[1..]);
    }
  }

  lemma BeforeIsStrictOrder(a: Enrollment, b: Enrollment)
    ensures !(Before(a, b) && Before(b, a))
    ensures SameKey(a, b) <==> !Before(a, b) && !Before(b, a)
  {
    StringOrder(a.namespace, b.namespace);
    StringOrder(a.name, b.name);
    hide StringLess;
  }

  lemma BeforeIsTransitive(a: Enrollment, b: Enrollment, c: Enrollment)
    requires Before(a, b) && Before(b, c)
    ensures Before(a, c)
  {
    if a.namespace != b.namespace && b.namespace != c.namespace {
      StringLessIsTransitive(a.namespace, b.namespace, c.namespace);
      StringOrder(a.namespace, b.namespace);
    } else if a.namespace == b.namespace == c.namespace {
      StringLessIsTransitive(a.name, b.name, c.name);
    }
    hide StringLess;
  }

  /** a comes first in the dictionary: it is a part of b from the front, or smaller where they first differ. */
  ghost predicate Precedes(a: string, b: string) {
    exists k: nat | k <= |a| && k < |b| :: a[..k] == b[..k] && (k == |a| || a[k] < b[k])
  }

  lemma FrontsAgree(a: string, b: string, k: nat)
    requires 0 < k <= |a| && k <= |b| && a[..k] == b[..k]
    ensures a[0] == b[0]
  {
    assert a[0] == a[..k][0] == b[..k][0];
  }

  lemma {:induction false} StringLessIsDictionary(a: string, b: string)
    ensures StringLess(a, b) <==> Precedes(a, b)
  {
    if a != [] && b != [] {
      var x, y := a[1..], b[1..];
      StringLessIsDictionary(x, y);
      if StringLess(a, b) && a[0] == b[0] {
        var k: nat :| k <= |x| && k < |y| && x[..k] == y[..k] && (k == |x| || x[k] < y[k]);
        assert a[..k + 1] == [a[0]] + x[..k] && b[..k + 1] == [b[0]] + y[..k];
      }
      if Precedes(a, b) && a[0] == b[0] {
        var k: nat :| k <= |a| && k < |b| && a[..k] == b[..k] && (k == |a| || a[k] < b[k]);
        assert k > 0;
        assert x[..k - 1] == a[..k][1..] && y[..k - 1] == b[..k][1..];
      }
      if Precedes(a, b) && a[0] != b[0] {
        var k: nat :| k <= |a| && k < |b| && a[..k] == b[..k] && (k == |a| || a[k] < b[k]);
        if k > 0 {
          FrontsAgree(a, b, k);
        }
      }
      if a[0] < b[0] {
        assert a[..0] == b[..0];
      }
    } else if b != [] {
      assert a[..0] == b[..0];
    }
  }

  /** An earlier namespace, or an earlier name in the same one. */
  ghost predicate Earlier(a: Enrollment, b: Enrollment) {
    Precedes(a.namespace, b.namespace) || (a.namespace == b.namespace && Precedes(a.name, b.name))
  }

  lemma BeforeIsEarlier(a: Enrollment, b: Enrollment)
    ensures Before(a, b) <==> Earlier(a, b)
  {
    StringLessIsDictionary(a.namespace, b.namespace);
    StringLessIsDictionary(a.name, b.name);
    StringOrder(a.namespace, b.namespace);
    hide StringLess, Precedes;
  }

  /** The key of an enrollment is unique in a list of a cluster's objects. */
  ghost predicate DistinctKeys(items: seq<Enrollment>) {
    forall i, j | 0 <= i < j < |items| :: !SameKey(items[i], items[j])
  }

  ghost predicate InOrder(items: seq<Enrollment>) {
    forall i, j | 0 <= i < j < |items| :: Before(items[i], items[j])
  }

  lemma {:induction false} InsertKeepsItems(e: Enrollment, sorted: seq<Enrollment>)
    ensures multiset(Insert(e, sorted)) == multiset(sorted) + multiset{e}
  {
    if sorted != [] && !Before(e, sorted[0]) {
      InsertKeepsItems(e, sorted[1..]);
      assert sorted == [sorted[0]] + sorted[1..];
    }
  }

  lemma {:induction false} InsertKeepsOrder(e: Enrollment, sorted: seq<Enrollment>)
    requires InOrder(sorted) && forall x | x in sorted :: !SameKey(e, x)
    ensures InOrder(Insert(e, sorted))
  {
    hide Before, SameKey;
    if sorted != [] {
      BeforeIsStrictOrder(e, sorted[0]);
      if Before(e, sorted[0]) {
        forall i | 0 < i < |sorted|
          ensures Before(e, sorted[i])
        {
          BeforeIsTransitive(e, sorted[0], sorted[i]);
        }
      } else {
        var rest := Insert(e, sorted[1..]);
        InsertKeepsOrder(e, sorted[1..]);
        InsertKeepsItems(e, sorted[1..]);
        forall x | x in rest
          ensures Before(sorted[0], x)
        {
          assert x in multiset(rest);
          assert x == e || x in sorted[1..];
        }
      }
    }
  }

  lemma {:induction false} SortedKeepsItems(items: seq<Enrollment>)
    ensures multiset(Sorted(items)) == multiset(items)
  {
    if items != [] {
      SortedKeepsItems(items[1..]);
      InsertKeepsItems(items[0], Sorted(items[1..]));
      assert items == [items[0]] + items[1..];
    }
  }

  lemma {:induction false} SortedIsInOrder(items: seq<Enrollment>)
    requires DistinctKeys(items)
    ensures InOrder(Sorted(items))
  {
    hide Before, SameKey;
    if items != [] {
      SortedIsInOrder(items[1..]);
      SortedKeepsItems(items[1..]);
      forall x | x in Sorted(items[1..])
        ensures !SameKey(items[0], x)
      {
        assert x in multiset(items[1..]);
        assert x in items[1..];
      }
      InsertKeepsOrder(items[0], Sorted(items[1..]));
    }
  }

  /** An ordered list is determined by what it holds. */
  lemma {:induction false} OrderedListsAgree(a: seq<Enrollment>, b: seq<Enrollment>)
    requires InOrder(a) && InOrder(b) && multiset(a) == multiset(b)
    ensures a == b
  {
    if a == [] {
      assert |multiset(b)| == 0;
    } else {
      assert a[0] in multiset(b);
      assert b[0] in multiset(a) by {
        assert |multiset(b)| == |multiset(a)| > 0;
      }
      if a[0] != b[0] {
        BeforeIsStrictOrder(a[0], b[0]);
      }
      hide Before;
      assert a[0] == b[0];
      assert a == [a[0]] + a[1..] && b == [b[0]] + b[1..];
      assert multiset(a[1..]) == multiset(a) - multiset{a[0]};
      assert multiset(b[1..]) == multiset(b) - multiset{b[0]};
      OrderedListsAgree(a[1..], b[1..]);
    }
  }

  /** The protection of a node does not depend on the order in which its enrollments are listed. */
  lemma ProtectionIgnoresListOrder(p: TaintPolicy, a: seq<Enrollment>, b: seq<Enrollment>, node: string, now: Time)
    requires DistinctKeys(a) && DistinctKeys(b) && multiset(a) == multiset(b)
    ensures Protect(p, a, node, now) == Protect(p, b, node, now)
  {
    SortedIsInOrder(a);
    SortedIsInOrder(b);
    SortedKeepsItems(a);
    SortedKeepsItems(b);
    hide InOrder;
    OrderedListsAgree(Sorted(a), Sorted(b));
  }
}
