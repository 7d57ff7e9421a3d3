/** What the balancing walk guarantees, and what it does not: it keeps a
    newest-first prefix, split into two date-ordered buckets, and stops when
    ONE bucket reaches the limit, so the other bucket always falls short. */
module BalanceProperties {
  import opened Wrappers
  import opened Entities
  import opened Selections

  /** A newest-first list stays newest-first when an element no newer than
      all of it is appended. */
  lemma DescendingAppend(s: seq<PhotoSelection>, x: PhotoSelection)
    requires Descending(s)
    requires forall y :: y in s ==> Date(y) >= Date(x)
    ensures Descending(s + [x])
  {
    var t := s + [x];
    forall i, j | 0 <= i < j < |t|
      ensures Date(t[i]) >= Date(t[j])
    {
      if j == |s| {
        assert t[i] in s;
      }
    }
  }

  /** Prefixes of a newest-first list are newest-first. */
  lemma DescendingPrefix(s: seq<PhotoSelection>, n: nat)
    requires Descending(s) && n <= |s|
    ensures Descending(s[..n])
  {
  }

  /** Each class of a newest-first list is newest-first. */
  lemma {:induction false} ClassesKeepOrder(t: seq<PhotoSelection>)
    requires Descending(t)
    ensures Descending(SelectedOf(t))
    ensures Descending(NotSelectedOf(t))
  {
    if |t| > 0 {
      var t', x := t[..|t| - 1], t[|t| - 1];
      DescendingPrefix(t, |t| - 1);
      ClassesKeepOrder(t');
      ClassMembers(t');
      forall y | y in t'
        ensures Date(y) >= Date(x)
      {
        var i :| 0 <= i < |t'| && t'[i] == y;
      }
      if x.isSelected {
        DescendingAppend(SelectedOf(t'), x);
      } else {
        DescendingAppend(NotSelectedOf(t'), x);
      }
    }
  }

  /** The balanced set is a rearrangement of the shortest newest-first prefix
      in which some class reaches `limit` (or of the whole list when none
      does), so every photo kept is at least as recent as every photo
      dropped. */
  lemma BalanceKeepsNewestPrefix(s: seq<PhotoSelection>, limit: int)
    ensures multiset(Balance(s, limit)) == multiset(KeptPrefix(s, limit))
    ensures KeptPrefix(s, limit) == s[..|KeptPrefix(s, limit)|]
    ensures |KeptPrefix(s, limit)| == |s| || LimitReached(KeptPrefix(s, limit), limit)
    ensures forall m :: 0 < m < |KeptPrefix(s, limit)| ==> !LimitReached(s[..m], limit)
    ensures |s| > 0 ==> |KeptPrefix(s, limit)| > 0
    ensures Descending(s) ==>
              forall x, j :: x in Balance(s, limit) && |KeptPrefix(s, limit)| <= j < |s| ==> Date(x) >= Date(s[j])
  {
    var n := StopIndex(s, limit, 0);
    var t := KeptPrefix(s, limit);
    ClassesPartition(t);
    if Descending(s) {
      forall x, j | x in Balance(s, limit) && n <= j < |s|
        ensures Date(x) >= Date(s[j])
      {
        assert x in multiset(t);
        var i :| 0 <= i < |t| && t[i] == x;
      }
    }
  }

  /** The two buckets of the balanced set each hold only their own class,
      newest-first. */
  lemma BucketsInDateOrder(s: seq<PhotoSelection>, limit: int)
    requires Descending(s)
    ensures forall x :: x in SelectedOf(KeptPrefix(s, limit)) ==> x.isSelected
    ensures forall x :: x in NotSelectedOf(KeptPrefix(s, limit)) ==> !x.isSelected
    ensures Descending(SelectedOf(KeptPrefix(s, limit)))
    ensures Descending(NotSelectedOf(KeptPrefix(s, limit)))
  {
    var t := KeptPrefix(s, limit);
    DescendingPrefix(s, |t|);
    ClassesKeepOrder(t);
    ClassMembers(t);
  }

  /** With the limit set to the smaller class count, exactly one condition
      ends the walk: some bucket reaches the limit. The step that stops the
      walk adds to that bucket alone, and both were below the limit before
      it, so the other bucket always ends short of the limit: the balanced
      set never holds the limit of both classes. */
  lemma OneBucketReachesLimit(s: seq<PhotoSelection>, limit: int)
    requires limit == Min(|SelectedOf(s)|, |NotSelectedOf(s)|) && limit >= 1
    ensures |SelectedOf(KeptPrefix(s, limit))| == limit || |NotSelectedOf(KeptPrefix(s, limit))| == limit
    ensures |SelectedOf(KeptPrefix(s, limit))| < limit || |NotSelectedOf(KeptPrefix(s, limit))| < limit
    ensures |SelectedOf(KeptPrefix(s, limit))| <= limit
    ensures |NotSelectedOf(KeptPrefix(s, limit))| <= limit
    ensures limit <= |Balance(s, limit)| < 2 * limit
  {
    var n := StopIndex(s, limit, 0);
    ClassesPartition(s);
    assert n > 0;
    assert LimitReached(s[..n], limit);
    if n - 1 == 0 {
      assert s[..0] == [];
    }
    assert !LimitReached(s[..n - 1], limit);
    OneMore(s, n - 1);
  }

  /** The balanced set holds as many photos of each class as the walked
      prefix does. */
  lemma BalanceClassCounts(s: seq<PhotoSelection>, limit: int)
    ensures SelectedOf(Balance(s, limit)) == SelectedOf(KeptPrefix(s, limit))
    ensures NotSelectedOf(Balance(s, limit)) == NotSelectedOf(KeptPrefix(s, limit))
  {
    var t := KeptPrefix(s, limit);
    var a, b := SelectedOf(t), NotSelectedOf(t);
    ClassMembers(t);
    assert forall i :: 0 <= i < |a| ==> a[i] in a;
    assert forall i :: 0 <= i < |b| ==> b[i] in b;
    OnlySelected(a);
    OnlyNotSelected(b);
    ClassesOfConcat(a, b);
  }

  /** A list holding only not-selected photos is its own not-selected class. */
  lemma {:induction false} OnlyNotSelected(a: seq<PhotoSelection>)
    requires forall i :: 0 <= i < |a| ==> !a[i].isSelected
    ensures SelectedOf(a) == [] && NotSelectedOf(a) == a
  {
    if |a| > 0 {
      var a', x := a[..|a| - 1], a[|a| - 1];
      OnlyNotSelected(a');
      SplitLast(a);
      ClassesSnoc(a', x);
    }
  }

  /** A list holding only selected photos is its own selected class. */
  lemma {:induction false} OnlySelected(b: seq<PhotoSelection>)
    requires forall i :: 0 <= i < |b| ==> b[i].isSelected
    ensures SelectedOf(b) == b && NotSelectedOf(b) == []
  {
    if |b| > 0 {
      var b', x := b[..|b| - 1], b[|b| - 1];
      OnlySelected(b');
      SplitLast(b);
      ClassesSnoc(b', x);
    }
  }

  /** While only not-selected photos have been walked, the walk goes on until
      it has taken `limit` of them. */
  lemma {:induction false} WalkThroughNewerMajority(a: seq<PhotoSelection>, b: seq<PhotoSelection>, i: nat)
    requires forall x :: x in a ==> !x.isSelected
    requires i < |a|
    ensures StopIndex(a + b, |a|, i) == |a|
    decreases |a| - i
  {
    var s := a + b;
    assert s[..i + 1] == a[..i + 1];
    OnlyNotSelected(a[..i + 1]);
    if i + 1 < |a| {
      assert !LimitReached(s[..i + 1], |a|);
      WalkThroughNewerMajority(a, b, i + 1);
    }
  }

  /** The walk can starve the minority class entirely: when the `k` newest
      photos are all not selected and the `k` selected ones are older, the
      limit is `k` yet the balanced set is the `k` not-selected photos alone,
      with no selected photo at all (so the two classes need not come out
      equal in size). */
  lemma NewerMajorityStarvesMinority(a: seq<PhotoSelection>, b: seq<PhotoSelection>)
    requires |a| == |b| >= 1
    requires forall x :: x in a ==> !x.isSelected
    requires forall x :: x in b ==> x.isSelected
    ensures GateLimit(a + b) == |a|
    ensures Balance(a + b, |a|) == a
    ensures |SelectedOf(Balance(a + b, |a|))| == 0
  {
    assert forall i :: 0 <= i < |a| ==> a[i] in a;
    assert forall i :: 0 <= i < |b| ==> b[i] in b;
    OnlyNotSelected(a);
    OnlySelected(b);
    NewerMajorityLimit(a, b);
    NewerMajorityBalance(a, b);
  }

  /** The limit of a list of `|a|` not-selected photos followed by `|a|`
      selected ones is `|a|`. */
  lemma NewerMajorityLimit(a: seq<PhotoSelection>, b: seq<PhotoSelection>)
    requires |a| == |b|
    requires SelectedOf(a) == [] && NotSelectedOf(a) == a
    requires SelectedOf(b) == b && NotSelectedOf(b) == []
    ensures GateLimit(a + b) == |a|
  {
    ClassesOfConcat(a, b);
  }

  /** The walk over such a list keeps exactly the not-selected photos. */
  lemma NewerMajorityBalance(a: seq<PhotoSelection>, b: seq<PhotoSelection>)
    requires |a| >= 1
    requires forall x :: x in a ==> !x.isSelected
    requires SelectedOf(a) == [] && NotSelectedOf(a) == a
    ensures Balance(a + b, |a|) == a
  {
    WalkThroughNewerMajority(a, b, 0);
    assert (a + b)[..|a|] == a;
  }
}
