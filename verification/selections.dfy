/** Building the labelled training set: label every photo of the album's time
    span, gate on the smaller class count, and balance the classes by walking
    the photos newest first. */
module Selections {
  import opened Wrappers
  import opened Entities
  import opened Repositories

  /** Training needs at least this many photos of each class. */
  const MinimumPhotoSelectionCount: int := 20

  function Date(x: PhotoSelection): int
  {
    x.photo.creationDate
  }

  /* ---------------------------------------------------------------------- */
  /* Labelling                                                               */

  /** One selection per photo, in order, selected exactly when the photo's
      identifier is among the album's identifiers. */
  function LabelPhotos(photos: seq<Photo>, selectedLocalIdentifiers: seq<string>): (r: seq<PhotoSelection>)
    ensures |r| == |photos|
    ensures forall i :: 0 <= i < |photos| ==>
              r[i].photo == photos[i] && (r[i].isSelected <==> photos[i].localIdentifier in selectedLocalIdentifiers)
  {
    if |photos| == 0 then []
    else
      [PhotoSelection(photos[0], photos[0].localIdentifier in selectedLocalIdentifiers)]
      + LabelPhotos(photos[1..], selectedLocalIdentifiers)
  }

  /** `fetchPhotoSelections`: no time span gives no selections; otherwise the
      library's images taken within the span, labelled. */
  function FetchPhotoSelections(span: Option<(int, int)>, library: seq<Photo>, selectedLocalIdentifiers: seq<string>)
    : (r: seq<PhotoSelection>)
    ensures span.None? ==> r == []
    ensures forall x :: x in r ==>
              span.Some? && x.photo in library && x.photo.isImage && span.value.0 <= x.photo.creationDate <= span.value.1
              && (x.isSelected <==> x.photo.localIdentifier in selectedLocalIdentifiers)
    ensures span.Some? ==> forall p :: p in library && p.isImage && span.value.0 <= p.creationDate <= span.value.1 ==>
              PhotoSelection(p, p.localIdentifier in selectedLocalIdentifiers) in r
  {
    match span
    case None => []
    case Some((oldest, latest)) =>
      var photos := FetchPhotosInRange(library, oldest, latest);
      var r := LabelPhotos(photos, selectedLocalIdentifiers);
      assert forall x :: x in r ==> exists i :: 0 <= i < |r| && r[i] == x;
      assert forall p :: p in photos ==> exists i :: 0 <= i < |photos| && photos[i] == p;
      r
  }

  /* ---------------------------------------------------------------------- */
  /* The two classes                                                         */

  /** The selected elements, in order. */
  function SelectedOf(s: seq<PhotoSelection>): (r: seq<PhotoSelection>)
  {
    if |s| == 0 then []
    else SelectedOf(s[..|s| - 1]) + (if s[|s| - 1].isSelected then [s[|s| - 1]] else [])
  }

  /** The not-selected elements, in order. */
  function NotSelectedOf(s: seq<PhotoSelection>): (r: seq<PhotoSelection>)
  {
    if |s| == 0 then []
    else NotSelectedOf(s[..|s| - 1]) + (if !s[|s| - 1].isSelected then [s[|s| - 1]] else [])
  }

  /** Extending a list by one element extends exactly one class by it. */
  lemma OneMore(s: seq<PhotoSelection>, m: nat)
    requires m < |s|
    ensures SelectedOf(s[..m + 1]) == SelectedOf(s[..m]) + (if s[m].isSelected then [s[m]] else [])
    ensures NotSelectedOf(s[..m + 1]) == NotSelectedOf(s[..m]) + (if !s[m].isSelected then [s[m]] else [])
  {
    assert s[..m + 1][..m] == s[..m];
  }

  /** A non-empty list is its front followed by its last element. */
  lemma SplitLast(s: seq<PhotoSelection>)
    requires |s| > 0
    ensures s == s[..|s| - 1] + [s[|s| - 1]]
  {
  }

  /** Appending one element appends it to its own class only. */
  lemma ClassesSnoc(s: seq<PhotoSelection>, x: PhotoSelection)
    ensures SelectedOf(s + [x]) == SelectedOf(s) + (if x.isSelected then [x] else [])
    ensures NotSelectedOf(s + [x]) == NotSelectedOf(s) + (if x.isSelected then [] else [x])
  {
    assert (s + [x])[..|s|] == s;
  }

  /** Each class holds exactly the list's elements of that class. */
  lemma {:induction false} ClassMembers(s: seq<PhotoSelection>)
    ensures forall x :: x in SelectedOf(s) <==> x in s && x.isSelected
    ensures forall x :: x in NotSelectedOf(s) <==> x in s && !x.isSelected
  {
    if |s| > 0 {
      var s', x := s[..|s| - 1], s[|s| - 1];
      ClassMembers(s');
      SplitLast(s);
      ClassesSnoc(s', x);
    }
  }

  /** Splitting a list into its two classes loses and invents nothing. */
  lemma ClassesPartition(s: seq<PhotoSelection>)
    ensures multiset(SelectedOf(s)) + multiset(NotSelectedOf(s)) == multiset(s)
    ensures |SelectedOf(s)| + |NotSelectedOf(s)| == |s|
  {
    ClassesMultiset(s);
    assert |multiset(SelectedOf(s)) + multiset(NotSelectedOf(s))| == |multiset(s)|;
  }

  /** The multiset half of `ClassesPartition`, by induction on the list. */
  lemma {:induction false} ClassesMultiset(s: seq<PhotoSelection>)
    ensures multiset(SelectedOf(s)) + multiset(NotSelectedOf(s)) == multiset(s)
  {
    if |s| > 0 {
      ClassesMultiset(s[..|s| - 1]);
      SplitLast(s);
      PartitionSnoc(s[..|s| - 1], s[|s| - 1]);
    }
  }

  /** The induction step of `ClassesMultiset`. */
  lemma PartitionSnoc(s: seq<PhotoSelection>, x: PhotoSelection)
    requires multiset(SelectedOf(s)) + multiset(NotSelectedOf(s)) == multiset(s)
    ensures multiset(SelectedOf(s + [x])) + multiset(NotSelectedOf(s + [x])) == multiset(s + [x])
  {
    ClassesSnoc(s, x);
    var a, b := SelectedOf(s), NotSelectedOf(s);
    assert multiset(a + [x]) == multiset(a) + multiset{x};
    assert multiset(b + [x]) == multiset(b) + multiset{x};
    assert multiset(s + [x]) == multiset(s) + multiset{x};
  }

  /** Appending to the second of two lists appends to their concatenation. */
  lemma ConcatSnoc(a: seq<PhotoSelection>, b: seq<PhotoSelection>)
    requires |b| > 0
    ensures a + b == (a + b[..|b| - 1]) + [b[|b| - 1]]
  {
  }

  /** Taking a class distributes over concatenation. */
  lemma {:induction false} ClassesOfConcat(a: seq<PhotoSelection>, b: seq<PhotoSelection>)
    ensures SelectedOf(a + b) == SelectedOf(a) + SelectedOf(b)
    ensures NotSelectedOf(a + b) == NotSelectedOf(a) + NotSelectedOf(b)
  {
    if |b| > 0 {
      var b', x := b[..|b| - 1], b[|b| - 1];
      ClassesOfConcat(a, b');
      ConcatSnoc(a, b);
      SplitLast(b);
      ClassesSnoc(a + b', x);
      ClassesSnoc(b', x);
    } else {
      assert a + b == a;
    }
  }

  /** Lists holding the same elements hold the same number of each class. */
  lemma {:induction false} ClassCountsFollowMultiset(s: seq<PhotoSelection>, t: seq<PhotoSelection>)
    requires multiset(s) == multiset(t)
    ensures |SelectedOf(s)| == |SelectedOf(t)|
    ensures |NotSelectedOf(s)| == |NotSelectedOf(t)|
    decreases |s|
  {
    if |s| > 0 {
      var s', x := s[..|s| - 1], s[|s| - 1];
      var u, v := FindLast(s, t);
      ClassCountsFollowMultiset(s', u + v);
      CountsAroundOne(u, x, v);
      SplitLast(s);
      ClassesSnoc(s', x);
    } else {
      assert |t| == |multiset(t)| == 0;
    }
  }

  /** The last element of `s` occurs in any rearrangement `t`; removing it
      from both leaves rearrangements of each other. */
  lemma FindLast(s: seq<PhotoSelection>, t: seq<PhotoSelection>) returns (u: seq<PhotoSelection>, v: seq<PhotoSelection>)
    requires multiset(s) == multiset(t) && |s| > 0
    ensures t == u + [s[|s| - 1]] + v
    ensures multiset(s[..|s| - 1]) == multiset(u + v)
  {
    var s', x := s[..|s| - 1], s[|s| - 1];
    RemoveAt(s, |s| - 1);
    assert x in multiset(t);
    var i :| 0 <= i < |t| && t[i] == x;
    u, v := t[..i], t[i + 1..];
    RemoveAt(t, i);
    CancelOne(s', u + v, x);
  }

  /** Multisets that agree after adding the same element agree before. */
  lemma CancelOne(a: seq<PhotoSelection>, b: seq<PhotoSelection>, x: PhotoSelection)
    requires multiset(a) + multiset{x} == multiset(b) + multiset{x}
    ensures multiset(a) == multiset(b)
  {
    assert multiset(a) == multiset(a) + multiset{x} - multiset{x};
    assert multiset(b) == multiset(b) + multiset{x} - multiset{x};
  }

  /** Taking out the element at `i` leaves the rest, one fewer of it. */
  lemma RemoveAt(t: seq<PhotoSelection>, i: nat)
    requires i < |t|
    ensures t == t[..i] + [t[i]] + t[i + 1..]
    ensures multiset(t) == multiset(t[..i] + t[i + 1..]) + multiset{t[i]}
  {
    var u, x, v := t[..i], t[i], t[i + 1..];
    assert t == u + [x] + v;
    assert multiset(u + v) == multiset(u) + multiset(v);
  }

  /** Removing one element from a list lowers the count of its class by one. */
  lemma CountsAroundOne(u: seq<PhotoSelection>, x: PhotoSelection, v: seq<PhotoSelection>)
    ensures |SelectedOf(u + [x] + v)| == |SelectedOf(u + v)| + (if x.isSelected then 1 else 0)
    ensures |NotSelectedOf(u + [x] + v)| == |NotSelectedOf(u + v)| + (if x.isSelected then 0 else 1)
  {
    ClassesOfConcat(u, [x]);
    ClassesOfConcat(u + [x], v);
    ClassesOfConcat(u, v);
    SingletonClasses(x);
  }

  /** The classes of a one-element list. */
  lemma SingletonClasses(x: PhotoSelection)
    ensures SelectedOf([x]) == (if x.isSelected then [x] else [])
    ensures NotSelectedOf([x]) == (if !x.isSelected then [x] else [])
  {
    assert [x][..0] == [];
  }


  /* ---------------------------------------------------------------------- */
  /* The minimum-data gate                                                   */

  /** The smaller class count, computed as the trainer does: the selected
      count, and the total minus it. */
  function GateLimit(s: seq<PhotoSelection>): int
  {
    Min(|SelectedOf(s)|, |s| - |SelectedOf(s)|)
  }

  /** Training goes ahead only with at least twenty photos of each class. */
  predicate EnoughTrainingData(s: seq<PhotoSelection>)
  {
    GateLimit(s) >= MinimumPhotoSelectionCount
  }

  /** The gate passes exactly when both classes have at least twenty photos;
      in particular an empty album, which gives no selections, never trains. */
  lemma GateNeedsTwentyOfEach(s: seq<PhotoSelection>)
    ensures EnoughTrainingData(s) <==>
              |SelectedOf(s)| >= MinimumPhotoSelectionCount && |NotSelectedOf(s)| >= MinimumPhotoSelectionCount
    ensures GateLimit(s) == Min(|SelectedOf(s)|, |NotSelectedOf(s)|)
    ensures |s| < 2 * MinimumPhotoSelectionCount ==> !EnoughTrainingData(s)
  {
    ClassesPartition(s);
  }

  /* ---------------------------------------------------------------------- */
  /* Sorting newest first                                                    */

  /** Newest first: no element is older than one after it. */
  predicate Descending(s: seq<PhotoSelection>)
  {
    forall i, j :: 0 <= i < j < |s| ==> Date(s[i]) >= Date(s[j])
  }

  function InsertByDate(x: PhotoSelection, s: seq<PhotoSelection>): (r: seq<PhotoSelection>)
    requires Descending(s)
    ensures Descending(r)
    ensures multiset(r) == multiset(s) + multiset{x}
    ensures |r| == |s| + 1
    ensures r[0] == x || (|s| > 0 && r[0] == s[0])
  {
    if |s| == 0 || Date(x) >= Date(s[0]) then
      DescendingCons(x, s);
      [x] + s
    else
      var rest := InsertByDate(x, s[1..]);
      DescendingCons(s[0], rest);
      assert s == [s[0]] + s[1..];
      [s[0]] + rest
  }

  /** An element no older than the head of a newest-first list extends it
      at the front. */
  lemma DescendingCons(y: PhotoSelection, t: seq<PhotoSelection>)
    requires Descending(t)
    requires |t| == 0 || Date(y) >= Date(t[0])
    ensures Descending([y] + t)
  {
    var r := [y] + t;
    forall i, j | 0 <= i < j < |r|
      ensures Date(r[i]) >= Date(r[j])
    {
      if i == 0 && j > 1 {
        assert r[j] == t[j - 1] && r[1] == t[0];
      }
    }
  }


  /** `sorted { $0.creationDate > $1.creationDate }`: Swift promises nothing
      about the order of equal dates, so any newest-first permutation would
      do; this insertion sort is one. */
  function SortByDateDescending(s: seq<PhotoSelection>): (r: seq<PhotoSelection>)
    ensures Descending(r)
    ensures multiset(r) == multiset(s)
    ensures |r| == |s|
  {
    if |s| == 0 then []
    else
      assert s == [s[0]] + s[1..];
      InsertByDate(s[0], SortByDateDescending(s[1..]))
  }

  /* ---------------------------------------------------------------------- */
  /* Balancing                                                               */

  /** Some class of `t` has reached `limit` elements. */
  predicate LimitReached(t: seq<PhotoSelection>, limit: int)
  {
    |SelectedOf(t)| >= limit || |NotSelectedOf(t)| >= limit
  }

  /** Where the walk that starts at position `i` stops: just after the first
      element at which a class reaches `limit`, or at the end. */
  function StopIndex(s: seq<PhotoSelection>, limit: int, i: nat): (n: nat)
    requires i <= |s|
    ensures i <= n <= |s|
    ensures i < |s| ==> i < n
    ensures n == |s| || LimitReached(s[..n], limit)
    ensures forall m :: i < m < n ==> !LimitReached(s[..m], limit)
    decreases |s| - i
  {
    if i == |s| then |s|
    else if LimitReached(s[..i + 1], limit) then i + 1
    else StopIndex(s, limit, i + 1)
  }

  /** One step of the walk: it stops after position `i` exactly when a class
      reaches `limit` there. */
  lemma StopStep(s: seq<PhotoSelection>, limit: int, i: nat)
    requires i < |s|
    ensures LimitReached(s[..i + 1], limit) ==> StopIndex(s, limit, i) == i + 1
    ensures !LimitReached(s[..i + 1], limit) ==> StopIndex(s, limit, i) == StopIndex(s, limit, i + 1)
  {
  }

  /** The prefix of a newest-first list that the balancing walk consumes. */
  function KeptPrefix(s: seq<PhotoSelection>, limit: int): seq<PhotoSelection>
  {
    s[..StopIndex(s, limit, 0)]
  }

  /** The balanced training set drawn from a newest-first list: the selected
      bucket followed by the not-selected bucket of the walked prefix. */
  function Balance(s: seq<PhotoSelection>, limit: int): seq<PhotoSelection>
  {
    SelectedOf(KeptPrefix(s, limit)) + NotSelectedOf(KeptPrefix(s, limit))
  }

  /** The bucket-filling loop of `filterPhotoSelections`. */
  method WalkIntoBuckets(descending: seq<PhotoSelection>, limit: int) returns (r: seq<PhotoSelection>)
    ensures r == Balance(descending, limit)
  {
    var selected: seq<PhotoSelection> := [];
    var notSelected: seq<PhotoSelection> := [];
    var i := 0;
    while i < |descending|
      invariant 0 <= i <= |descending|
      invariant selected == SelectedOf(descending[..i])
      invariant notSelected == NotSelectedOf(descending[..i])
      invariant StopIndex(descending, limit, 0) == StopIndex(descending, limit, i)
    {
      var x := descending[i];
      OneMore(descending, i);
      StopStep(descending, limit, i);
      if x.isSelected {
        selected := selected + [x];
      } else {
        notSelected := notSelected + [x];
      }
      if |selected| >= limit || |notSelected| >= limit {
        r := selected + notSelected;
        return;
      }
      i := i + 1;
    }
    assert descending[..|descending|] == descending;
    r := selected + notSelected;
  }
}
