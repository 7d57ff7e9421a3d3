/** The hand-written iterator that feeds the corpus writer. Its stop test is
    `index >= count - 1`, so it never yields the last element. */
module ImagesFetcher {
  import opened Wrappers
  import opened Entities
  import opened Selections

  /** The iterator's state: the list and the position of the next element. */
  datatype Fetcher = Fetcher(photoSelections: seq<PhotoSelection>, index: nat)

  function MakeFetcher(photoSelections: seq<PhotoSelection>): Fetcher
  {
    Fetcher(photoSelections, 0)
  }

  /** `next()`: the element at `index` unless `index >= count - 1`; the index
      advances either way (it is bumped in a `defer`). */
  function Next(it: Fetcher): (r: (Fetcher, Option<PhotoSelection>))
    ensures r.0 == it.(index := it.index + 1)
    ensures r.1.Some? <==> it.index < |it.photoSelections| - 1
    ensures r.1.Some? ==> r.1.value == it.photoSelections[it.index]
  {
    var next := it.(index := it.index + 1);
    if it.index >= |it.photoSelections| - 1 then (next, None)
    else (next, Some(it.photoSelections[it.index]))
  }

  /** The elements a `for try await` loop receives: `next()` until it first
      returns nil. */
  function Collect(it: Fetcher): seq<PhotoSelection>
    decreases |it.photoSelections| - it.index
  {
    var (rest, element) := Next(it);
    match element
    case None => []
    case Some(x) => [x] + Collect(rest)
  }

  /** From position `i` the loop receives the elements from `i` up to, but
      not including, the last one. */
  lemma {:induction false} CollectFrom(s: seq<PhotoSelection>, i: nat)
    ensures Collect(Fetcher(s, i)) == if i < |s| - 1 then s[i..|s| - 1] else []
    decreases |s| - i
  {
    if i < |s| - 1 {
      CollectFrom(s, i + 1);
      SliceCons(s, i, |s| - 1);
    }
  }

  /** A non-empty slice is its first element followed by the rest. */
  lemma SliceCons(s: seq<PhotoSelection>, i: nat, j: nat)
    requires i < j <= |s|
    ensures s[i..j] == [s[i]] + s[i + 1..j]
  {
  }

  /** The loop receives every element but the last, in order: nothing for an
      empty or one-element list. */
  lemma YieldsAllButLast(s: seq<PhotoSelection>)
    ensures Collect(MakeFetcher(s)) == if |s| == 0 then [] else s[..|s| - 1]
    ensures |s| > 0 ==> |Collect(MakeFetcher(s))| == |s| - 1
  {
    CollectFrom(s, 0);
    if |s| > 0 {
      assert s[0..|s| - 1] == s[..|s| - 1];
    }
  }
}
