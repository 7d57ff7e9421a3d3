/** The queries the app makes of the photo library and of the album store,
    written over explicit collections: the library is a sequence of assets in
    no particular order, the album store a sequence of records. A query that
    asks the library for an order sorts; one that does not keeps the
    library's order. */
module Repositories {
  import opened Wrappers
  import opened Entities

  /** `fetchPhotos(from:to:)`: the image assets whose creation date lies in
      the closed range [from, to], in library order. */
  function FetchPhotosInRange(library: seq<Photo>, from: int, to: int): (r: seq<Photo>)
    ensures forall p :: p in r ==> p in library && p.isImage && from <= p.creationDate <= to
    ensures forall p :: p in library && p.isImage && from <= p.creationDate <= to ==> p in r
    ensures |r| <= |library|
  {
    if |library| == 0 then []
    else
      (if library[0].isImage && from <= library[0].creationDate <= to then [library[0]] else [])
      + FetchPhotosInRange(library[1..], from, to)
  }

  /** The assets, of any media type, whose local identifier is not among
      `excluded`, in library order. */
  function AssetsExcluding(library: seq<Photo>, excluded: seq<string>): (r: seq<Photo>)
    ensures forall p :: p in r ==> p in library && p.localIdentifier !in excluded
    ensures forall p :: p in library && p.localIdentifier !in excluded ==> p in r
    ensures |r| <= |library|
  {
    if |library| == 0 then []
    else
      (if library[0].localIdentifier !in excluded then [library[0]] else [])
      + AssetsExcluding(library[1..], excluded)
  }

  /** `fetchPhotos(excludingLocalIdentifiers:)`: the assets, of any media
      type, whose local identifier is not among `excluded`, newest first. */
  function FetchPhotosExcluding(library: seq<Photo>, excluded: seq<string>): (r: seq<Photo>)
    ensures forall p :: p in r ==> p in library && p.localIdentifier !in excluded
    ensures forall p :: p in library && p.localIdentifier !in excluded ==> p in r
    ensures NewestFirst(r)
    ensures multiset(r) == multiset(AssetsExcluding(library, excluded))
  {
    var r := SortNewestFirst(AssetsExcluding(library, excluded));
    assert forall p :: p in r <==> p in multiset(r);
    r
  }

  /** No asset is older than one after it. */
  predicate NewestFirst(s: seq<Photo>)
  {
    forall i, j :: 0 <= i < j < |s| ==> s[i].creationDate >= s[j].creationDate
  }

  /** An asset no older than the head of a newest-first list extends it at
      the front. */
  lemma NewestFirstCons(y: Photo, t: seq<Photo>)
    requires NewestFirst(t)
    requires |t| == 0 || y.creationDate >= t[0].creationDate
    ensures NewestFirst([y] + t)
  {
    var r := [y] + t;
    forall i, j | 0 <= i < j < |r|
      ensures r[i].creationDate >= r[j].creationDate
    {
      if i == 0 && j > 1 {
        assert r[j] == t[j - 1] && r[1] == t[0];
      }
    }
  }

  function InsertNewestFirst(x: Photo, s: seq<Photo>): (r: seq<Photo>)
    requires NewestFirst(s)
    ensures NewestFirst(r)
    ensures multiset(r) == multiset(s) + multiset{x}
    ensures r[0] == x || (|s| > 0 && r[0] == s[0])
  {
    if |s| == 0 || x.creationDate >= s[0].creationDate then
      NewestFirstCons(x, s);
      [x] + s
    else
      var rest := InsertNewestFirst(x, s[1..]);
      NewestFirstCons(s[0], rest);
      assert s == [s[0]] + s[1..];
      [s[0]] + rest
  }

  /** The library's sort on a `creationDate` key, descending. The library
      promises nothing about the order of equal dates, so any newest-first
      permutation would do; this insertion sort is one. */
  function SortNewestFirst(s: seq<Photo>): (r: seq<Photo>)
    ensures NewestFirst(r)
    ensures multiset(r) == multiset(s)
  {
    if |s| == 0 then []
    else
      assert s == [s[0]] + s[1..];
      InsertNewestFirst(s[0], SortNewestFirst(s[1..]))
  }

  /** The earliest `takenAt` of a non-empty album. */
  function OldestTakenAt(album: seq<AlbumPhoto>): (r: int)
    requires |album| > 0
    ensures exists i :: 0 <= i < |album| && album[i].takenAt == r
    ensures forall i :: 0 <= i < |album| ==> r <= album[i].takenAt
  {
    if |album| == 1 then album[0].takenAt
    else
      var rest := OldestTakenAt(album[1..]);
      assert exists i :: 1 <= i < |album| && album[i].takenAt == rest by {
        var k :| 0 <= k < |album[1..]| && album[1..][k].takenAt == rest;
        assert album[k + 1].takenAt == rest;
      }
      Min(album[0].takenAt, rest)
  }

  /** The latest `takenAt` of a non-empty album. */
  function LatestTakenAt(album: seq<AlbumPhoto>): (r: int)
    requires |album| > 0
    ensures exists i :: 0 <= i < |album| && album[i].takenAt == r
    ensures forall i :: 0 <= i < |album| ==> album[i].takenAt <= r
  {
    if |album| == 1 then album[0].takenAt
    else
      var rest := LatestTakenAt(album[1..]);
      assert exists i :: 1 <= i < |album| && album[i].takenAt == rest by {
        var k :| 0 <= k < |album[1..]| && album[1..][k].takenAt == rest;
        assert album[k + 1].takenAt == rest;
      }
      if album[0].takenAt >= rest then album[0].takenAt else rest
  }

  /** The album's time span: nothing for an empty album, otherwise the oldest
      and the latest `takenAt` (two single-row queries sorted each way). */
  function OldestAndLatestTakenAt(album: seq<AlbumPhoto>): (r: Option<(int, int)>)
    ensures r.None? <==> |album| == 0
    ensures r.Some? ==> r.value.0 <= r.value.1
    ensures r.Some? ==> forall i :: 0 <= i < |album| ==> r.value.0 <= album[i].takenAt <= r.value.1
    ensures r.Some? ==> exists i :: 0 <= i < |album| && album[i].takenAt == r.value.0
    ensures r.Some? ==> exists i :: 0 <= i < |album| && album[i].takenAt == r.value.1
  {
    if |album| == 0 then None
    else
      var oldest := OldestTakenAt(album);
      var latest := LatestTakenAt(album);
      assert oldest <= album[0].takenAt <= latest;
      Some((oldest, latest))
  }

  /** The local identifiers of the album's records, in album order. */
  function LocalIdentifiers(album: seq<AlbumPhoto>): (r: seq<string>)
    ensures |r| == |album|
    ensures forall i :: 0 <= i < |album| ==> r[i] == album[i].localIdentifier
  {
    if |album| == 0 then [] else [album[0].localIdentifier] + LocalIdentifiers(album[1..])
  }
}
