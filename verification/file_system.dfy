/** An abstract file system: a finite map from paths to entries. A directory's
    contents are the entries whose paths extend the directory's path, so
    removing or moving an item acts on the whole subtree below it. */
module FileSystem {
  import opened Wrappers
  import opened Entities

  /** One path component: a fixed name, or a file name generated fresh for
      one image (standing in for `UUID().uuidString + ".jpg"`, whose values
      never collide). */
  datatype Component = Named(name: string) | Generated(token: nat)

  type Path = seq<Component>

  /** What a file holds: an encoded training image of the given size, a
      model description or a compiled model trained on the images of the
      given labelled photos, or anything else. */
  datatype Blob =
    | JpegImage(width: real, height: real)
    | ModelSource(trainedOn: seq<PhotoSelection>)
    | CompiledModel(trainedOn: seq<PhotoSelection>)
    | Opaque(tag: nat)

  datatype Entry = Directory | File(contents: Blob)

  type FileSystem = map<Path, Entry>

  /** Errors thrown by the `FileManager` calls the app makes. */
  datatype FileError = NoSuchItem | FileInTheWay | IsADirectory | MissingParent | OverlappingItems

  /** The state after a throwing file-system call, whether it returned or threw. */
  datatype Attempt<+E> = Done(fs: FileSystem) | Threw(fs: FileSystem, error: E)

  /** `p` is `dir` itself or lies somewhere below it. */
  predicate Under(p: Path, dir: Path)
  {
    |dir| <= |p| && p[..|dir|] == dir
  }

  /** Neither path lies below the other: their subtrees share no path. */
  predicate Disjoint(a: Path, b: Path)
  {
    !Under(a, b) && !Under(b, a)
  }

  function Parent(p: Path): Path
    requires |p| > 0
  {
    p[..|p| - 1]
  }

  function Lookup(fs: FileSystem, p: Path): Option<Entry>
  {
    if p in fs then Some(fs[p]) else None
  }

  /** Two directories above one path are one above the other. */
  lemma CommonDescendant(p: Path, a: Path, b: Path)
    requires Under(p, a) && Under(p, b)
    ensures Under(a, b) || Under(b, a)
  {
    if |a| <= |b| {
      assert b[..|a|] == p[..|b|][..|a|] == p[..|a|];
    } else {
      assert a[..|b|] == p[..|a|][..|b|] == p[..|b|];
    }
  }

  /** Below a directory below `dir` is below `dir`. */
  lemma UnderTransitive(p: Path, q: Path, dir: Path)
    requires Under(p, q) && Under(q, dir)
    ensures Under(p, dir)
  {
    assert p[..|dir|] == p[..|q|][..|dir|];
  }

  /** Nothing lies below both of two disjoint paths. */
  lemma DisjointSubtrees(p: Path, a: Path, b: Path)
    requires Disjoint(a, b) && Under(p, a)
    ensures !Under(p, b)
  {
    if Under(p, b) {
      CommonDescendant(p, a, b);
    }
  }

  /** `removeItem(at:)`: deletes the item and everything below it; throws
      when nothing is there. */
  function RemoveItem(fs: FileSystem, p: Path): (r: Attempt<FileError>)
    ensures r.Threw? <==> p !in fs
    ensures r.Threw? ==> r.fs == fs
    ensures r.Done? ==> forall q :: q in r.fs <==> q in fs && !Under(q, p)
    ensures forall q :: q in r.fs ==> q in fs && r.fs[q] == fs[q]
  {
    if p !in fs then Threw(fs, NoSuchItem)
    else Done(map q | q in fs && !Under(q, p) :: fs[q])
  }

  /** The non-empty prefixes of `p`: `p` and its ancestors. */
  function Ancestry(p: Path): set<Path>
  {
    set k | 1 <= k <= |p| :: p[..k]
  }

  /** Some prefix of `p`, `p` included, is a file. */
  predicate Blocked(fs: FileSystem, p: Path)
  {
    exists k :: 1 <= k <= |p| && p[..k] in fs && fs[p[..k]].File?
  }

  /** `createDirectory(at:withIntermediateDirectories: true)`: makes `p` and
      every missing ancestor a directory; throws, changing nothing, when a
      file stands at `p` or above it. */
  function CreateDirectory(fs: FileSystem, p: Path): (r: Attempt<FileError>)
    ensures r.Threw? <==> Blocked(fs, p)
    ensures r.Threw? ==> r.fs == fs
    ensures r.Done? ==> forall q :: q in r.fs <==> q in fs || q in Ancestry(p)
    ensures r.Done? ==> forall q :: q in fs ==> r.fs[q] == fs[q]
    ensures r.Done? ==> forall q :: q in Ancestry(p) ==> r.fs[q] == Directory
    ensures r.Done? && |p| > 0 ==> Lookup(r.fs, p) == Some(Directory)
  {
    if Blocked(fs, p) then Threw(fs, FileInTheWay)
    else
      assert p[..|p|] == p;
      var made := map q | q in Ancestry(p) :: Directory;
      assert forall q :: q in fs && q in Ancestry(p) ==> fs[q] == Directory by {
        forall q | q in fs && q in Ancestry(p)
          ensures fs[q] == Directory
        {
          var k :| 1 <= k <= |p| && q == p[..k];
        }
      }
      Done(fs + made)
  }

  /** `Data.write(to:)`: stores a file at `p`, replacing any file there;
      throws, changing nothing, when the parent directory is missing or a
      directory stands at `p`. */
  function WriteFile(fs: FileSystem, p: Path, contents: Blob): (r: Attempt<FileError>)
    ensures r.Done? <==> |p| > 0 && Lookup(fs, Parent(p)) == Some(Directory) && Lookup(fs, p) != Some(Directory)
    ensures r.Done? ==> r.fs == fs[p := File(contents)]
    ensures r.Threw? ==> r.fs == fs
  {
    if |p| == 0 || Lookup(fs, Parent(p)) != Some(Directory) then Threw(fs, MissingParent)
    else if Lookup(fs, p) == Some(Directory) then Threw(fs, IsADirectory)
    else Done(fs[p := File(contents)])
  }

  /** Where a path below `from` lands when the subtree at `from` moves to `to`. */
  function Rebase(q: Path, from: Path, to: Path): (r: Path)
    requires Under(q, from)
    ensures Under(r, to)
  {
    to + q[|from|..]
  }

  /** Moving a subtree sends distinct paths to distinct places. */
  lemma RebaseInjective(from: Path, to: Path)
    ensures forall q1, q2 :: Under(q1, from) && Under(q2, from) && Rebase(q1, from, to) == Rebase(q2, from, to) ==> q1 == q2
  {
    forall q1, q2 | Under(q1, from) && Under(q2, from) && Rebase(q1, from, to) == Rebase(q2, from, to)
      ensures q1 == q2
    {
      assert q1[|from|..] == Rebase(q1, from, to)[|to|..] == q2[|from|..];
      assert q1 == q1[..|from|] + q1[|from|..];
      assert q2 == q2[..|from|] + q2[|from|..];
    }
  }

  /** `replaceItemAt(_:withItemAt:)`: the item at `replacement`, with its
      subtree, takes the place of whatever was at `original`, and is gone
      from its old place; throws, changing nothing, when there is no item to
      move or one path lies below the other. */
  function ReplaceItem(fs: FileSystem, original: Path, replacement: Path): (r: Attempt<FileError>)
    ensures r.Threw? <==> replacement !in fs || !Disjoint(original, replacement)
    ensures r.Threw? ==> r.fs == fs
    ensures r.Done? ==> Lookup(r.fs, original) == Lookup(fs, replacement)
    ensures r.Done? ==> replacement !in r.fs
    ensures r.Done? ==> forall q :: !Under(q, original) && !Under(q, replacement) ==> Lookup(r.fs, q) == Lookup(fs, q)
  {
    if replacement !in fs then Threw(fs, NoSuchItem)
    else if !Disjoint(original, replacement) then Threw(fs, OverlappingItems)
    else
      var kept := map q | q in fs && !Under(q, original) && !Under(q, replacement) :: fs[q];
      RebaseInjective(replacement, original);
      var moved := map q | q in fs && Under(q, replacement) :: Rebase(q, replacement, original) := fs[q];
      assert Rebase(replacement, replacement, original) == original;
      assert original in moved && moved[original] == fs[replacement];
      assert forall q :: q in moved ==> Under(q, original);
      Done(kept + moved)
  }
}
