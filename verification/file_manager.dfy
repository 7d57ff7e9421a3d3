/** The app's fixed on-disk layout below the application-support directory,
    and the three file operations the trainer and the picker perform on it:

      <applicationSupport>/TrainingData/Selected/<image>.jpg
      <applicationSupport>/TrainingData/NotSelected/<image>.jpg
      <applicationSupport>/Classifier/PhotoSelectionClassifier.mlmodel
      <applicationSupport>/Classifier/PhotoSelectionClassifier.mlmodelc
 */
module ClassifierFileManager {
  import opened Wrappers
  import opened FileSystem

  const TrainingDataPath: string := "TrainingData"
  const SelectedDataPath: string := "Selected"
  const NotSelectedDataPath: string := "NotSelected"
  const ClassifierPath: string := "Classifier"
  const ClassifierFileName: string := "PhotoSelectionClassifier.mlmodel"
  const CompiledClassifierFileName: string := "PhotoSelectionClassifier.mlmodelc"

  /** The file manager only knows where the user-domain application-support
      directory is. */
  datatype FileManager = FileManager(applicationSupportDirectory: Path)

  function TrainingDataDirectory(fm: FileManager): (r: Path)
    ensures |r| > 0 && Parent(r) == fm.applicationSupportDirectory
  {
    fm.applicationSupportDirectory + [Named(TrainingDataPath)]
  }

  function SelectedDataDirectory(fm: FileManager): (r: Path)
    ensures |r| > 0 && Parent(r) == TrainingDataDirectory(fm)
  {
    TrainingDataDirectory(fm) + [Named(SelectedDataPath)]
  }

  function NotSelectedDataDirectory(fm: FileManager): (r: Path)
    ensures |r| > 0 && Parent(r) == TrainingDataDirectory(fm)
  {
    TrainingDataDirectory(fm) + [Named(NotSelectedDataPath)]
  }

  /** The directory both model files live in. */
  function ClassifierDirectory(fm: FileManager): (r: Path)
    ensures |r| > 0 && Parent(r) == fm.applicationSupportDirectory
  {
    fm.applicationSupportDirectory + [Named(ClassifierPath)]
  }

  function ClassifierURL(fm: FileManager): (r: Path)
    ensures |r| > 0 && Parent(r) == ClassifierDirectory(fm)
  {
    ClassifierDirectory(fm) + [Named(ClassifierFileName)]
  }

  function CompiledClassifierURL(fm: FileManager): (r: Path)
    ensures |r| > 0 && Parent(r) == ClassifierDirectory(fm)
  {
    ClassifierDirectory(fm) + [Named(CompiledClassifierFileName)]
  }

  /** The two class directories sit side by side directly below the training
      directory, under the two fixed names. */
  lemma TrainingLayout(fm: FileManager)
    ensures SelectedDataDirectory(fm) == fm.applicationSupportDirectory + [Named("TrainingData"), Named("Selected")]
    ensures NotSelectedDataDirectory(fm) == fm.applicationSupportDirectory + [Named("TrainingData"), Named("NotSelected")]
    ensures Under(SelectedDataDirectory(fm), TrainingDataDirectory(fm))
    ensures Under(NotSelectedDataDirectory(fm), TrainingDataDirectory(fm))
    ensures Disjoint(SelectedDataDirectory(fm), NotSelectedDataDirectory(fm))
  {
    var s := SelectedDataDirectory(fm);
    var n := NotSelectedDataDirectory(fm);
    assert s[|s| - 1] != n[|n| - 1];
  }

  /** The model description and the compiled model share the `Classifier`
      directory and differ only in their file names. */
  lemma ClassifierFilesAreSiblings(fm: FileManager)
    ensures Parent(ClassifierURL(fm)) == Parent(CompiledClassifierURL(fm))
    ensures ClassifierURL(fm)[|ClassifierURL(fm)| - 1] == Named("PhotoSelectionClassifier.mlmodel")
    ensures CompiledClassifierURL(fm)[|CompiledClassifierURL(fm)| - 1] == Named("PhotoSelectionClassifier.mlmodelc")
    ensures Disjoint(ClassifierURL(fm), CompiledClassifierURL(fm))
  {
    var c := ClassifierURL(fm);
    var d := CompiledClassifierURL(fm);
    assert c[|c| - 1] != d[|d| - 1];
  }

  /** The training tree and the `Classifier` directory are disjoint siblings,
      so nothing done inside one can reach the other. */
  lemma TrainingTreeApartFromClassifier(fm: FileManager)
    ensures Disjoint(TrainingDataDirectory(fm), ClassifierDirectory(fm))
    ensures Disjoint(TrainingDataDirectory(fm), ClassifierURL(fm))
    ensures Disjoint(TrainingDataDirectory(fm), CompiledClassifierURL(fm))
    ensures Under(TrainingDataDirectory(fm), fm.applicationSupportDirectory)
    ensures Under(CompiledClassifierURL(fm), fm.applicationSupportDirectory)
  {
    var root := fm.applicationSupportDirectory;
    var t := TrainingDataDirectory(fm);
    var c := ClassifierDirectory(fm);
    assert t[|root|] != c[|root|];
    assert !Under(c, t) && !Under(t, c);
    assert CompiledClassifierURL(fm)[..|root|] == root;
  }

  /** `compiledClassifierFileExists`: something is stored at the compiled
      model's path. */
  function CompiledClassifierFileExists(fm: FileManager, fs: FileSystem): (r: bool)
    ensures r <==> Lookup(fs, CompiledClassifierURL(fm)).Some?
  {
    CompiledClassifierURL(fm) in fs
  }

  /** Every proper ancestor of every entry is a directory that is present:
      what any real file system looks like. */
  ghost predicate IsTree(fs: FileSystem)
  {
    forall p, k :: p in fs && 1 <= k < |p| ==> p[..k] in fs && fs[p[..k]] == Directory
  }

  /** In a tree, an absent directory has nothing below it. */
  lemma AbsentHasNoDescendants(fs: FileSystem, dir: Path)
    requires IsTree(fs) && |dir| > 0 && dir !in fs
    ensures forall p :: p in fs ==> !Under(p, dir)
  {
    forall p | p in fs
      ensures !Under(p, dir)
    {
      if |dir| < |p| {
        assert p[..|dir|] in fs;
      } else {
        assert p[..|p|] == p;
      }
    }
  }

  /** `cleanTrainingDataDirectory`: deletes the training directory when it
      exists, then creates `Selected` and `NotSelected` (with any missing
      ancestors). A success leaves both class directories in place; the
      rest of its effect is stated by the three lemmas after it. */
  function CleanTrainingDataDirectory(fm: FileManager, fs: FileSystem): (r: Attempt<FileError>)
    ensures r.Done? ==> Lookup(r.fs, SelectedDataDirectory(fm)) == Some(Directory)
                        && Lookup(r.fs, NotSelectedDataDirectory(fm)) == Some(Directory)
  {
    match CreateDirectory(Cleared(fm, fs), SelectedDataDirectory(fm))
    case Threw(fs1, e) => Threw(fs1, e)
    case Done(fs1) => CreateDirectory(fs1, NotSelectedDataDirectory(fm))
  }

  /** The file system once an existing training directory has been removed. */
  function Cleared(fm: FileManager, fs: FileSystem): FileSystem
  {
    if TrainingDataDirectory(fm) in fs then RemoveItem(fs, TrainingDataDirectory(fm)).fs else fs
  }

  /** Cleaning alters nothing outside the training tree, adds nothing there
      but missing ancestor directories, and removes nothing at all when the
      training directory is absent. This holds whether or not it throws. */
  lemma CleanKeepsOutside(fm: FileManager, fs: FileSystem)
    ensures forall p :: p in fs && !Under(p, TrainingDataDirectory(fm)) ==>
              p in CleanTrainingDataDirectory(fm, fs).fs && CleanTrainingDataDirectory(fm, fs).fs[p] == fs[p]
    ensures forall p :: p in CleanTrainingDataDirectory(fm, fs).fs && p !in fs ==>
              (Under(TrainingDataDirectory(fm), p) || Under(p, TrainingDataDirectory(fm)))
              && CleanTrainingDataDirectory(fm, fs).fs[p] == Directory
    ensures TrainingDataDirectory(fm) !in fs ==>
              forall p :: p in fs ==> p in CleanTrainingDataDirectory(fm, fs).fs && CleanTrainingDataDirectory(fm, fs).fs[p] == fs[p]
  {
    var t := TrainingDataDirectory(fm);
    var s := SelectedDataDirectory(fm);
    var n := NotSelectedDataDirectory(fm);
    TrainingLayout(fm);
    var r := CleanTrainingDataDirectory(fm, fs);
    var cleared := Cleared(fm, fs);
    assert forall p :: p in fs && !Under(p, t) ==> p in cleared && cleared[p] == fs[p];
    assert forall p :: p in cleared ==> p in fs && cleared[p] == fs[p];
    forall p | p in Ancestry(s) || p in Ancestry(n)
      ensures Under(t, p) || Under(p, t)
    {
      if p in Ancestry(s) {
        var k :| 1 <= k <= |s| && p == s[..k];
        CommonDescendant(s, p, t);
      } else {
        var k :| 1 <= k <= |n| && p == n[..k];
        CommonDescendant(n, p, t);
      }
    }
  }

  /** After a successful clean the training tree holds exactly the training
      directory and the two empty class directories: no earlier content
      survives. (When the training directory was absent this needs the file
      system to be a tree, so that nothing stood below it either.) */
  lemma CleanLeavesTwoEmptyDirectories(fm: FileManager, fs: FileSystem)
    requires CleanTrainingDataDirectory(fm, fs).Done?
    requires TrainingDataDirectory(fm) in fs || IsTree(fs)
    ensures forall p :: Under(p, TrainingDataDirectory(fm)) ==>
              (p in CleanTrainingDataDirectory(fm, fs).fs <==>
                 p == TrainingDataDirectory(fm) || p == SelectedDataDirectory(fm) || p == NotSelectedDataDirectory(fm))
    ensures Lookup(CleanTrainingDataDirectory(fm, fs).fs, TrainingDataDirectory(fm)) == Some(Directory)
    ensures Lookup(CleanTrainingDataDirectory(fm, fs).fs, SelectedDataDirectory(fm)) == Some(Directory)
    ensures Lookup(CleanTrainingDataDirectory(fm, fs).fs, NotSelectedDataDirectory(fm)) == Some(Directory)
  {
    var fs1 := CreateDirectory(Cleared(fm, fs), SelectedDataDirectory(fm)).fs;
    CleanedTreeShape(fm, fs, Cleared(fm, fs), fs1);
    var t := TrainingDataDirectory(fm);
    var s := SelectedDataDirectory(fm);
    var n := NotSelectedDataDirectory(fm);
    assert s[..|t|] == t && s[..|s|] == s && n[..|n|] == n;
    assert t in Ancestry(s) && s in Ancestry(s) && n in Ancestry(n);
  }

  /** Cleaning throws when a file stands at or above the application-support
      directory, and, when the training directory exists or the file system
      is a tree, only then. */
  lemma CleanThrowsOnlyWhenBlocked(fm: FileManager, fs: FileSystem)
    ensures Blocked(fs, fm.applicationSupportDirectory) ==> CleanTrainingDataDirectory(fm, fs).Threw?
    ensures TrainingDataDirectory(fm) in fs || IsTree(fs) ==>
              (CleanTrainingDataDirectory(fm, fs).Threw? <==> Blocked(fs, fm.applicationSupportDirectory))
  {
    var cleared := Cleared(fm, fs);
    var s := SelectedDataDirectory(fm);
    BlockedRootBlocksSelected(fm, fs);
    if TrainingDataDirectory(fm) in fs || IsTree(fs) {
      ClearedBlocksOnlyAtRoot(fm, fs);
      if !Blocked(cleared, s) {
        var fs1 := CreateDirectory(cleared, s).fs;
        CleanedTreeShape(fm, fs, cleared, fs1);
      }
    }
  }

  /** A file at or above the application-support directory survives the
      removal of the training directory and blocks `Selected`. */
  lemma BlockedRootBlocksSelected(fm: FileManager, fs: FileSystem)
    ensures Blocked(fs, fm.applicationSupportDirectory) ==> Blocked(Cleared(fm, fs), SelectedDataDirectory(fm))
  {
    var root := fm.applicationSupportDirectory;
    var s := SelectedDataDirectory(fm);
    TrainingLayout(fm);
    if Blocked(fs, root) {
      var k :| 1 <= k <= |root| && root[..k] in fs && fs[root[..k]].File?;
      assert s[..k] == root[..k];
      assert !Under(root[..k], TrainingDataDirectory(fm));
    }
  }

  /** Once an existing training directory is removed, or when a tree has
      none, only a file at or above the application-support directory can
      block `Selected`. */
  lemma ClearedBlocksOnlyAtRoot(fm: FileManager, fs: FileSystem)
    requires TrainingDataDirectory(fm) in fs || IsTree(fs)
    ensures Blocked(Cleared(fm, fs), SelectedDataDirectory(fm)) ==> Blocked(fs, fm.applicationSupportDirectory)
  {
    var root := fm.applicationSupportDirectory;
    var t := TrainingDataDirectory(fm);
    var s := SelectedDataDirectory(fm);
    var cleared := Cleared(fm, fs);
    TrainingLayout(fm);
    if Blocked(cleared, s) {
      if t !in fs {
        AbsentHasNoDescendants(fs, t);
      }
      var k :| 1 <= k <= |s| && s[..k] in cleared && cleared[s[..k]].File?;
      if k > |root| {
        assert false;
      }
      assert s[..k] == root[..k];
    }
  }

  /** The training tree after both class directories have been created on a
      cleared training directory. */
  lemma CleanedTreeShape(fm: FileManager, fs: FileSystem, cleared: FileSystem, fs1: FileSystem)
    requires cleared == Cleared(fm, fs)
    requires CreateDirectory(cleared, SelectedDataDirectory(fm)) == Done(fs1)
    requires TrainingDataDirectory(fm) in fs || IsTree(fs)
    ensures CreateDirectory(fs1, NotSelectedDataDirectory(fm)).Done?
    ensures forall p :: Under(p, TrainingDataDirectory(fm)) ==>
                (p in CreateDirectory(fs1, NotSelectedDataDirectory(fm)).fs <==>
                   p == TrainingDataDirectory(fm) || p == SelectedDataDirectory(fm) || p == NotSelectedDataDirectory(fm))
  {
    var t := TrainingDataDirectory(fm);
    if t !in fs {
      AbsentHasNoDescendants(fs, t);
    }
    assert forall p :: p in cleared ==> !Under(p, t);
    NotSelectedUnblocked(fm, cleared, fs1);
    ClassDirectoriesOnEmptyTree(fm, cleared, fs1);
  }

  /** After `Selected` is created, every prefix of `NotSelected` is a
      directory or absent. */
  lemma NotSelectedUnblocked(fm: FileManager, cleared: FileSystem, fs1: FileSystem)
    requires CreateDirectory(cleared, SelectedDataDirectory(fm)) == Done(fs1)
    requires forall p :: p in cleared ==> !Under(p, TrainingDataDirectory(fm))
    ensures CreateDirectory(fs1, NotSelectedDataDirectory(fm)).Done?
  {
    var t := TrainingDataDirectory(fm);
    var s := SelectedDataDirectory(fm);
    var n := NotSelectedDataDirectory(fm);
    TrainingLayout(fm);
    forall k | 1 <= k <= |n| && n[..k] in fs1
      ensures fs1[n[..k]] == Directory
    {
      if k <= |t| {
        assert n[..k] == s[..k];
        assert n[..k] in Ancestry(s);
      } else {
        assert n[..k] == n && Under(n, t);
      }
    }
  }

  /** Creating both class directories on a tree with nothing under the
      training directory leaves exactly the three directories there. */
  lemma ClassDirectoriesOnEmptyTree(fm: FileManager, cleared: FileSystem, fs1: FileSystem)
    requires CreateDirectory(cleared, SelectedDataDirectory(fm)) == Done(fs1)
    requires forall p :: p in cleared ==> !Under(p, TrainingDataDirectory(fm))
    requires CreateDirectory(fs1, NotSelectedDataDirectory(fm)).Done?
    ensures forall p :: Under(p, TrainingDataDirectory(fm)) ==>
                (p in CreateDirectory(fs1, NotSelectedDataDirectory(fm)).fs <==>
                   p == TrainingDataDirectory(fm) || p == SelectedDataDirectory(fm) || p == NotSelectedDataDirectory(fm))
  {
    var t := TrainingDataDirectory(fm);
    var s := SelectedDataDirectory(fm);
    var n := NotSelectedDataDirectory(fm);
    TrainingLayout(fm);
    var fs2 := CreateDirectory(fs1, n).fs;
    forall p | Under(p, t)
      ensures p in fs2 <==> p == t || p == s || p == n
    {
      assert s[..|t|] == t && s[..|s|] == s && n[..|n|] == n;
      assert t in Ancestry(s) && s in Ancestry(s) && n in Ancestry(n);
      if p in Ancestry(s) {
        var k :| 1 <= k <= |s| && p == s[..k];
      }
      if p in Ancestry(n) {
        var k :| 1 <= k <= |n| && p == n[..k];
      }
    }
  }

  /** `preserveTemporaryClassifierURL`: the freshly compiled model replaces
      whatever was at the compiled-model path. */
  function PreserveTemporaryClassifier(fm: FileManager, fs: FileSystem, temporary: Path): (r: Attempt<FileError>)
    ensures r.Done? <==> temporary in fs && Disjoint(temporary, CompiledClassifierURL(fm))
    ensures r.Done? ==> Lookup(r.fs, CompiledClassifierURL(fm)) == Lookup(fs, temporary)
    ensures r.Done? ==> CompiledClassifierFileExists(fm, r.fs) && temporary !in r.fs
    ensures r.Threw? ==> r.fs == fs
  {
    ReplaceItem(fs, CompiledClassifierURL(fm), temporary)
  }
}
