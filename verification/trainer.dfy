/** `PhotoSelectionTrainer.execute`: gather the labelled photos, apply the
    minimum-data gate, balance, rebuild the on-disk training corpus, train,
    and publish the compiled model. Library effects (image requests, model
    training, model writing, compilation) are inputs; every file-system step
    acts on the abstract file system. */
module Trainer {
  import opened Wrappers
  import opened Entities
  import opened Repositories
  import opened FileSystem
  import opened ClassifierFileManager
  import opened Classifier
  import opened Selections
  import opened BalanceProperties
  import opened Resize
  import opened ImagesFetcher

  /** What ends a run early; `execute` catches and logs all of them. */
  datatype TrainingError =
    | AlbumUnavailable
    | CleaningFailed(cause: FileError)
    | ImageRequestFailed
    | WritingFailed(cause: FileError)
    | TrainingFailed
    | ModelWriteFailed
    | CompilingFailed
    | ReplacingFailed(cause: FileError)

  /** How a run ended: turned away by the gate, stopped by an error, or with
      a newly published model. */
  datatype Outcome = NotEnoughData(selectedCount: nat, notSelectedCount: nat) | Failed(error: TrainingError) | Trained

  datatype Run = Run(fs: FileSystem, outcome: Outcome)

  /** What the libraries the trainer calls will do during one run. */
  datatype Environment = Environment(
    album: Result<seq<AlbumPhoto>, RepositoryError>, // the album store; a failure makes the span query throw
    library: seq<Photo>,                             // the photo library
    images: map<string, Image>,                      // the image delivered per identifier; none means the request throws
    trainingSucceeds: bool,                          // the CreateML training job
    modelWriteSucceeds: bool,                        // writing the trained model to `classifierURL`
    compiledModel: Option<Path>)                     // where compilation leaves the compiled model; none means it throws

  /** Library guarantees the run relies on: delivered images are not empty,
      and compilation writes to a temporary location outside the
      application-support directory. */
  predicate ValidEnvironment(fm: FileManager, env: Environment)
  {
    && (forall id :: id in env.images ==> Positive(env.images[id].size))
    && (env.compiledModel.Some? ==> Disjoint(env.compiledModel.value, fm.applicationSupportDirectory))
  }

  /* ---------------------------------------------------------------------- */
  /* The training set                                                        */

  /** The labelled photos of the album's time span. */
  function AlbumSelections(album: seq<AlbumPhoto>, library: seq<Photo>, selectedLocalIdentifiers: seq<string>)
    : seq<PhotoSelection>
  {
    FetchPhotoSelections(OldestAndLatestTakenAt(album), library, selectedLocalIdentifiers)
  }

  /** The balanced set: the walk over the newest-first order, limited by the
      smaller class count. */
  function TrainingSet(selections: seq<PhotoSelection>): seq<PhotoSelection>
  {
    Balance(SortByDateDescending(selections), GateLimit(selections))
  }

  /** The elements the corpus writer receives from the iterator. */
  function CorpusItems(selections: seq<PhotoSelection>): seq<PhotoSelection>
  {
    Collect(MakeFetcher(TrainingSet(selections)))
  }

  /** Sorting does not change the class counts, so the limit computed on
      the labelled photos is the smaller class count of the sorted order. */
  lemma LimitOfSortedOrder(selections: seq<PhotoSelection>)
    ensures GateLimit(selections)
            == Min(|SelectedOf(SortByDateDescending(selections))|, |NotSelectedOf(SortByDateDescending(selections))|)
  {
    GateNeedsTwentyOfEach(selections);
    ClassCountsFollowMultiset(selections, SortByDateDescending(selections));
  }

  /** Once the gate passes, one class of the training set holds exactly the
      limit and the other fewer, so the set never holds the limit of both. */
  lemma TrainingSetBuckets(selections: seq<PhotoSelection>)
    requires EnoughTrainingData(selections)
    ensures var kept := KeptPrefix(SortByDateDescending(selections), GateLimit(selections));
            && (|SelectedOf(kept)| == GateLimit(selections) || |NotSelectedOf(kept)| == GateLimit(selections))
            && (|SelectedOf(kept)| < GateLimit(selections) || |NotSelectedOf(kept)| < GateLimit(selections))
            && |SelectedOf(kept)| <= GateLimit(selections) && |NotSelectedOf(kept)| <= GateLimit(selections)
    ensures GateLimit(selections) <= |TrainingSet(selections)| < 2 * GateLimit(selections)
  {
    LimitOfSortedOrder(selections);
    OneBucketReachesLimit(SortByDateDescending(selections), GateLimit(selections));
  }

  /** The training set draws only on the labelled photos, and the corpus
      receives all of it but its last element. */
  lemma TrainingSetMembers(selections: seq<PhotoSelection>)
    ensures forall x :: x in TrainingSet(selections) ==> x in selections
    ensures |TrainingSet(selections)| > 0 ==>
              CorpusItems(selections) == TrainingSet(selections)[..|TrainingSet(selections)| - 1]
    ensures |TrainingSet(selections)| == 0 ==> CorpusItems(selections) == []
  {
    var sorted := SortByDateDescending(selections);
    BalanceDrawsOnInput(sorted, GateLimit(selections));
    forall x | x in TrainingSet(selections)
      ensures x in selections
    {
      assert x in multiset(sorted);
    }
    YieldsAllButLast(TrainingSet(selections));
  }

  /** `filterPhotoSelections`: sort newest first, then walk appending each
      photo to its bucket until a bucket holds `limit` photos. It keeps only
      photos it was given, and with the limit set to the smaller class count
      one class of the result holds exactly the limit and the other fewer. */
  method FilterPhotoSelections(photoSelections: seq<PhotoSelection>, limit: int) returns (r: seq<PhotoSelection>)
    ensures r == Balance(SortByDateDescending(photoSelections), limit)
    ensures forall x :: x in r ==> x in photoSelections
    ensures limit == GateLimit(photoSelections) && limit >= 1 ==>
              && (|SelectedOf(r)| == limit || |NotSelectedOf(r)| == limit)
              && (|SelectedOf(r)| < limit || |NotSelectedOf(r)| < limit)
              && |SelectedOf(r)| <= limit && |NotSelectedOf(r)| <= limit
              && limit <= |r| < 2 * limit
  {
    var descending := SortByDateDescending(photoSelections);
    r := WalkIntoBuckets(descending, limit);
    BalanceDrawsOnInput(descending, limit);
    assert forall x :: x in descending ==> x in multiset(photoSelections);
    BalanceClassCounts(descending, limit);
    if limit == GateLimit(photoSelections) && limit >= 1 {
      LimitOfSortedOrder(photoSelections);
      OneBucketReachesLimit(descending, limit);
    }
  }

  /** Balancing keeps only elements of its input. */
  lemma BalanceDrawsOnInput(s: seq<PhotoSelection>, limit: int)
    ensures forall x :: x in Balance(s, limit) ==> x in s
  {
    var kept := KeptPrefix(s, limit);
    BalanceKeepsNewestPrefix(s, limit);
    forall x | x in Balance(s, limit)
      ensures x in s
    {
      assert x in multiset(Balance(s, limit));
      var i :| 0 <= i < |kept| && kept[i] == x;
      assert s[i] == x;
    }
  }

  /* ---------------------------------------------------------------------- */
  /* Writing the corpus                                                      */

  /** The class directory an element is written to, chosen by its label. */
  function DirectoryFor(fm: FileManager, x: PhotoSelection): Path
  {
    if x.isSelected then SelectedDataDirectory(fm) else NotSelectedDataDirectory(fm)
  }

  /** The file the `j`-th corpus element is written to. */
  function CorpusPath(fm: FileManager, items: seq<PhotoSelection>, j: nat): Path
    requires j < |items|
  {
    DirectoryFor(fm, items[j]) + [Generated(j)]
  }

  /** A generated file name directly inside one of the class directories. */
  predicate IsCorpusFile(fm: FileManager, p: Path)
  {
    |p| > 0 && p[|p| - 1].Generated?
    && (Parent(p) == SelectedDataDirectory(fm) || Parent(p) == NotSelectedDataDirectory(fm))
  }

  /** `p` is the file of one of the elements from `j` on. */
  predicate WrittenFrom(fm: FileManager, items: seq<PhotoSelection>, j: nat, p: Path)
  {
    exists k :: j <= k < |items| && p == CorpusPath(fm, items, k)
  }

  /** What the corpus file of an image holds: the image resized to fit the
      minimum training size, encoded. */
  function CorpusImage(image: Image): Blob
    requires Positive(image.size)
  {
    var resized := ResizeImage(image.size, MinimumTrainedImageSize);
    JpegImage(resized.width, resized.height)
  }

  /** Each element goes to the directory named after its label, under a name
      of its own, and that directory's name reads back as the label. */
  lemma CorpusRouting(fm: FileManager, items: seq<PhotoSelection>, j: nat)
    requires j < |items|
    ensures IsCorpusFile(fm, CorpusPath(fm, items, j))
    ensures Parent(CorpusPath(fm, items, j)) == DirectoryFor(fm, items[j])
    ensures DirectoryLabel(DirectoryFor(fm, items[j])) == Some(if items[j].isSelected then Selected else NotSelected)
    ensures forall k :: 0 <= k < |items| && k != j ==> CorpusPath(fm, items, k) != CorpusPath(fm, items, j)
    ensures Under(CorpusPath(fm, items, j), TrainingDataDirectory(fm))
  {
    var p := CorpusPath(fm, items, j);
    assert Parent(p) == DirectoryFor(fm, items[j]);
    forall k | 0 <= k < |items| && k != j
      ensures CorpusPath(fm, items, k) != p
    {
      var q := CorpusPath(fm, items, k);
      assert q[|q| - 1] == Generated(k) != Generated(j) == p[|p| - 1];
    }
    TrainingLayout(fm);
    UnderTransitive(p, DirectoryFor(fm, items[j]), TrainingDataDirectory(fm));
    ClassDirectoriesNameTheLabels(fm);
  }

  /** The corpus loop from element `j` on: request each element's image,
      resize it and write it into its class directory, stopping at the first
      failure. The loop changes only corpus files; on success each element's
      file holds its resized image; and when the class directories exist and
      the files are new, it fails exactly when some image is unavailable. */
  function WriteCorpus(fm: FileManager, fs: FileSystem, items: seq<PhotoSelection>, images: map<string, Image>, j: nat)
    : (r: Attempt<TrainingError>)
    requires j <= |items|
    requires forall id :: id in images ==> Positive(images[id].size)
    ensures forall p :: !WrittenFrom(fm, items, j, p) ==> Lookup(r.fs, p) == Lookup(fs, p)
    ensures forall p :: p in r.fs && p !in fs ==> WrittenFrom(fm, items, j, p)
    ensures r.Done? ==> forall k :: j <= k < |items| ==>
              items[k].photo.localIdentifier in images
              && Lookup(r.fs, CorpusPath(fm, items, k)) == Some(File(CorpusImage(images[items[k].photo.localIdentifier])))
    ensures Lookup(fs, SelectedDataDirectory(fm)) == Some(Directory)
            && Lookup(fs, NotSelectedDataDirectory(fm)) == Some(Directory)
            && (forall k :: j <= k < |items| ==> CorpusPath(fm, items, k) !in fs)
            ==> (r.Done? <==> forall k :: j <= k < |items| ==> items[k].photo.localIdentifier in images)
    decreases |items| - j
  {
    if j == |items| then Done(fs)
    else
      var id := items[j].photo.localIdentifier;
      if id !in images then Threw(fs, ImageRequestFailed)
      else
        WrittenFromStep(fm, items, j);
        match WriteFile(fs, CorpusPath(fm, items, j), CorpusImage(images[id]))
        case Threw(fs1, e) => Threw(fs1, WritingFailed(e))
        case Done(fs1) => WriteCorpus(fm, fs1, items, images, j + 1)
  }

  /** The files written from element `j` on are the `j`-th element's file
      and those written after it, which never include the `j`-th. */
  lemma WrittenFromStep(fm: FileManager, items: seq<PhotoSelection>, j: nat)
    requires j < |items|
    ensures forall p :: WrittenFrom(fm, items, j, p) <==> p == CorpusPath(fm, items, j) || WrittenFrom(fm, items, j + 1, p)
    ensures !WrittenFrom(fm, items, j + 1, CorpusPath(fm, items, j))
    ensures CorpusPath(fm, items, j) != SelectedDataDirectory(fm)
    ensures CorpusPath(fm, items, j) != NotSelectedDataDirectory(fm)
  {
    CorpusRouting(fm, items, j);
    TrainingLayout(fm);
    forall p | WrittenFrom(fm, items, j, p)
      ensures p == CorpusPath(fm, items, j) || WrittenFrom(fm, items, j + 1, p)
    {
      var k :| j <= k < |items| && p == CorpusPath(fm, items, k);
    }
  }

  /** Every corpus file lies two levels below the training directory. */
  lemma CorpusUnderTraining(fm: FileManager, items: seq<PhotoSelection>, j: nat)
    ensures forall p :: WrittenFrom(fm, items, j, p) ==>
              Under(p, TrainingDataDirectory(fm)) && |p| == |TrainingDataDirectory(fm)| + 2
  {
    TrainingLayout(fm);
    forall p | WrittenFrom(fm, items, j, p)
      ensures Under(p, TrainingDataDirectory(fm)) && |p| == |TrainingDataDirectory(fm)| + 2
    {
      var k :| j <= k < |items| && p == CorpusPath(fm, items, k);
      CorpusRouting(fm, items, k);
    }
  }

  /** Cleaning followed by the corpus loop. Nothing that existed outside the
      training tree changes and nothing appears off the path to it; after a
      success the training tree holds exactly the two class directories and
      one file per element, each with its resized image. */
  function PrepareCorpus(fm: FileManager, fs: FileSystem, items: seq<PhotoSelection>, images: map<string, Image>)
    : (r: Attempt<TrainingError>)
    requires forall id :: id in images ==> Positive(images[id].size)
    ensures forall p :: p in fs && !Under(p, TrainingDataDirectory(fm)) ==> Lookup(r.fs, p) == Lookup(fs, p)
    ensures forall p :: p in r.fs && p !in fs ==>
              Under(TrainingDataDirectory(fm), p) || Under(p, TrainingDataDirectory(fm))
    ensures r.Done? ==> forall k :: 0 <= k < |items| ==>
              items[k].photo.localIdentifier in images
              && Lookup(r.fs, CorpusPath(fm, items, k)) == Some(File(CorpusImage(images[items[k].photo.localIdentifier])))
    ensures r.Done? && (TrainingDataDirectory(fm) in fs || IsTree(fs)) ==>
              forall p :: Under(p, TrainingDataDirectory(fm)) ==>
                (p in r.fs <==> p == TrainingDataDirectory(fm) || p == SelectedDataDirectory(fm)
                                || p == NotSelectedDataDirectory(fm) || WrittenFrom(fm, items, 0, p))
    ensures CleanTrainingDataDirectory(fm, fs).Done? && (TrainingDataDirectory(fm) in fs || IsTree(fs)) ==>
              (r.Done? <==> forall k :: 0 <= k < |items| ==> items[k].photo.localIdentifier in images)
  {
    match CleanTrainingDataDirectory(fm, fs)
    case Threw(fs1, e) =>
      CleanKeepsOutside(fm, fs);
      Threw(fs1, CleaningFailed(e))
    case Done(fs1) =>
      CleanKeepsOutside(fm, fs);
      CorpusUnderTraining(fm, items, 0);
      CorpusOnCleanedTree(fm, fs, fs1, items, images);
      WriteCorpus(fm, fs1, items, images, 0)
  }

  /** On a freshly cleaned tree the corpus loop fails only for a missing
      image, and on success leaves the two class directories and the
      corpus files as the whole training tree. */
  lemma CorpusOnCleanedTree(fm: FileManager, fs: FileSystem, fs1: FileSystem, items: seq<PhotoSelection>,
                            images: map<string, Image>)
    requires CleanTrainingDataDirectory(fm, fs) == Done(fs1)
    requires forall id :: id in images ==> Positive(images[id].size)
    ensures TrainingDataDirectory(fm) in fs || IsTree(fs) ==>
              (WriteCorpus(fm, fs1, items, images, 0).Done?
               <==> forall k :: 0 <= k < |items| ==> items[k].photo.localIdentifier in images)
    ensures (TrainingDataDirectory(fm) in fs || IsTree(fs)) && WriteCorpus(fm, fs1, items, images, 0).Done? ==>
              forall p :: Under(p, TrainingDataDirectory(fm)) ==>
                (p in WriteCorpus(fm, fs1, items, images, 0).fs
                 <==> p == TrainingDataDirectory(fm) || p == SelectedDataDirectory(fm)
                      || p == NotSelectedDataDirectory(fm) || WrittenFrom(fm, items, 0, p))
  {
    if TrainingDataDirectory(fm) in fs || IsTree(fs) {
      CleanedForCorpus(fm, fs, fs1);
      CorpusOnClassDirectories(fm, fs1, items, images);
    }
  }

  /** The corpus loop on a training tree that holds just the two class
      directories. */
  lemma CorpusOnClassDirectories(fm: FileManager, fs1: FileSystem, items: seq<PhotoSelection>, images: map<string, Image>)
    requires forall id :: id in images ==> Positive(images[id].size)
    requires Lookup(fs1, SelectedDataDirectory(fm)) == Some(Directory)
    requires Lookup(fs1, NotSelectedDataDirectory(fm)) == Some(Directory)
    requires forall p :: Under(p, TrainingDataDirectory(fm)) ==>
               (p in fs1 <==> p == TrainingDataDirectory(fm) || p == SelectedDataDirectory(fm)
                              || p == NotSelectedDataDirectory(fm))
    ensures WriteCorpus(fm, fs1, items, images, 0).Done?
            <==> forall k :: 0 <= k < |items| ==> items[k].photo.localIdentifier in images
    ensures WriteCorpus(fm, fs1, items, images, 0).Done? ==>
              forall p :: Under(p, TrainingDataDirectory(fm)) ==>
                (p in WriteCorpus(fm, fs1, items, images, 0).fs
                 <==> p == TrainingDataDirectory(fm) || p == SelectedDataDirectory(fm)
                      || p == NotSelectedDataDirectory(fm) || WrittenFrom(fm, items, 0, p))
  {
    CorpusUnderTraining(fm, items, 0);
    TrainingLayout(fm);
    assert forall k :: 0 <= k < |items| ==> CorpusPath(fm, items, k) !in fs1 by {
      forall k | 0 <= k < |items|
        ensures CorpusPath(fm, items, k) !in fs1
      {
        assert WrittenFrom(fm, items, 0, CorpusPath(fm, items, k));
      }
    }
  }

  /** A successful clean of a tree leaves the training tree ready for the
      corpus: the two class directories and nothing else below it. */
  lemma CleanedForCorpus(fm: FileManager, fs: FileSystem, fs1: FileSystem)
    requires CleanTrainingDataDirectory(fm, fs) == Done(fs1)
    ensures TrainingDataDirectory(fm) in fs || IsTree(fs) ==>
              && Lookup(fs1, SelectedDataDirectory(fm)) == Some(Directory)
              && Lookup(fs1, NotSelectedDataDirectory(fm)) == Some(Directory)
              && forall p :: Under(p, TrainingDataDirectory(fm)) ==>
                   (p in fs1 <==> p == TrainingDataDirectory(fm) || p == SelectedDataDirectory(fm)
                                  || p == NotSelectedDataDirectory(fm))
  {
    if TrainingDataDirectory(fm) in fs || IsTree(fs) {
      CleanLeavesTwoEmptyDirectories(fm, fs);
    }
  }

  /** Training on the labelled directories, which hold the images of
      `corpus`, writing the model, compiling it and preserving the compiled
      model. Writing the model and compiling it are library calls whose
      outcome is given by the environment; `modelWriteSucceeds` covers the
      whole write, including any `Classifier` directory it needs, and the
      model then simply stands at `classifierURL` (no directory entry for
      its parent is recorded). The training tree is left as it is; on failure the published
      model is untouched; on success it is the model compiled from `corpus`
      in this run, and the temporary copy is gone. */
  function PublishModel(fm: FileManager, fs: FileSystem, env: Environment, corpus: seq<PhotoSelection>)
    : (r: Attempt<TrainingError>)
    requires ValidEnvironment(fm, env)
    ensures forall p :: Under(p, TrainingDataDirectory(fm)) ==> Lookup(r.fs, p) == Lookup(fs, p)
    ensures r.Done? <==> env.trainingSucceeds && env.modelWriteSucceeds && env.compiledModel.Some?
    ensures r.Threw? ==> Lookup(r.fs, CompiledClassifierURL(fm)) == Lookup(fs, CompiledClassifierURL(fm))
    ensures r.Done? ==> Lookup(r.fs, CompiledClassifierURL(fm)) == Some(File(CompiledModel(corpus)))
                        && env.compiledModel.value !in r.fs
  {
    if !env.trainingSucceeds then Threw(fs, TrainingFailed)
    else if !env.modelWriteSucceeds then Threw(fs, ModelWriteFailed)
    else
      var written := fs[ClassifierURL(fm) := File(ModelSource(corpus))];
      TrainingTreeApartFromClassifier(fm);
      match env.compiledModel
      case None => Threw(written, CompilingFailed)
      case Some(temporary) =>
        var compiled := written[temporary := File(CompiledModel(corpus))];
        ReplacingKeepsTrainingTree(fm, fs, temporary, corpus);
        match PreserveTemporaryClassifier(fm, compiled, temporary)
        case Threw(fs1, e) => Threw(fs1, ReplacingFailed(e))
        case Done(fs1) => Done(fs1)
  }

  /** Moving the compiled model into place after the model description is
      written succeeds and leaves the training tree as it was. */
  lemma ReplacingKeepsTrainingTree(fm: FileManager, fs: FileSystem, temporary: Path, corpus: seq<PhotoSelection>)
    requires Disjoint(temporary, fm.applicationSupportDirectory)
    ensures var compiled := fs[ClassifierURL(fm) := File(ModelSource(corpus))][temporary := File(CompiledModel(corpus))];
            var r := PreserveTemporaryClassifier(fm, compiled, temporary);
            r.Done? && forall p :: Under(p, TrainingDataDirectory(fm)) ==> Lookup(r.fs, p) == Lookup(fs, p)
  {
    var compiled := fs[ClassifierURL(fm) := File(ModelSource(corpus))][temporary := File(CompiledModel(corpus))];
    TemporaryApart(fm, temporary);
    TrainingTreeApartFromClassifier(fm);
    var r := PreserveTemporaryClassifier(fm, compiled, temporary);
    forall p | Under(p, TrainingDataDirectory(fm))
      ensures Lookup(r.fs, p) == Lookup(fs, p)
    {
      assert !Under(p, CompiledClassifierURL(fm)) by {
        DisjointSubtrees(p, TrainingDataDirectory(fm), CompiledClassifierURL(fm));
      }
      assert p != ClassifierURL(fm) by {
        DisjointSubtrees(p, TrainingDataDirectory(fm), ClassifierURL(fm));
      }
    }
  }

  /** A temporary location outside the application-support directory shares
      no subtree with the training tree or the compiled model. */
  lemma TemporaryApart(fm: FileManager, temporary: Path)
    requires Disjoint(temporary, fm.applicationSupportDirectory)
    ensures Disjoint(temporary, CompiledClassifierURL(fm))
    ensures forall p :: Under(p, TrainingDataDirectory(fm)) ==> !Under(p, temporary)
    ensures !Under(TrainingDataDirectory(fm), temporary) && !Under(temporary, TrainingDataDirectory(fm))
  {
    var root := fm.applicationSupportDirectory;
    TrainingTreeApartFromClassifier(fm);
    forall p | Under(p, TrainingDataDirectory(fm))
      ensures !Under(p, temporary)
    {
      UnderTransitive(p, TrainingDataDirectory(fm), root);
      DisjointSubtrees(p, root, temporary);
    }
    if Under(temporary, TrainingDataDirectory(fm)) {
      UnderTransitive(temporary, TrainingDataDirectory(fm), root);
    }
    if Under(temporary, CompiledClassifierURL(fm)) {
      UnderTransitive(temporary, CompiledClassifierURL(fm), root);
    }
    DisjointSubtrees(CompiledClassifierURL(fm), root, temporary);
  }

  /* ---------------------------------------------------------------------- */
  /* One run                                                                 */

  /** The work after the gate: rebuild the corpus for `items`, then train
      and publish. Once cleaning succeeds on a tree, it succeeds exactly when
      every image arrives and training, writing and compiling all succeed.
      The published model changes only on success, and is then the one
      trained on `items`; after a success on a tree the training tree holds exactly
      the two class directories and one resized image per element. */
  function TrainOn(fm: FileManager, fs: FileSystem, env: Environment, items: seq<PhotoSelection>): (r: Attempt<TrainingError>)
    requires ValidEnvironment(fm, env)
    ensures r.Threw? ==> Lookup(r.fs, CompiledClassifierURL(fm)) == Lookup(fs, CompiledClassifierURL(fm))
    ensures r.Done? ==>
              && env.trainingSucceeds && env.modelWriteSucceeds && env.compiledModel.Some?
              && Lookup(r.fs, CompiledClassifierURL(fm)) == Some(File(CompiledModel(items)))
              && env.compiledModel.value !in r.fs
    ensures r.Done? ==> forall k :: 0 <= k < |items| ==>
              items[k].photo.localIdentifier in env.images
              && Lookup(r.fs, CorpusPath(fm, items, k)) == Some(File(CorpusImage(env.images[items[k].photo.localIdentifier])))
    ensures r.Done? && (TrainingDataDirectory(fm) in fs || IsTree(fs)) ==>
              forall p :: Under(p, TrainingDataDirectory(fm)) ==>
                (p in r.fs <==> p == TrainingDataDirectory(fm) || p == SelectedDataDirectory(fm)
                                || p == NotSelectedDataDirectory(fm) || WrittenFrom(fm, items, 0, p))
    ensures CleanTrainingDataDirectory(fm, fs).Done? && (TrainingDataDirectory(fm) in fs || IsTree(fs)) ==>
              (r.Done? <==> && (forall k :: 0 <= k < |items| ==> items[k].photo.localIdentifier in env.images)
                            && env.trainingSucceeds && env.modelWriteSucceeds && env.compiledModel.Some?)
  {
    match PrepareCorpus(fm, fs, items, env.images)
    case Threw(fs1, e) =>
      CompiledModelApart(fm);
      Threw(fs1, e)
    case Done(fs1) =>
      match PublishModel(fm, fs1, env, items)
      case Threw(fs2, e) =>
        CompiledModelApart(fm);
        Threw(fs2, e)
      case Done(fs2) =>
        PublishedCorpus(fm, fs, fs1, fs2, env, items);
        Done(fs2)
  }

  /** Publishing after the corpus is written leaves the corpus as written:
      each element's resized image, and, on a tree, exactly the two class
      directories and the corpus files in the training tree. */
  lemma PublishedCorpus(fm: FileManager, fs: FileSystem, fs1: FileSystem, fs2: FileSystem, env: Environment,
                        items: seq<PhotoSelection>)
    requires ValidEnvironment(fm, env)
    requires PrepareCorpus(fm, fs, items, env.images) == Done(fs1)
    requires PublishModel(fm, fs1, env, items) == Done(fs2)
    ensures forall k :: 0 <= k < |items| ==>
              items[k].photo.localIdentifier in env.images
              && Lookup(fs2, CorpusPath(fm, items, k)) == Some(File(CorpusImage(env.images[items[k].photo.localIdentifier])))
    ensures TrainingDataDirectory(fm) in fs || IsTree(fs) ==>
              forall p :: Under(p, TrainingDataDirectory(fm)) ==>
                (p in fs2 <==> p == TrainingDataDirectory(fm) || p == SelectedDataDirectory(fm)
                               || p == NotSelectedDataDirectory(fm) || WrittenFrom(fm, items, 0, p))
  {
    CorpusUnderTraining(fm, items, 0);
    forall k | 0 <= k < |items|
      ensures Lookup(fs2, CorpusPath(fm, items, k)) == Lookup(fs1, CorpusPath(fm, items, k))
    {
      assert WrittenFrom(fm, items, 0, CorpusPath(fm, items, k));
    }
    forall p | Under(p, TrainingDataDirectory(fm))
      ensures p in fs2 <==> p in fs1
    {
      assert Lookup(fs2, p) == Lookup(fs1, p);
    }
  }

  /** The compiled model lies neither on the path to the training directory
      nor inside it, so preparing the corpus never touches it. */
  lemma CompiledModelApart(fm: FileManager)
    ensures !Under(TrainingDataDirectory(fm), CompiledClassifierURL(fm))
    ensures !Under(CompiledClassifierURL(fm), TrainingDataDirectory(fm))
  {
    TrainingTreeApartFromClassifier(fm);
  }

  /** `execute`: one training run for the photos selected into the album.
      A failed album query ends the run before anything is touched; too few
      photos of either class turn the run away with the two counts and the
      file system as it was; otherwise the corpus is rebuilt from the
      balanced set and a model trained and published, which completes
      whenever cleaning succeeds on a tree, every image arrives and the
      library steps all succeed. */
  function Execute(fm: FileManager, fs: FileSystem, env: Environment, selectedLocalIdentifiers: seq<string>)
    : (r: Run)
    requires ValidEnvironment(fm, env)
    ensures env.album.Failure? ==> r == Run(fs, Failed(AlbumUnavailable))
    ensures r.outcome.NotEnoughData? <==>
              env.album.Success? && !EnoughTrainingData(AlbumSelections(env.album.value, env.library, selectedLocalIdentifiers))
    ensures r.outcome.NotEnoughData? ==>
              && env.album.Success?
              && r.fs == fs
              && r.outcome.selectedCount == |SelectedOf(AlbumSelections(env.album.value, env.library, selectedLocalIdentifiers))|
              && r.outcome.notSelectedCount == |NotSelectedOf(AlbumSelections(env.album.value, env.library, selectedLocalIdentifiers))|
    ensures !r.outcome.Trained? ==>
              Lookup(r.fs, CompiledClassifierURL(fm)) == Lookup(fs, CompiledClassifierURL(fm))
    ensures r.outcome.Trained? ==>
              && env.album.Success?
              && EnoughTrainingData(AlbumSelections(env.album.value, env.library, selectedLocalIdentifiers))
              && env.trainingSucceeds && env.modelWriteSucceeds && env.compiledModel.Some?
              && Lookup(r.fs, CompiledClassifierURL(fm))
                 == Some(File(CompiledModel(CorpusItems(AlbumSelections(env.album.value, env.library, selectedLocalIdentifiers)))))
              && env.compiledModel.value !in r.fs
    ensures env.album.Success?
            && EnoughTrainingData(AlbumSelections(env.album.value, env.library, selectedLocalIdentifiers))
            && CleanTrainingDataDirectory(fm, fs).Done? && (TrainingDataDirectory(fm) in fs || IsTree(fs)) ==>
              var items := CorpusItems(AlbumSelections(env.album.value, env.library, selectedLocalIdentifiers));
              (r.outcome.Trained? <==> && (forall k :: 0 <= k < |items| ==> items[k].photo.localIdentifier in env.images)
                                       && env.trainingSucceeds && env.modelWriteSucceeds && env.compiledModel.Some?)
  {
    match env.album
    case Failure(_) => Run(fs, Failed(AlbumUnavailable))
    case Success(album) => RunOnSelections(fm, fs, env, AlbumSelections(album, env.library, selectedLocalIdentifiers))
  }

  /** The part of `execute` after the album query: the class counts decide
      whether to train, and a training run rebuilds the corpus from the
      balanced set and publishes the model. */
  function RunOnSelections(fm: FileManager, fs: FileSystem, env: Environment, selections: seq<PhotoSelection>)
    : (r: Run)
    requires ValidEnvironment(fm, env)
    ensures r.outcome.NotEnoughData? <==> !EnoughTrainingData(selections)
    ensures r.outcome.NotEnoughData? ==>
              && r.fs == fs
              && r.outcome.selectedCount == |SelectedOf(selections)|
              && r.outcome.notSelectedCount == |NotSelectedOf(selections)|
    ensures !r.outcome.Trained? ==>
              Lookup(r.fs, CompiledClassifierURL(fm)) == Lookup(fs, CompiledClassifierURL(fm))
    ensures r.outcome.Trained? ==>
              && EnoughTrainingData(selections)
              && env.trainingSucceeds && env.modelWriteSucceeds && env.compiledModel.Some?
              && Lookup(r.fs, CompiledClassifierURL(fm)) == Some(File(CompiledModel(CorpusItems(selections))))
              && env.compiledModel.value !in r.fs
    ensures EnoughTrainingData(selections)
            && CleanTrainingDataDirectory(fm, fs).Done? && (TrainingDataDirectory(fm) in fs || IsTree(fs)) ==>
              var items := CorpusItems(selections);
              (r.outcome.Trained? <==> && (forall k :: 0 <= k < |items| ==> items[k].photo.localIdentifier in env.images)
                                       && env.trainingSucceeds && env.modelWriteSucceeds && env.compiledModel.Some?)
  {
    ClassesPartition(selections);
    var selectedCount := |SelectedOf(selections)|;
    var notSelectedCount := |selections| - selectedCount;
    if Min(selectedCount, notSelectedCount) < MinimumPhotoSelectionCount then
      Run(fs, NotEnoughData(selectedCount, notSelectedCount))
    else
      match TrainOn(fm, fs, env, CorpusItems(selections))
      case Threw(fs1, e) => Run(fs1, Failed(e))
      case Done(fs1) => Run(fs1, Trained)
  }

  /** After a completed run the classifier can load the model: the compiled
      location holds the model trained on this run's corpus. */
  lemma TrainedModelLoads(fm: FileManager, fs: FileSystem, env: Environment, selectedLocalIdentifiers: seq<string>)
    requires ValidEnvironment(fm, env)
    ensures Execute(fm, fs, env, selectedLocalIdentifiers).outcome.Trained? ==>
              ModelLoads(fm, Execute(fm, fs, env, selectedLocalIdentifiers).fs)
  {
  }

  /** An album without photos has no time span, so no photos are labelled
      and the run is turned away with two zero counts. */
  lemma EmptyAlbumNeverTrains(fm: FileManager, fs: FileSystem, env: Environment, selectedLocalIdentifiers: seq<string>)
    requires ValidEnvironment(fm, env)
    requires env.album == Success([])
    ensures Execute(fm, fs, env, selectedLocalIdentifiers) == Run(fs, NotEnoughData(0, 0))
  {
    assert AlbumSelections([], env.library, selectedLocalIdentifiers) == [];
  }

  /** After a completed run the corpus is the one the balanced set calls
      for: one resized image per element the iterator yields, each in the
      directory of its label, and, on a tree, nothing else in the training
      tree but the two class directories. */
  lemma CompletedRunCorpus(fm: FileManager, fs: FileSystem, env: Environment, selectedLocalIdentifiers: seq<string>)
    requires ValidEnvironment(fm, env)
    ensures Execute(fm, fs, env, selectedLocalIdentifiers).outcome.Trained? ==>
              && env.album.Success?
              && var items := CorpusItems(AlbumSelections(env.album.value, env.library, selectedLocalIdentifiers));
                 var r := Execute(fm, fs, env, selectedLocalIdentifiers);
                 && (forall k :: 0 <= k < |items| ==>
                       && items[k].photo.localIdentifier in env.images
                       && Parent(CorpusPath(fm, items, k)) == DirectoryFor(fm, items[k])
                       && Lookup(r.fs, CorpusPath(fm, items, k))
                          == Some(File(CorpusImage(env.images[items[k].photo.localIdentifier]))))
                 && (TrainingDataDirectory(fm) in fs || IsTree(fs) ==>
                       forall p :: Under(p, TrainingDataDirectory(fm)) ==>
                         (p in r.fs <==> p == TrainingDataDirectory(fm) || p == SelectedDataDirectory(fm)
                                         || p == NotSelectedDataDirectory(fm) || WrittenFrom(fm, items, 0, p)))
  {
    if Execute(fm, fs, env, selectedLocalIdentifiers).outcome.Trained? {
      var items := CorpusItems(AlbumSelections(env.album.value, env.library, selectedLocalIdentifiers));
      assert TrainOn(fm, fs, env, items).Done?;
      forall k | 0 <= k < |items|
        ensures Parent(CorpusPath(fm, items, k)) == DirectoryFor(fm, items[k])
      {
        CorpusRouting(fm, items, k);
      }
    }
  }

}
