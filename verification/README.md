# PhotoSelectionClassifier — a Dafny model of the training pipeline

PhotoSelectionClassifier is an iOS app. It learns which photos a user tends to
keep: photos the user shares into a curated album count as *selected*, and every
other library photo taken in the album's time span counts as *not selected*.
From these it trains an on-device image classifier. The classifier can then
pre-select photos in the picker.

This project models the app's core in Dafny and proves properties of it:

- **Training-set construction** (`PhotoSelectionTrainer.execute`), covering:
  - labelling the photos of the album's time span;
  - the minimum-data gate of twenty photos per class;
  - balancing by a newest-first walk into two buckets;
  - the fit-inside resize to 300 × 300;
  - the hand-written iterator that feeds the corpus writer;
  - the order of the file-system steps: clean, write the corpus, write the model, compile it, and move the compiled model into place.
- **The classifier file manager**, over an abstract file system (a finite map from paths to entries, where removing or moving an item acts on its whole subtree):
  - the fixed directory layout;
  - resetting the training directory;
  - replacing the compiled model;
  - the "compiled model exists" test.
- **The label enum** and its raw-value parsing.
- **Three view-model state machines:**
  - the album screen's supersede-the-previous-training-task bookkeeping;
  - the picker's appear, share, close and auto-select transitions;
  - one grid cell's selection and deferred auto-select flag.

The library effects become inputs: the album query result, the photo library,
the delivered images, whether training, model writing and compilation succeed,
and the vision request's answer for each image. Foundation's `FileManager` calls become functions
on the abstract file system.

Modules, one per file:

- `Wrappers`: `Option`, `Result`, `Min`.
- `Entities`: `Photo`, `AlbumPhoto`, `Image`, `Size`, and the repository errors.
- `Repositories`: the photo-library and album-store queries over explicit collections.
- `FileSystem`: the abstract file system.
- `ClassifierFileManager`: the layout and the file operations the app performs on it.
- `Classifier`: the label enum and its parsing.
- `Selections`: labelling, the gate, sorting and balancing.
- `BalanceProperties`: what the balancing walk guarantees and what it does not.
- `Resize`: the fit-inside resize.
- `ImagesFetcher`: the corpus iterator.
- `Trainer`: one training run.
- `Album`, `PhotoPicker`, `PhotoGrid`: the three view models.

Two behaviours of the code, as written, are worth knowing. The model
follows the code in both:

- **Balancing.** The run logs that it is "aligning the number of Selected / Not selected to the smaller one" (PhotoSelectionTrainer.swift:37). The walk stops as soon as *one* bucket reaches the limit `n`, the smaller class count. The step that stops it adds to that bucket alone, so the other bucket always ends at least one short of `n`, and the set never holds `n` of both.
  - `BalanceProperties.OneBucketReachesLimit` states what the walk does guarantee.
  - `BalanceProperties.NewerMajorityStarvesMinority` exhibits a balanced set that holds no selected photo at all.
- **The iterator.** The iterator feeds the loop that writes the balanced set to the corpus. Its stop test `index >= count - 1` never yields the last element.
  - `ImagesFetcher.YieldsAllButLast` states this.
  - The run in `Trainer.Execute` writes exactly those elements.

## Model

All source paths below are relative to the repository root.

| member | source | states |
|---|---|---|
| Repositories.FetchPhotosInRange | PhotoSelectionClassifier/Repositories/PhotoRepository.swift:50-64 | the result holds exactly the library's image assets whose creation date lies in the closed range, and nothing else |
| Repositories.FetchPhotosExcluding | PhotoSelectionClassifier/Repositories/PhotoRepository.swift:12-22 | the result holds exactly the library assets, of any media type, whose local identifier is not excluded, each as often as in the library, newest first |
| Repositories.SortNewestFirst | PhotoSelectionClassifier/Repositories/PhotoRepository.swift:14 | the result is newest-first and a rearrangement of the input (one of the orders a descending `creationDate` sort may return) |
| Repositories.OldestTakenAt | PhotoSelectionClassifier/Repositories/AlbumPhotoRepository.swift:81-94 | the ascending one-row query gives a `takenAt` of some album record, no later than any record's |
| Repositories.LatestTakenAt | PhotoSelectionClassifier/Repositories/AlbumPhotoRepository.swift:81-94 | the descending one-row query gives a `takenAt` of some album record, no earlier than any record's |
| Repositories.OldestAndLatestTakenAt | PhotoSelectionClassifier/Repositories/AlbumPhotoRepository.swift:35-49 | nil exactly for an empty album; otherwise an ordered pair, each end attained by a record, bounding every record's `takenAt` |
| Repositories.LocalIdentifiers | PhotoSelectionClassifier/ViewModels/AlbumViewModel.swift:40 | the identifiers handed to the trainer are the album records' identifiers, one per record, in album order |
| Selections.LabelPhotos | PhotoSelectionClassifier/Services/PhotoSelectionTrainer.swift:97-105 | one selection per fetched photo, in the same order; a photo is selected iff its identifier is among the album's identifiers |
| Selections.FetchPhotoSelections | PhotoSelectionClassifier/Services/PhotoSelectionTrainer.swift:93-106 | no time span gives no selections; every selection is a library image inside the span, labelled correctly; every library image inside the span appears with its label |
| Selections.ClassMembers | PhotoSelectionClassifier/Services/PhotoSelectionTrainer.swift:28 | the selected class holds exactly the list's selected elements, and the not-selected class exactly the others |
| Selections.ClassesPartition | PhotoSelectionClassifier/Services/PhotoSelectionTrainer.swift:28-29 | the two classes together are a rearrangement of the list, so the total minus the selected count is the not-selected count |
| Selections.ClassesOfConcat | PhotoSelectionClassifier/Services/PhotoSelectionTrainer.swift:112-117 | taking a class distributes over concatenation, so each bucket keeps the walk's order |
| Selections.ClassCountsFollowMultiset | PhotoSelectionClassifier/Services/PhotoSelectionTrainer.swift:108-109 | any rearrangement of a list, the sorted one included, has the same number of photos in each class |
| Selections.GateNeedsTwentyOfEach | PhotoSelectionClassifier/Services/PhotoSelectionTrainer.swift:28-35 | the gate passes iff both classes hold at least twenty photos; the limit is the smaller class count; fewer than forty photos never pass |
| Selections.InsertByDate | PhotoSelectionClassifier/Services/PhotoSelectionTrainer.swift:109 | inserting into a newest-first list keeps it newest-first and adds exactly that element |
| Selections.SortByDateDescending | PhotoSelectionClassifier/Services/PhotoSelectionTrainer.swift:109 | the result is newest-first and a rearrangement of the input (one of the orders Swift's unstable sort may return) |
| Selections.StopIndex | PhotoSelectionClassifier/Services/PhotoSelectionTrainer.swift:112-124 | the walk stops just after the first position at which some class of the walked prefix reaches the limit, or at the end when none does |
| Selections.WalkIntoBuckets | PhotoSelectionClassifier/Services/PhotoSelectionTrainer.swift:110-125 | the loop with its early `break` returns the selected bucket and then the not-selected bucket of the walked prefix |
| BalanceProperties.BalanceKeepsNewestPrefix | PhotoSelectionClassifier/Services/PhotoSelectionTrainer.swift:108-126 | the balanced set rearranges the shortest newest-first prefix in which a class reaches the limit (or the whole list), so every kept photo is at least as recent as every dropped one |
| BalanceProperties.ClassesKeepOrder | PhotoSelectionClassifier/Services/PhotoSelectionTrainer.swift:112-117 | each class of a newest-first list is newest-first |
| BalanceProperties.BucketsInDateOrder | PhotoSelectionClassifier/Services/PhotoSelectionTrainer.swift:110-125 | each bucket holds only its own class and is newest-first |
| BalanceProperties.BalanceClassCounts | PhotoSelectionClassifier/Services/PhotoSelectionTrainer.swift:110-125 | each class of the balanced set is the same class of the walked prefix, so the buckets neither gain nor lose photos in the concatenation |
| BalanceProperties.OneBucketReachesLimit | PhotoSelectionClassifier/Services/PhotoSelectionTrainer.swift:119-125 | with the limit equal to the smaller class count, one bucket holds exactly the limit and the other strictly fewer, so the set holds at least the limit and fewer than twice the limit |
| BalanceProperties.WalkThroughNewerMajority | PhotoSelectionClassifier/Services/PhotoSelectionTrainer.swift:112-124 | while only not-selected photos have been walked, the walk continues until it has taken the limit of them |
| BalanceProperties.NewerMajorityStarvesMinority | PhotoSelectionClassifier/Services/PhotoSelectionTrainer.swift:119-125 | when the newest `k` photos are not selected and the `k` older ones are, the balanced set is those `k` not-selected photos with no selected photo at all |
| Resize.ResizeImage | PhotoSelectionClassifier/Services/PhotoSelectionTrainer.swift:151-162 | for positive sizes the result is positive, fits inside the target, fills it along at least one axis, and keeps the aspect ratio |
| Resize.FitInsideIsUnique | PhotoSelectionClassifier/Services/PhotoSelectionTrainer.swift:151-162 | any size that fits inside, fills one axis and keeps the aspect ratio is the resize result |
| Resize.ResizeIsIdempotent | PhotoSelectionClassifier/Services/PhotoSelectionTrainer.swift:151-162 | resizing a resized image to the same target changes nothing |
| ImagesFetcher.Next | PhotoSelectionClassifier/Services/PhotoSelectionTrainer.swift:185-199 | the index always advances; an element comes back iff the index is below `count - 1`, and it is the element at the index |
| ImagesFetcher.CollectFrom | PhotoSelectionClassifier/Services/PhotoSelectionTrainer.swift:185-199 | from position `i`, a `for try await` loop receives the elements from `i` up to the last one, not including the last |
| ImagesFetcher.YieldsAllButLast | PhotoSelectionClassifier/Services/PhotoSelectionTrainer.swift:185-199 | the loop receives every element but the last, in order, and nothing for an empty or one-element list |
| FileSystem.RemoveItem | PhotoSelectionClassifier/Services/PhotoSelectionClassifierFileManager.swift:54-56 | removing deletes the item and its whole subtree and keeps every other entry; it throws, changing nothing, iff nothing is there |
| FileSystem.CreateDirectory | PhotoSelectionClassifier/Services/PhotoSelectionClassifierFileManager.swift:57-62 | creating with intermediates throws, changing nothing, iff a file stands at the path or above it; otherwise the path and its ancestors are directories and nothing else changes |
| FileSystem.WriteFile | PhotoSelectionClassifier/Services/PhotoSelectionTrainer.swift:61-62 | writing succeeds iff the parent directory exists and no directory stands at the path; it then stores exactly that file |
| FileSystem.ReplaceItem | PhotoSelectionClassifier/Services/PhotoSelectionClassifierFileManager.swift:66-70 | replacing throws, changing nothing, iff the replacement is missing or overlaps the original; otherwise the original path holds the replacement's contents, the replacement path is gone, and unrelated paths are unchanged |
| ClassifierFileManager.TrainingLayout | PhotoSelectionClassifier/Services/PhotoSelectionClassifierFileManager.swift:22-31 | the class directories are `TrainingData/Selected` and `TrainingData/NotSelected` under the application-support root, side by side and disjoint |
| ClassifierFileManager.ClassifierFilesAreSiblings | PhotoSelectionClassifier/Services/PhotoSelectionClassifierFileManager.swift:33-43 | the model and the compiled model share the `Classifier` directory and differ only in their `.mlmodel` and `.mlmodelc` file names |
| ClassifierFileManager.TrainingTreeApartFromClassifier | PhotoSelectionClassifier/Services/PhotoSelectionClassifierFileManager.swift:22-43 | the training tree and the `Classifier` directory and its files are disjoint, and both lie under the application-support root |
| ClassifierFileManager.CompiledClassifierFileExists | PhotoSelectionClassifier/Services/PhotoSelectionClassifierFileManager.swift:45-47 | true iff something is stored at the compiled model's path |
| ClassifierFileManager.CleanTrainingDataDirectory | PhotoSelectionClassifier/Services/PhotoSelectionClassifierFileManager.swift:53-63 | remove the training directory when present, then create both class directories; a success leaves both in place (the rest of its effect is stated by `CleanKeepsOutside`, `CleanLeavesTwoEmptyDirectories` and `CleanThrowsOnlyWhenBlocked`) |
| ClassifierFileManager.CleanKeepsOutside | PhotoSelectionClassifier/Services/PhotoSelectionClassifierFileManager.swift:53-63 | whether or not it throws, cleaning changes nothing outside the training tree and adds only directories on the path to it or inside it; when the training directory is absent it removes nothing |
| ClassifierFileManager.CleanLeavesTwoEmptyDirectories | PhotoSelectionClassifier/Services/PhotoSelectionClassifierFileManager.swift:53-63 | after a successful clean, the training tree holds exactly the training directory and the two empty class directories |
| ClassifierFileManager.CleanThrowsOnlyWhenBlocked | PhotoSelectionClassifier/Services/PhotoSelectionClassifierFileManager.swift:53-63 | cleaning throws when a file stands at or above the application-support directory, and, when the training directory exists or the file system is a tree, only then |
| ClassifierFileManager.PreserveTemporaryClassifier | PhotoSelectionClassifier/Services/PhotoSelectionClassifierFileManager.swift:65-73 | it succeeds iff the temporary model exists and does not overlap the compiled path; the compiled path then holds the temporary model's former contents and the temporary path is gone; a throw changes nothing |
| Classifier.FromRawValue | PhotoSelectionClassifier/Services/PhotoSelectionClassifier.swift:6-9 | only "Selected" and "NotSelected" parse, and a parsed label's raw value is the parsed string |
| Classifier.LabelFromIdentifier | PhotoSelectionClassifier/Services/PhotoSelectionClassifier.swift:31-32 | the force-unwrapped parse needs one of the two raw values, and returns the label whose raw value it is |
| Classifier.ClassifyImage | PhotoSelectionClassifier/Services/PhotoSelectionClassifier.swift:18-47 | classifying fails with the model error when no compiled model is stored at the compiled path; with the model loaded it fails with the request's error (which may itself be a model error, as when the Vision model cannot be built) iff the request throws, and otherwise returns the label whose raw value the top observation names |
| Classifier.ClassifiesByDirectoryName | PhotoSelectionClassifier/Services/PhotoSelectionClassifier.swift:31-32 | when the model answers with the name of a class directory, the classifier reports that directory's label |
| Classifier.RawValueRoundTrip | PhotoSelectionClassifier/Services/PhotoSelectionClassifier.swift:6-9 | parsing a label's raw value gives the label back |
| Classifier.TwoDistinctLabels | PhotoSelectionClassifier/Services/PhotoSelectionClassifier.swift:6-9 | there are exactly two labels, with distinct raw values |
| Classifier.ClassDirectoriesNameTheLabels | PhotoSelectionClassifier/Services/PhotoSelectionClassifier.swift:7-8 | the class directory names are the raw values, so each directory's name reads back as its own label |
| Trainer.LimitOfSortedOrder | PhotoSelectionClassifier/Services/PhotoSelectionTrainer.swift:31-38 | the limit computed on the labelled photos is the smaller class count of the newest-first order the walk uses |
| Trainer.TrainingSetBuckets | PhotoSelectionClassifier/Services/PhotoSelectionTrainer.swift:31-38 | once the gate passes, one class of the training set holds exactly the limit and the other strictly fewer, so the set holds at least the limit and fewer than twice the limit |
| Trainer.TrainingSetMembers | PhotoSelectionClassifier/Services/PhotoSelectionTrainer.swift:38-52 | the training set draws only on the labelled photos, and the corpus loop receives all of it but its last element |
| Trainer.BalanceDrawsOnInput | PhotoSelectionClassifier/Services/PhotoSelectionTrainer.swift:108-126 | balancing keeps only elements of its input |
| Trainer.FilterPhotoSelections | PhotoSelectionClassifier/Services/PhotoSelectionTrainer.swift:108-126 | the step is the bucket walk over the newest-first order; it keeps only photos it was given; with the limit set to the smaller class count, one class of the result holds exactly the limit, the other strictly fewer, and the result fewer than twice the limit |
| Trainer.CorpusRouting | PhotoSelectionClassifier/Services/PhotoSelectionTrainer.swift:55-60 | each element's file lies directly in the directory of its label, whose name reads back as that label; distinct elements get distinct files |
| Trainer.WriteCorpus | PhotoSelectionClassifier/Services/PhotoSelectionTrainer.swift:52-63 | the loop touches only the corpus files; on success each file holds the element's resized image; with the class directories present and the files new, it fails iff some image is unavailable |
| Trainer.PrepareCorpus | PhotoSelectionClassifier/Services/PhotoSelectionTrainer.swift:47-63 | cleaning then writing changes nothing that existed outside the training tree; on success the training tree is exactly the two class directories and the corpus files; after a good clean it fails iff an image is unavailable |
| Trainer.PublishModel | PhotoSelectionClassifier/Services/PhotoSelectionTrainer.swift:65-87 | it succeeds iff training, writing and compiling all succeed; a failure leaves the compiled model as it was; success stores at the compiled path the model trained in this run on the given corpus and removes the temporary copy; the training tree is untouched |
| Trainer.TrainOn | PhotoSelectionClassifier/Services/PhotoSelectionTrainer.swift:47-87 | once cleaning succeeds on a tree, it succeeds iff every image arrives and training, writing and compiling succeed; any failure leaves the compiled model untouched; success stores the model trained on exactly these elements at the compiled path, each element's resized image in its label's directory, and, on a tree, nothing else in the training tree |
| Trainer.Execute | PhotoSelectionClassifier/Services/PhotoSelectionTrainer.swift:24-91 | a failed album query and a failed gate both leave the file system as it was, and the gate reports the two class counts; the compiled model changes only when every step succeeds, and is then the model trained on the elements the iterator yields from the balanced set; past the gate, with cleaning succeeding on a tree, the run completes iff every yielded element's image arrives and training, writing and compiling succeed |
| Trainer.RunOnSelections | PhotoSelectionClassifier/Services/PhotoSelectionTrainer.swift:34-87 | the run after the album query is turned away, with the file system as it was and the two class counts, exactly when either class has fewer than twenty photos; otherwise the compiled model changes only when every step succeeds and is then the model trained on the iterator's elements of the balanced set; with cleaning succeeding on a tree, it completes iff every element's image arrives and training, writing and compiling succeed |
| Trainer.TrainedModelLoads | PhotoSelectionClassifier/Services/PhotoSelectionTrainer.swift:86-87 | after a completed run the classifier can load the model stored at the compiled path |
| Trainer.EmptyAlbumNeverTrains | PhotoSelectionClassifier/Services/PhotoSelectionTrainer.swift:94 | an album with no photos has no span, so nothing is labelled and the run is turned away with two zero counts |
| Trainer.CompletedRunCorpus | PhotoSelectionClassifier/Services/PhotoSelectionTrainer.swift:47-63 | after a completed run, every element the iterator yields has its resized image in its label's directory, and the training tree holds nothing else |
| Album.Initial | PhotoSelectionClassifier/ViewModels/AlbumViewModel.swift:7-9 | the screen starts with no photos and no task, a valid task state |
| Album.LoadAlbumPhotos | PhotoSelectionClassifier/ViewModels/AlbumViewModel.swift:29-35 | a successful fetch replaces the album; a failed one keeps it; tasks are untouched |
| Album.StartTraining | PhotoSelectionClassifier/ViewModels/AlbumViewModel.swift:37-42 | the stored task is cancelled and nothing else about earlier tasks changes; the new live task gets the album identifiers in album order; validity is preserved |
| Album.OnAppear | PhotoSelectionClassifier/ViewModels/AlbumViewModel.swift:19-22 | reload, then start one task on the album as reloaded (or as it was, if the reload failed), preserving validity |
| Album.OnPhotoPickerViewDismissed | PhotoSelectionClassifier/ViewModels/AlbumViewModel.swift:24-27 | dismissing the picker does exactly what appearing does |
| Album.AtMostOneLiveTask | PhotoSelectionClassifier/ViewModels/AlbumViewModel.swift:37-42 | after any sequence of events, one task has been started per event and at most one is live: the latest, which is the stored one |
| PhotoPicker.Initial | PhotoSelectionClassifier/ViewModels/PhotoPickerViewModel.swift:10-12 | no cells, not dismissed, no auto-select button |
| PhotoPicker.OnAppear | PhotoSelectionClassifier/ViewModels/PhotoPickerViewModel.swift:24-36 | on success, one fresh cell per library asset outside the album, newest first, and the button iff a compiled model exists; a failed album fetch changes nothing |
| PhotoPicker.PickerOffersPhotosOutsideAlbum | PhotoSelectionClassifier/ViewModels/PhotoPickerViewModel.swift:26-31 | a library photo gets a cell iff no album record has its identifier, and every cell starts unselected and without an image |
| PhotoPicker.SelectedPhotosMembers | PhotoSelectionClassifier/ViewModels/PhotoPickerViewModel.swift:40 | a photo is shared iff some selected cell shows it |
| PhotoPicker.SelectedPhotosOfCell | PhotoSelectionClassifier/ViewModels/PhotoPickerViewModel.swift:40 | a single cell contributes its photo iff it is selected |
| PhotoPicker.SelectedPhotosOfConcat | PhotoSelectionClassifier/ViewModels/PhotoPickerViewModel.swift:40 | the filter keeps cell order: sharing from two runs of cells gives the first run's photos, then the second's |
| PhotoPicker.OnShareButtonTapped | PhotoSelectionClassifier/ViewModels/PhotoPickerViewModel.swift:38-46 | the shared photos are the selected cells' photos, one per selected cell in grid order (the filter of `SelectedPhotosOfCell` and `SelectedPhotosOfConcat`); the screen asks to be dismissed iff sharing succeeds, and a failed share changes nothing |
| PhotoPicker.OnCloseButtonTapped | PhotoSelectionClassifier/ViewModels/PhotoPickerViewModel.swift:48-50 | closing always asks to be dismissed and leaves the cells and the button alone |
| PhotoPicker.OnAutoSelectButtonTapped | PhotoSelectionClassifier/ViewModels/PhotoPickerViewModel.swift:52-65 | every cell runs its own auto-select and the group always completes: cells with an image take the classifier's label unless classification fails, cells without one only defer; nothing else changes |
| PhotoPicker.AutoSelectIsIdempotent | PhotoSelectionClassifier/ViewModels/PhotoPickerViewModel.swift:52-65 | tapping auto-select again changes nothing more |
| PhotoGrid.Initial | PhotoSelectionClassifier/ViewModels/PhotoGridViewModel.swift:6-19 | a fresh cell has its photo, no image, no selection and no deferred request |
| PhotoGrid.OnPhotoGridTapped | PhotoSelectionClassifier/ViewModels/PhotoGridViewModel.swift:36-40 | a tap inverts the selection and changes nothing else |
| PhotoGrid.TapTwiceIsIdentity | PhotoSelectionClassifier/ViewModels/PhotoGridViewModel.swift:36-40 | two taps leave the cell as it was |
| PhotoGrid.ReflectPhotoSelection | PhotoSelectionClassifier/ViewModels/PhotoGridViewModel.swift:59-67 | the cell is selected iff the label is `Selected`; nothing else changes |
| PhotoGrid.ReflectIsIdempotent | PhotoSelectionClassifier/ViewModels/PhotoGridViewModel.swift:59-67 | reflecting a label twice is reflecting it once, and a tap before reflecting is overridden |
| PhotoGrid.OnAutoSelectButtonTapped | PhotoSelectionClassifier/ViewModels/PhotoGridViewModel.swift:42-57 | without an image only the deferred flag is set; with one, a classification error is swallowed and changes nothing, and a label is reflected; it never fails |
| PhotoGrid.OnAppear | PhotoSelectionClassifier/ViewModels/PhotoGridViewModel.swift:21-34 | it classifies only when an auto-select was deferred; the image is kept only when loading and any deferred classification both succeed, otherwise nothing changes; the deferred flag is never cleared |
| PhotoGrid.DeferredAutoSelectAgrees | PhotoSelectionClassifier/ViewModels/PhotoGridViewModel.swift:21-52 | an auto-select deferred until the image arrives reaches the same selection as one made with the image present |
| PhotoGrid.ReappearanceOverridesTap | PhotoSelectionClassifier/ViewModels/PhotoGridViewModel.swift:21-40 | since the deferred flag is never cleared, a later appearance classifies again and overrides a tap made in between |

## Left out

- FileSystem: the abstract file system fails only for structural reasons: nothing at the path, a file in the way, a missing parent, or overlapping paths. I/O failures, such as a full disk, a denied permission or a locked file, are not modelled for `removeItem`, `createDirectory`, `replaceItemAt` or `Data.write(to:)`. So the success directions that rest on the file system hold only for a file system without such failures: the "only then" of `ClassifierFileManager.CleanThrowsOnlyWhenBlocked`, and the "succeeds iff every image arrives" of `Trainer.WriteCorpus`, `Trainer.PrepareCorpus`, `Trainer.TrainOn` and `Trainer.Execute`. The safety directions do not depend on this: any failure still leaves the compiled model untouched.
- PhotoKit, Core Data, CreateML, CoreML and Vision are foreign calls. Their results are inputs:
  - the photo library as a sequence;
  - the album store as a fetch result;
  - the delivered images as a map from identifier to image, where a missing entry is a failed request;
  - whether training and model writing succeed;
  - where compilation leaves its output, or that it fails;
  - the vision request's answer (the top observation's identifier, or an error) for each image; the picker and the grid take the resulting verdict as a function from image to label or error.
- `ImageClassifierTrainer`, `PhotoImageRequester` and `Persistence` are not part of this model.
- The SwiftUI views and the app entry point are UI rendering.
- JPEG encoding and `UIGraphicsImageRenderer` drawing are left out. A corpus file holds only the resized size as a `JpegImage` blob.
- The trained model and the compiled model are blobs, `ModelSource` and `CompiledModel`, identified only by the corpus they were trained on. The training parameters and the model metadata are left out.
- Trainer.ValidEnvironment: assumes every delivered image has a positive width and height. The source divides by the image's size when resizing, at PhotoSelectionTrainer.swift:154-155, and a zero-size image is not modelled. It also assumes that compilation leaves its temporary output outside the application-support directory, as a system temporary location is; the proofs that publishing leaves the training tree alone rely on it.
- Trainer.PublishModel: writing the model and the compiled copy are library effects recorded as plain entries. The `Classifier` directory that holds them is never created in the model, so the file system is no longer a tree there; the write's success flag stands for the whole write, directory included.
- Resize.ResizeImage: uses exact `real` arithmetic, not `CGFloat` rounding. The properties hold exactly in the model and only up to rounding on a device.
- Selections.SortByDateDescending: is one particular newest-first permutation, an insertion sort. Swift's `sorted` promises nothing about equal dates. The balancing lemmas in `BalanceProperties` hold for any newest-first input.
- Repositories.SortNewestFirst: is one particular newest-first permutation, likewise. The photo library's order for equal creation dates is not modelled.
- `UUID().uuidString` file names are `Generated(j)` tokens, unique by construction, as real UUIDs are in practice.
- `fetchTargetImages` is never called, and is left out.
- `sharePhotosToAlbum` is a Core Data batch insert. Its effect is reduced to whether it succeeds.
- `fetchAlbumPhotos` is reduced to its result.
- Album.StartTraining: concurrency and real cancellation are not modelled. A task is a record with a `cancelled` flag, because the trainer never observes cancellation.
- Concurrency and interleaving are not modelled:
  - the actor, `async`/`await` and `@MainActor` hops;
  - the picker's task group, modelled as applying each cell's auto-select independently, which is what the group computes;
  - racing between a running training task and a later one.
- The classifier's verdict is deterministic for a given image: the same function is applied wherever the app classifies.
- ClassifierFileManager.CleanLeavesTwoEmptyDirectories: when the training directory is absent, it assumes the file system is a tree (every ancestor of an entry is a directory). A real file system always is, but the abstract map need not be.
- Trainer.Execute: states the exact training-tree contents only through `Trainer.CompletedRunCorpus`, under the same tree assumption when the training directory did not exist before the run.
- The application-support directory is a given path. Its lookup, `urls(for:in:).first!`, is left out.
