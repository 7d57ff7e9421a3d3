/** `AlbumViewModel`: the album screen. Each time it appears, and each time
    the picker closes, it reloads the album and starts a training run for the
    album's photos, cancelling the run it started before. A run that is
    cancelled is only marked: the trainer never observes cancellation. */
module Album {
  import opened Wrappers
  import opened Entities
  import opened Repositories

  /** A training run handed to the trainer: the identifiers it trains on,
      and whether it has since been cancelled. */
  datatype TrainingTask = TrainingTask(selectedLocalIdentifiers: seq<string>, cancelled: bool)

  /** The screen's state: the album photos, the stored task handle, and the
      log of every task started (the handle indexes into it). */
  datatype AlbumViewModel = AlbumViewModel(albumPhotos: seq<AlbumPhoto>, trainingTask: Option<nat>, tasks: seq<TrainingTask>)

  /** The screen before its first appearance. */
  function Initial(): (r: AlbumViewModel)
    ensures Valid(r) && |r.albumPhotos| == 0 && |r.tasks| == 0
  {
    AlbumViewModel([], None, [])
  }

  /** The stored handle is the latest task, which is the only one still
      live; every earlier task has been cancelled. */
  predicate Valid(vm: AlbumViewModel)
  {
    && (vm.trainingTask.None? <==> |vm.tasks| == 0)
    && (vm.trainingTask.Some? ==> vm.trainingTask.value == |vm.tasks| - 1 && !vm.tasks[|vm.tasks| - 1].cancelled)
    && (forall i :: 0 <= i < |vm.tasks| - 1 ==> vm.tasks[i].cancelled)
  }

  /** `loadAlbumPhotos`: take the fetched album on success; on failure keep
      the old one. Tasks are untouched. */
  function LoadAlbumPhotos(vm: AlbumViewModel, fetched: Result<seq<AlbumPhoto>, RepositoryError>): (r: AlbumViewModel)
    ensures fetched.Success? ==> r.albumPhotos == fetched.value
    ensures fetched.Failure? ==> r == vm
    ensures r.trainingTask == vm.trainingTask && r.tasks == vm.tasks
  {
    match fetched
    case Success(albumPhotos) => vm.(albumPhotos := albumPhotos)
    case Failure(_) => vm
  }

  /** `startTraining`: cancel the stored task, if any, then start and store
      a new one on the album photos' identifiers, in album order. Earlier
      tasks keep their identifiers; only the stored one changes, and only by
      being cancelled. */
  function StartTraining(vm: AlbumViewModel): (r: AlbumViewModel)
    ensures r.albumPhotos == vm.albumPhotos
    ensures |r.tasks| == |vm.tasks| + 1 && r.trainingTask == Some(|vm.tasks|)
    ensures forall i :: 0 <= i < |vm.tasks| ==>
              && r.tasks[i].selectedLocalIdentifiers == vm.tasks[i].selectedLocalIdentifiers
              && (r.tasks[i].cancelled <==> vm.tasks[i].cancelled || vm.trainingTask == Some(i))
    ensures var started := r.tasks[|vm.tasks|];
            && !started.cancelled
            && |started.selectedLocalIdentifiers| == |vm.albumPhotos|
            && forall j :: 0 <= j < |vm.albumPhotos| ==> started.selectedLocalIdentifiers[j] == vm.albumPhotos[j].localIdentifier
    ensures Valid(vm) ==> Valid(r)
  {
    var tasks :=
      match vm.trainingTask
      case Some(i) => if i < |vm.tasks| then vm.tasks[i := vm.tasks[i].(cancelled := true)] else vm.tasks
      case None => vm.tasks;
    AlbumViewModel(vm.albumPhotos, Some(|tasks|), tasks + [TrainingTask(LocalIdentifiers(vm.albumPhotos), false)])
  }

  /** `onAppear`: reload the album, then start training on it; after a
      failed reload, training starts on the album as it was. */
  function OnAppear(vm: AlbumViewModel, fetched: Result<seq<AlbumPhoto>, RepositoryError>): (r: AlbumViewModel)
    ensures r.albumPhotos == (if fetched.Success? then fetched.value else vm.albumPhotos)
    ensures |r.tasks| == |vm.tasks| + 1
    ensures r.tasks[|vm.tasks|].selectedLocalIdentifiers == LocalIdentifiers(r.albumPhotos)
    ensures Valid(vm) ==> Valid(r)
  {
    StartTraining(LoadAlbumPhotos(vm, fetched))
  }

  /** `onPhotoPickerViewDismissed`: the same two steps as `onAppear`. */
  function OnPhotoPickerViewDismissed(vm: AlbumViewModel, fetched: Result<seq<AlbumPhoto>, RepositoryError>)
    : (r: AlbumViewModel)
    ensures r == OnAppear(vm, fetched)
  {
    var loaded := LoadAlbumPhotos(vm, fetched);
    StartTraining(loaded)
  }

  /** What can happen to the album screen. */
  datatype Event = Appeared(fetched: Result<seq<AlbumPhoto>, RepositoryError>)
                 | PickerDismissed(fetched: Result<seq<AlbumPhoto>, RepositoryError>)

  function Step(vm: AlbumViewModel, e: Event): AlbumViewModel
  {
    match e
    case Appeared(fetched) => OnAppear(vm, fetched)
    case PickerDismissed(fetched) => OnPhotoPickerViewDismissed(vm, fetched)
  }

  /** The screen after a sequence of events. */
  function Replay(vm: AlbumViewModel, events: seq<Event>): AlbumViewModel
  {
    if |events| == 0 then vm else Step(Replay(vm, events[..|events| - 1]), events[|events| - 1])
  }

  /** Whatever happens to the screen, one task is started per event, and at
      most one task is ever live: the latest, which is the stored one. */
  lemma {:induction false} AtMostOneLiveTask(events: seq<Event>)
    ensures var vm := Replay(Initial(), events);
            && Valid(vm)
            && |vm.tasks| == |events|
            && (forall i, j :: 0 <= i < |vm.tasks| && 0 <= j < |vm.tasks| && !vm.tasks[i].cancelled && !vm.tasks[j].cancelled
                  ==> i == j)
            && (|events| > 0 ==> vm.trainingTask == Some(|events| - 1))
  {
    if |events| > 0 {
      AtMostOneLiveTask(events[..|events| - 1]);
    }
  }
}
