/** `PhotoPickerViewModel`: the screen that lists the library photos not yet
    in the album, lets the user pick some, and shares them into the album. */
module PhotoPicker {
  import opened Wrappers
  import opened Entities
  import opened Repositories
  import opened FileSystem
  import opened ClassifierFileManager
  import opened PhotoGrid
  import opened Classifier

  datatype PhotoPickerViewModel = PhotoPickerViewModel(
    photoGridViewModels: seq<PhotoGridViewModel>,
    shouldDismiss: bool,
    showsAutoSelectButton: bool)

  /** The picker as first shown: no cells, not dismissed, no auto-select
      button. */
  function Initial(): (r: PhotoPickerViewModel)
    ensures |r.photoGridViewModels| == 0 && !r.shouldDismiss && !r.showsAutoSelectButton
  {
    PhotoPickerViewModel([], false, false)
  }

  /** `onAppear`: one fresh cell per library asset outside the album,
      newest first, and the auto-select button exactly when a compiled
      model exists. A failed album fetch changes nothing. */
  function OnAppear(vm: PhotoPickerViewModel, albumFetch: Result<seq<AlbumPhoto>, RepositoryError>,
                    library: seq<Photo>, fm: FileManager, fs: FileSystem): (r: PhotoPickerViewModel)
    ensures albumFetch.Failure? ==> r == vm
    ensures albumFetch.Success? ==>
              var photos := FetchPhotosExcluding(library, LocalIdentifiers(albumFetch.value));
              && |r.photoGridViewModels| == |photos|
              && (forall i :: 0 <= i < |photos| ==> r.photoGridViewModels[i] == PhotoGrid.Initial(photos[i]))
              && r.shouldDismiss == vm.shouldDismiss
              && (r.showsAutoSelectButton <==> Lookup(fs, CompiledClassifierURL(fm)).Some?)
  {
    match albumFetch
    case Failure(_) => vm
    case Success(album) =>
      var photos := FetchPhotosExcluding(library, LocalIdentifiers(album));
      PhotoPickerViewModel(seq(|photos|, i requires 0 <= i < |photos| => PhotoGrid.Initial(photos[i])),
                           vm.shouldDismiss, CompiledClassifierFileExists(fm, fs))
  }

  /** After a successful appearance the cells offer exactly the library
      photos that are not already in the album, none of them selected. */
  lemma PickerOffersPhotosOutsideAlbum(vm: PhotoPickerViewModel, album: seq<AlbumPhoto>, library: seq<Photo>,
                                       fm: FileManager, fs: FileSystem)
    ensures var r := OnAppear(vm, Success(album), library, fm, fs);
            && (forall g :: g in r.photoGridViewModels ==> !g.isSelected && g.image.None?)
            && (forall p :: p in library ==>
                  ((exists g :: g in r.photoGridViewModels && g.photo == p)
                   <==> forall a :: a in album ==> a.localIdentifier != p.localIdentifier))
  {
    var r := OnAppear(vm, Success(album), library, fm, fs);
    var ids := LocalIdentifiers(album);
    var photos := FetchPhotosExcluding(library, ids);
    forall p | p in library
      ensures (exists g :: g in r.photoGridViewModels && g.photo == p)
              <==> forall a :: a in album ==> a.localIdentifier != p.localIdentifier
    {
      if p.localIdentifier in ids {
        var i :| 0 <= i < |ids| && ids[i] == p.localIdentifier;
        assert album[i] in album;
      } else {
        var j :| 0 <= j < |photos| && photos[j] == p;
        assert r.photoGridViewModels[j] in r.photoGridViewModels;
      }
    }
  }

  /** The photos of the selected cells, in cell order. */
  function SelectedPhotos(grid: seq<PhotoGridViewModel>): seq<Photo>
  {
    if |grid| == 0 then []
    else SelectedPhotos(grid[..|grid| - 1]) + (if grid[|grid| - 1].isSelected then [grid[|grid| - 1].photo] else [])
  }

  /** A photo is shared exactly when some selected cell shows it, and no
      more photos are shared than there are cells. */
  lemma {:induction false} SelectedPhotosMembers(grid: seq<PhotoGridViewModel>)
    ensures forall p :: p in SelectedPhotos(grid) <==> exists i :: 0 <= i < |grid| && grid[i].isSelected && grid[i].photo == p
    ensures |SelectedPhotos(grid)| <= |grid|
  {
    if |grid| > 0 {
      var init := grid[..|grid| - 1];
      SelectedPhotosMembers(init);
      forall p | p in SelectedPhotos(grid)
        ensures exists i :: 0 <= i < |grid| && grid[i].isSelected && grid[i].photo == p
      {
        if p in SelectedPhotos(init) {
          var i :| 0 <= i < |init| && init[i].isSelected && init[i].photo == p;
          assert grid[i] == init[i];
        }
      }
      forall p | exists i :: 0 <= i < |grid| && grid[i].isSelected && grid[i].photo == p
        ensures p in SelectedPhotos(grid)
      {
        var i :| 0 <= i < |grid| && grid[i].isSelected && grid[i].photo == p;
        if i < |grid| - 1 {
          assert init[i] == grid[i];
        }
      }
    }
  }

  /** A single cell contributes its photo exactly when it is selected; with
      `SelectedPhotosOfConcat` this fixes the shared list cell by cell. */
  lemma SelectedPhotosOfCell(cell: PhotoGridViewModel)
    ensures SelectedPhotos([cell]) == if cell.isSelected then [cell.photo] else []
  {
    assert [cell][..0] == [];
  }

  /** Selection keeps cell order: the photos shared from two runs of cells
      are those of the first run followed by those of the second. */
  lemma {:induction false} SelectedPhotosOfConcat(a: seq<PhotoGridViewModel>, b: seq<PhotoGridViewModel>)
    ensures SelectedPhotos(a + b) == SelectedPhotos(a) + SelectedPhotos(b)
    decreases |b|
  {
    if |b| == 0 {
      assert a + b == a;
    } else {
      var b' := b[..|b| - 1];
      assert (a + b)[..|a + b| - 1] == a + b';
      SelectedPhotosOfConcat(a, b');
    }
  }

  /** `onShareButtonTapped`: share the selected cells' photos, one per
      selected cell in grid order; the screen
      asks to be dismissed only if sharing succeeds, and a failed share
      changes nothing. Returns the photos handed to the album repository
      together with the new state. */
  function OnShareButtonTapped(vm: PhotoPickerViewModel, shareSucceeds: bool)
    : (r: (seq<Photo>, PhotoPickerViewModel))
    ensures r.0 == SelectedPhotos(vm.photoGridViewModels)
    ensures forall p :: p in r.0 <==>
              exists i :: 0 <= i < |vm.photoGridViewModels| && vm.photoGridViewModels[i].isSelected
                          && vm.photoGridViewModels[i].photo == p
    ensures shareSucceeds ==> r.1 == vm.(shouldDismiss := true)
    ensures !shareSucceeds ==> r.1 == vm
  {
    SelectedPhotosMembers(vm.photoGridViewModels);
    var selectedPhotos := SelectedPhotos(vm.photoGridViewModels);
    (selectedPhotos, if shareSucceeds then vm.(shouldDismiss := true) else vm)
  }

  /** `onCloseButtonTapped`: always asks to be dismissed, changing nothing
      else. */
  function OnCloseButtonTapped(vm: PhotoPickerViewModel): (r: PhotoPickerViewModel)
    ensures r.shouldDismiss
    ensures r.photoGridViewModels == vm.photoGridViewModels && r.showsAutoSelectButton == vm.showsAutoSelectButton
  {
    vm.(shouldDismiss := true)
  }

  /** `onAutoSelectButtonTapped`: every cell runs its own auto-select, and
      since a cell's handler never fails the whole group completes. Cells
      with a thumbnail take the classifier's label unless classification
      fails; cells without one only defer. Nothing else on the screen
      changes. */
  function OnAutoSelectButtonTapped(vm: PhotoPickerViewModel, classify: Classify): (r: PhotoPickerViewModel)
    ensures |r.photoGridViewModels| == |vm.photoGridViewModels|
    ensures r.shouldDismiss == vm.shouldDismiss && r.showsAutoSelectButton == vm.showsAutoSelectButton
    ensures forall i :: 0 <= i < |vm.photoGridViewModels| ==>
              var before, after := vm.photoGridViewModels[i], r.photoGridViewModels[i];
              && after.photo == before.photo && after.image == before.image
              && (before.image.None? ==> after.isSelected == before.isSelected && after.shouldAutoSelectOnAppear)
              && (before.image.Some? && classify(before.image.value).Failure? ==> after == before)
              && (before.image.Some? && classify(before.image.value).Success? ==>
                    (after.isSelected <==> classify(before.image.value).value == Selected))
  {
    var grid := vm.photoGridViewModels;
    vm.(photoGridViewModels := seq(|grid|, i requires 0 <= i < |grid| => PhotoGrid.OnAutoSelectButtonTapped(grid[i], classify)))
  }

  /** Tapping the auto-select button a second time changes nothing more:
      the labels are already reflected and the deferred cells already wait. */
  lemma AutoSelectIsIdempotent(vm: PhotoPickerViewModel, classify: Classify)
    ensures OnAutoSelectButtonTapped(OnAutoSelectButtonTapped(vm, classify), classify) == OnAutoSelectButtonTapped(vm, classify)
  {
    var once := OnAutoSelectButtonTapped(vm, classify);
    var twice := OnAutoSelectButtonTapped(once, classify);
    forall i | 0 <= i < |vm.photoGridViewModels|
      ensures twice.photoGridViewModels[i] == once.photoGridViewModels[i]
    {
      var g := vm.photoGridViewModels[i];
      if g.image.Some? {
        match classify(g.image.value)
        case Success(selection) => ReflectIsIdempotent(g, selection);
        case Failure(_) =>
      }
    }
  }
}
