/** `PhotoGridViewModel`: one cell of the photo picker. It holds the photo,
    its thumbnail once loaded, the user's selection, and a flag that defers
    an auto-select request until the thumbnail arrives. */
module PhotoGrid {
  import opened Wrappers
  import opened Entities
  import opened Classifier

  datatype PhotoGridViewModel = PhotoGridViewModel(
    photo: Photo,
    image: Option<Image>,
    isSelected: bool,
    shouldAutoSelectOnAppear: bool)

  /** The classifier's verdict on an image, supplied from outside: for each
      image, `ClassifyImage` applied to the compiled model on disk and the
      vision request's answer for that image. */
  type Classify = Image -> Result<PhotoSelectionLabel, ClassificationError>

  /** A fresh cell: no image, not selected, no deferred request. */
  function Initial(photo: Photo): (r: PhotoGridViewModel)
    ensures r.photo == photo && r.image.None? && !r.isSelected && !r.shouldAutoSelectOnAppear
  {
    PhotoGridViewModel(photo, None, false, false)
  }

  /** `onPhotoGridTapped`: a tap inverts the selection and nothing else. */
  function OnPhotoGridTapped(vm: PhotoGridViewModel): (r: PhotoGridViewModel)
    ensures r.isSelected != vm.isSelected
    ensures r.photo == vm.photo && r.image == vm.image && r.shouldAutoSelectOnAppear == vm.shouldAutoSelectOnAppear
  {
    vm.(isSelected := !vm.isSelected)
  }

  /** Two taps leave the cell as it was. */
  lemma TapTwiceIsIdentity(vm: PhotoGridViewModel)
    ensures OnPhotoGridTapped(OnPhotoGridTapped(vm)) == vm
  {
  }

  /** `reflectPhotoSelection`: the cell is selected exactly when the label
      says `Selected`; nothing else changes. */
  function ReflectPhotoSelection(vm: PhotoGridViewModel, selection: PhotoSelectionLabel): (r: PhotoGridViewModel)
    ensures r.isSelected <==> selection == Selected
    ensures r.photo == vm.photo && r.image == vm.image && r.shouldAutoSelectOnAppear == vm.shouldAutoSelectOnAppear
  {
    match selection
    case Selected => vm.(isSelected := true)
    case NotSelected => vm.(isSelected := false)
  }

  /** Reflecting a label forgets the earlier selection: reflecting twice, or
      after a tap, is the same as reflecting once. */
  lemma ReflectIsIdempotent(vm: PhotoGridViewModel, selection: PhotoSelectionLabel)
    ensures ReflectPhotoSelection(ReflectPhotoSelection(vm, selection), selection) == ReflectPhotoSelection(vm, selection)
    ensures ReflectPhotoSelection(OnPhotoGridTapped(vm), selection) == ReflectPhotoSelection(vm, selection)
  {
  }

  /** `onAutoSelectButtonTapped`: with a thumbnail, classify it now and
      reflect the label, swallowing a classification error; without one,
      only remember to classify on the next appearance. It never fails. */
  function OnAutoSelectButtonTapped(vm: PhotoGridViewModel, classify: Classify): (r: PhotoGridViewModel)
    ensures r.photo == vm.photo && r.image == vm.image
    ensures vm.image.None? ==> r.isSelected == vm.isSelected && r.shouldAutoSelectOnAppear
    ensures vm.image.Some? ==> r.shouldAutoSelectOnAppear == vm.shouldAutoSelectOnAppear
    ensures vm.image.Some? && classify(vm.image.value).Failure? ==> r == vm
    ensures vm.image.Some? && classify(vm.image.value).Success? ==>
              (r.isSelected <==> classify(vm.image.value).value == Selected)
  {
    match vm.image
    case Some(image) =>
      (match classify(image)
       case Success(selection) => ReflectPhotoSelection(vm, selection)
       case Failure(_) => vm)
    case None => vm.(shouldAutoSelectOnAppear := true)
  }

  /** `onAppear`: load the thumbnail; if an auto-select was deferred,
      classify it first. The thumbnail is kept only when loading and any
      deferred classification both succeed; the deferred flag is never
      cleared. */
  function OnAppear(vm: PhotoGridViewModel, fetched: Result<Image, RepositoryError>, classify: Classify)
    : (r: PhotoGridViewModel)
    ensures r.photo == vm.photo && r.shouldAutoSelectOnAppear == vm.shouldAutoSelectOnAppear
    ensures fetched.Success? && (!vm.shouldAutoSelectOnAppear || classify(fetched.value).Success?) ==>
              r.image == Some(fetched.value)
    ensures !(fetched.Success? && (!vm.shouldAutoSelectOnAppear || classify(fetched.value).Success?)) ==> r == vm
    ensures fetched.Success? && vm.shouldAutoSelectOnAppear && classify(fetched.value).Success? ==>
              (r.isSelected <==> classify(fetched.value).value == Selected)
    ensures !(fetched.Success? && vm.shouldAutoSelectOnAppear && classify(fetched.value).Success?) ==>
              r.isSelected == vm.isSelected
  {
    match fetched
    case Failure(_) => vm
    case Success(image) =>
      if vm.shouldAutoSelectOnAppear then
        match classify(image)
        case Success(selection) => ReflectPhotoSelection(vm, selection).(image := Some(image))
        case Failure(_) => vm
      else
        vm.(image := Some(image))
  }

  /** A deferred auto-select reaches the same selection as one made with
      the thumbnail already present. */
  lemma DeferredAutoSelectAgrees(vm: PhotoGridViewModel, image: Image, classify: Classify)
    requires vm.image.None?
    requires classify(image).Success?
    ensures OnAppear(OnAutoSelectButtonTapped(vm, classify), Success(image), classify).isSelected
            == OnAutoSelectButtonTapped(vm.(image := Some(image)), classify).isSelected
  {
  }

  /** Because the deferred flag is never cleared, every later appearance
      classifies again and overrides a tap made in between. */
  lemma ReappearanceOverridesTap(vm: PhotoGridViewModel, image: Image, classify: Classify)
    requires vm.shouldAutoSelectOnAppear
    requires classify(image).Success?
    ensures OnAppear(OnPhotoGridTapped(vm), Success(image), classify).isSelected
            == OnAppear(vm, Success(image), classify).isSelected
  {
  }
}
