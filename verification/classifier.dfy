/** The classifier's two class labels. The trainer learns classes from the
    names of the training subdirectories, so a label's raw value must be the
    name of the directory its examples are written to. */
module Classifier {
  import opened Wrappers
  import opened FileSystem
  import opened ClassifierFileManager

  datatype PhotoSelectionLabel = Selected | NotSelected

  /** The label's raw value. */
  function RawValue(selection: PhotoSelectionLabel): string
  {
    match selection
    case Selected => "Selected"
    case NotSelected => "NotSelected"
  }

  /** `PhotoSelectionLabel(rawValue:)`: only the two raw values parse. */
  function FromRawValue(s: string): (r: Option<PhotoSelectionLabel>)
    ensures r.Some? <==> s == "Selected" || s == "NotSelected"
    ensures r.Some? ==> RawValue(r.value) == s
  {
    if s == "Selected" then Some(Selected)
    else if s == "NotSelected" then Some(NotSelected)
    else None
  }

  /** The force-unwrapped parse of a classification's identifier: the
      identifier must be one of the two raw values. */
  function LabelFromIdentifier(identifier: string): (r: PhotoSelectionLabel)
    requires FromRawValue(identifier).Some?
    ensures RawValue(r) == identifier
  {
    FromRawValue(identifier).value
  }

  /** Why classifying an image can fail: the compiled model cannot be
      loaded, or the vision request throws. */
  datatype ClassificationError = ModelUnavailable | RequestFailed

  /** `PhotoSelectionImageClassifier.execute`: load the compiled model from
      its fixed location, run the vision request, and parse the identifier of
      the top observation. Loading fails unless a compiled model is there; the
      request's answer is an input, and the force-unwrapped parse requires an
      answer to be one of the raw values. */
  function ClassifyImage(fm: FileManager, fs: FileSystem, answer: Result<string, ClassificationError>)
    : (r: Result<PhotoSelectionLabel, ClassificationError>)
    requires answer.Success? ==> FromRawValue(answer.value).Some?
    ensures r.Failure? <==> !ModelLoads(fm, fs) || answer.Failure?
    ensures !ModelLoads(fm, fs) ==> r == Failure(ModelUnavailable)
    ensures ModelLoads(fm, fs) && answer.Failure? ==> r == Failure(answer.error)
    ensures r.Success? ==> RawValue(r.value) == answer.value
  {
    if !ModelLoads(fm, fs) then Failure(ModelUnavailable)
    else
      match answer
      case Failure(e) => Failure(e)
      case Success(identifier) => Success(LabelFromIdentifier(identifier))
  }

  /** `MLModel(contentsOf: compiledClassifierURL)` succeeds: a compiled model
      is stored there. */
  predicate ModelLoads(fm: FileManager, fs: FileSystem)
  {
    var entry := Lookup(fs, CompiledClassifierURL(fm));
    entry.Some? && entry.value.File? && entry.value.contents.CompiledModel?
  }

  /** A model trained on the class directories answers with a directory's
      name, and the classifier then reports the label of that directory. */
  lemma ClassifiesByDirectoryName(fm: FileManager, fs: FileSystem, dir: Path)
    requires ModelLoads(fm, fs)
    requires DirectoryLabel(dir).Some?
    ensures ClassifyImage(fm, fs, Success(dir[|dir| - 1].name)) == Success(DirectoryLabel(dir).value)
  {
    var selection := DirectoryLabel(dir).value;
    RawValueRoundTrip(selection);
    assert RawValue(selection) == dir[|dir| - 1].name;
  }

  /** Parsing a label's raw value gives the label back. */
  lemma RawValueRoundTrip(selection: PhotoSelectionLabel)
    ensures FromRawValue(RawValue(selection)) == Some(selection)
  {
  }

  /** Exactly two labels, with distinct raw values. */
  lemma TwoDistinctLabels(selection: PhotoSelectionLabel)
    ensures selection == Selected || selection == NotSelected
    ensures RawValue(Selected) != RawValue(NotSelected)
  {
  }

  /** The label of the images in a training class directory: what the trainer
      reads off the directory's name. */
  function DirectoryLabel(dir: Path): Option<PhotoSelectionLabel>
  {
    if |dir| > 0 && dir[|dir| - 1].Named? then FromRawValue(dir[|dir| - 1].name) else None
  }

  /** The class directories' names are the raw values, so each directory's
      name parses back to its own label. */
  lemma ClassDirectoriesNameTheLabels(fm: FileManager)
    ensures SelectedDataPath == RawValue(Selected) && NotSelectedDataPath == RawValue(NotSelected)
    ensures DirectoryLabel(SelectedDataDirectory(fm)) == Some(Selected)
    ensures DirectoryLabel(NotSelectedDataDirectory(fm)) == Some(NotSelected)
  {
  }
}
