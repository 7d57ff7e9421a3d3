/** The fit-inside resize applied to every training image. */
module Resize {
  import opened Entities

  /** Every training image is resized to fit inside 300 x 300. */
  const MinimumTrainedImageSize: Size := Size(300.0, 300.0)

  predicate Positive(size: Size)
  {
    size.width > 0.0 && size.height > 0.0
  }

  /** `resizeImage`: scale both axes by the smaller of the two axis ratios.
      The result fits inside the target, fills it along at least one axis,
      and keeps the aspect ratio. */
  function ResizeImage(size: Size, targetSize: Size): (r: Size)
    requires Positive(size) && Positive(targetSize)
    ensures Positive(r)
    ensures r.width <= targetSize.width && r.height <= targetSize.height
    ensures r.width == targetSize.width || r.height == targetSize.height
    ensures r.width * size.height == r.height * size.width
  {
    var widthRatio := targetSize.width / size.width;
    var heightRatio := targetSize.height / size.height;
    if widthRatio > heightRatio then
      Size(size.width * heightRatio, size.height * heightRatio)
    else
      Size(size.width * widthRatio, size.height * widthRatio)
  }

  /** The fit-inside size is the only one that fits inside the target, fills
      it along one axis and keeps the aspect ratio. */
  lemma FitInsideIsUnique(size: Size, targetSize: Size, other: Size)
    requires Positive(size) && Positive(targetSize) && Positive(other)
    requires other.width <= targetSize.width && other.height <= targetSize.height
    requires other.width == targetSize.width || other.height == targetSize.height
    requires other.width * size.height == other.height * size.width
    ensures other == ResizeImage(size, targetSize)
  {
  }

  /** Resizing an already resized image to the same target changes nothing. */
  lemma ResizeIsIdempotent(size: Size, targetSize: Size)
    requires Positive(size) && Positive(targetSize)
    ensures ResizeImage(ResizeImage(size, targetSize), targetSize) == ResizeImage(size, targetSize)
  {
  }
}
