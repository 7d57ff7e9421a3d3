/** The plain records the app passes around. */
module Entities {

  /** A photo-library asset. Only its stable local identifier, its creation
      date (as an integer timestamp) and whether its media type is an image
      (rather than a video or audio) take part in any decision of the app. */
  datatype Photo = Photo(localIdentifier: string, creationDate: int, isImage: bool)

  /** A photo paired with whether the user kept it in the album. */
  datatype PhotoSelection = PhotoSelection(photo: Photo, isSelected: bool)

  /** A Core Data record of a photo the user shared into the curated album. */
  datatype AlbumPhoto = AlbumPhoto(id: nat, localIdentifier: string, takenAt: int)

  /** A width and height in points, exact rather than floating point. */
  datatype Size = Size(width: real, height: real)

  /** A decoded image; only its size matters to the pipeline. */
  datatype Image = Image(size: Size)

  /** Errors thrown by the photo-library and Core Data wrappers. */
  datatype RepositoryError = StoreUnavailable | BatchInsertFailed | ImageUnavailable
}
