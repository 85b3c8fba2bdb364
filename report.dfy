/**
 * The draft report (`reportData`) and the checks the front end applies to
 * what is put into it.
 */
module Report {
  import opened Strings

  datatype Option<+T> = None | Some(value: T)

  /** A geographic position as the map or the geolocation service reports it (no range check). */
  datatype LatLng = LatLng(lat: real, lng: real)

  /** The selected file as far as the checks look at it: its media type and its size in bytes. */
  datatype File = File(mediaType: string, size: nat)

  /** `reportData`: the photo file, its decoded data URL, the description text and the location. */
  datatype ReportData = ReportData(
    photo: Option<File>,
    photoURL: Option<string>,
    description: string,
    location: Option<LatLng>)

  /** The draft as `startNewReport` (and the initial state) sets it. */
  const EmptyReport := ReportData(None, None, "", None)

  /** Largest accepted photo: 10 MB. */
  const MaxPhotoBytes: nat := 10 * 1024 * 1024

  /** Fewest characters that enable the description step's next button. */
  const MinDescriptionLength: nat := 10

  /** How `handlePhotoSelect` treats a selection. */
  datatype PhotoCheck = NoFile | InvalidType | TooLarge | Accepted

  /**
   * The checks of `handlePhotoSelect`, in their order: no file, then the media
   * type, then the size. A file of exactly the limit is accepted.
   */
  function CheckPhoto(file: Option<File>): (r: PhotoCheck)
    ensures r == NoFile <==> file.None?
    ensures r == InvalidType <==> file.Some? && !StartsWith(file.value.mediaType, "image/")
    ensures r == TooLarge <==>
              file.Some? && StartsWith(file.value.mediaType, "image/") && file.value.size > MaxPhotoBytes
    ensures r == Accepted <==>
              file.Some? && StartsWith(file.value.mediaType, "image/") && file.value.size <= MaxPhotoBytes
  {
    match file
    case None => NoFile
    case Some(f) =>
      if !StartsWith(f.mediaType, "image/") then InvalidType
      else if f.size > MaxPhotoBytes then TooLarge
      else Accepted
  }
}
