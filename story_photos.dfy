/** The photo list editor of a story: appending a photo, removing one, and the GIF size rule. */
module StoryPhotos {
  import opened Common
  import opened Text
  import opened Records

  /** The two text inputs of the editor. */
  datatype PhotoInputs = PhotoInputs(url: string, caption: string)

  /**
   * What `addPhoto` does: the list passed to `onChange` (absent when it is not called), the
   * inputs afterwards, and the error shown.
   */
  datatype AddOutcome = AddOutcome(changed: Option<seq<StoryPhoto>>, inputs: PhotoInputs, error: Option<string>)

  function AddPhoto(photos: seq<StoryPhoto>, inputs: PhotoInputs): (r: AddOutcome)
    ensures IsBlank(inputs.url) <==> r.changed.None?
    ensures IsBlank(inputs.url) ==>
      r.error == Some("Please enter a photo URL or upload a photo") && r.inputs == inputs
    ensures !IsBlank(inputs.url) ==> r.error.None? && r.inputs == PhotoInputs("", "")
    ensures r.changed.Some? ==>
      && |r.changed.value| == |photos| + 1
      && r.changed.value[..|photos|] == photos
      && r.changed.value[|photos|] == StoryPhoto(Trim(inputs.url), Trim(inputs.caption))
      && r.changed.value[|photos|].url != []
  {
    if IsBlank(inputs.url) then
      AddOutcome(None, inputs, Some("Please enter a photo URL or upload a photo"))
    else
      var added := photos + [StoryPhoto(Trim(inputs.url), Trim(inputs.caption))];
      assert added[..|photos|] == photos;
      AddOutcome(Some(added), PhotoInputs("", ""), None)
  }

  /** `removePhoto`: keeps every photo whose position differs from `index`. */
  function RemovePhoto(photos: seq<StoryPhoto>, index: int): (r: seq<StoryPhoto>)
    ensures 0 <= index < |photos| ==> |r| == |photos| - 1
    ensures 0 <= index < |photos| ==> forall j :: 0 <= j < index ==> r[j] == photos[j]
    ensures 0 <= index < |photos| ==> forall j :: index <= j < |r| ==> r[j] == photos[j + 1]
    ensures !(0 <= index < |photos|) ==> r == photos
  {
    if 0 <= index < |photos| then photos[..index] + photos[index + 1..] else photos
  }

  /** Removing the photo just added gives back the list as it was. */
  lemma RemoveUndoesAdd(photos: seq<StoryPhoto>, inputs: PhotoInputs)
    requires !IsBlank(inputs.url)
    ensures RemovePhoto(AddPhoto(photos, inputs).changed.value, |photos|) == photos
  {
    var added := AddPhoto(photos, inputs).changed.value;
    assert added[..|photos|] == photos;
  }

  /** The largest GIF accepted, in bytes. */
  const GifLimit: nat := 5 * 1024 * 1024

  /** A chosen file: its MIME type and its size in bytes. */
  datatype UploadedFile = UploadedFile(mimeType: string, size: nat)

  /** The decision `handlePhotoUpload` takes before reading the file. */
  datatype UploadDecision = NoFile | TooLarge(message: string) | ReadFile

  function CheckUpload(file: Option<UploadedFile>): (r: UploadDecision)
    ensures r.NoFile? <==> file.None?
    ensures r.TooLarge? <==> file.Some? && file.value.mimeType == "image/gif" && file.value.size > GifLimit
    ensures r.TooLarge? ==> r.message == "Uploaded file size is large"
  {
    match file
    case None => NoFile
    case Some(f) =>
      if f.mimeType == "image/gif" && f.size > GifLimit then TooLarge("Uploaded file size is large")
      else ReadFile
  }

  /** Files of any other type are read whatever their size. */
  lemma OnlyGifsAreSizeChecked(f: UploadedFile)
    requires f.mimeType != "image/gif"
    ensures CheckUpload(Some(f)) == ReadFile
  {
  }
}
