/**
 * `QueryInput`: which image files are taken, removing an image, and when the
 * question may be submitted.
 */
module QueryInput {
  import opened Wrappers
  import opened Text
  import opened Files

  /** The upload limit, 10 MiB. */
  const MaxImageBytes: nat := 10 * 1024 * 1024

  /** The accepted `type` values. */
  const ValidTypes: seq<string> := ["image/jpeg", "image/png", "image/webp"]

  /** Why a chosen file is refused, or that it is taken. */
  datatype UploadCheck = Accepted | TooLarge | WrongType

  /** The checks of `handleImageUpload`, the size first. */
  function CheckImage(f: ImageFile): (c: UploadCheck)
    ensures c == Accepted <==> f.size <= MaxImageBytes && f.mimeType in ValidTypes
    ensures c == TooLarge <==> f.size > MaxImageBytes
  {
    if f.size > MaxImageBytes then TooLarge
    else if f.mimeType !in ValidTypes then WrongType
    else Accepted
  }

  /** What `handleSubmit` does: refuse, or hand the trimmed query and the image to `onSubmit`. */
  datatype Submission = Refused | Submit(query: string, image: Option<ImageFile>)

  /** `handleSubmit`: refused when the trimmed query is empty and there is no image. */
  function SubmitAction(query: string, image: Option<ImageFile>): (s: Submission)
    ensures s == Refused <==> Trim(query) == "" && image.None?
    ensures s.Submit? ==> s.query == Trim(query) && s.image == image
  {
    if Trim(query) == "" && image.None? then Refused else Submit(Trim(query), image)
  }

  /** The submit button's `disabled`: loading, or neither a non-empty trimmed query nor an image. */
  predicate SubmitDisabled(isLoading: Option<bool>, query: string, image: Option<ImageFile>)
  {
    isLoading == Some(true) || (Trim(query) == "" && image.None?)
  }

  /** The form's state. */
  class QueryForm {
    var query: string
    var imageFile: Option<ImageFile>
    var imagePreview: Option<string>
    /** The hidden file input's `value`. */
    var inputValue: string

    constructor ()
      ensures query == "" && imageFile == None && imagePreview == None && inputValue == ""
    {
      query := "";
      imageFile := None;
      imagePreview := None;
      inputValue := "";
    }

    /**
     * `handleImageUpload` with `files?.[0]`: a file that passes both checks
     * becomes the image; any other file, or none, leaves the state as it was.
     * The preview arrives later, through `PreviewLoaded`.
     */
    method HandleImageUpload(file: Option<ImageFile>) returns (check: Option<UploadCheck>)
      modifies this
      ensures check == (if file.Some? then Some(CheckImage(file.value)) else None)
      ensures imageFile == (if check == Some(Accepted) then file else old(imageFile))
      ensures query == old(query) && imagePreview == old(imagePreview) && inputValue == old(inputValue)
    {
      if file.None? {
        return None;
      }
      var f := file.value;
      if f.size > MaxImageBytes {
        return Some(TooLarge);
      }
      if f.mimeType !in ValidTypes {
        return Some(WrongType);
      }
      imageFile := file;
      check := Some(Accepted);
    }

    /** The reader's `onload`: the data URL becomes the preview. */
    method PreviewLoaded(dataUrl: string)
      modifies this
      ensures imagePreview == Some(dataUrl)
      ensures query == old(query) && imageFile == old(imageFile) && inputValue == old(inputValue)
    {
      imagePreview := Some(dataUrl);
    }

    /** `removeImage`: the image, its preview and the file input are all cleared. */
    method RemoveImage()
      modifies this
      ensures imageFile == None && imagePreview == None && inputValue == ""
      ensures query == old(query)
    {
      imageFile := None;
      imagePreview := None;
      inputValue := "";
    }
  }

  /** Exactly 10 MiB is still accepted; one byte more is not. */
  lemma SizeLimitInclusive(name: string, base64: string)
    ensures CheckImage(ImageFile(name, 10485760, "image/png", base64)) == Accepted
    ensures CheckImage(ImageFile(name, 10485761, "image/png", base64)) == TooLarge
  {
  }

  /**
   * The size is checked first, so an oversized file of a wrong type reports
   * the size; the type must match exactly, so "image/gif" and "image/JPEG" fail.
   */
  lemma SizeBeforeType(f: ImageFile)
    ensures f.size > MaxImageBytes ==> CheckImage(f) == TooLarge
    ensures f.size <= MaxImageBytes && (f.mimeType == "image/gif" || f.mimeType == "image/JPEG") ==> CheckImage(f) == WrongType
  {
  }

  /** When the button is enabled, pressing it submits; when not loading, it is enabled exactly when submitting would succeed. */
  lemma EnabledMeansSubmitted(isLoading: Option<bool>, query: string, image: Option<ImageFile>)
    ensures !SubmitDisabled(isLoading, query, image) ==> SubmitAction(query, image).Submit?
    ensures isLoading != Some(true) ==> (SubmitDisabled(isLoading, query, image) <==> SubmitAction(query, image) == Refused)
  {
  }

  /** A submitted query is trimmed, and it is non-empty unless an image goes with it. */
  lemma SubmittedQueryShape(query: string, image: Option<ImageFile>)
    requires SubmitAction(query, image).Submit?
    ensures IsTrimmed(SubmitAction(query, image).query)
    ensures SubmitAction(query, image).query != "" || SubmitAction(query, image).image.Some?
  {
  }

  /** White space alone is no question. */
  lemma BlankQueryRefused(query: string)
    requires AllSpace(query)
    ensures SubmitAction(query, None) == Refused
  {
  }
}
