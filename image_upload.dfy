/** The background-image submission dialog of
    knk-web-app/src/components/ImageUploadModal.tsx: a chosen file is
    checked for type, then size, then decoded dimensions; only a file that
    passes is kept, and only a kept file can be submitted. The browser's
    image decoding and object URLs are parameters. */
module ImageUpload {
  import opened JsValues

  const MaxFileSize: int := 5 * 1024 * 1024
  const AllowedTypes: seq<string> := ["image/jpeg", "image/png", "image/webp"]
  const MinWidth: int := 1920
  const MinHeight: int := 1080

  const TypeMessage := "Please upload a JPG, PNG, or WebP image"
  const SizeMessage := "Image size must be less than 5MB"
  const DimensionsMessage := "Image dimensions must be at least 1920x1080"
  const LoadMessage := "Failed to load image"
  const UploadMessage := "Failed to upload image. Please try again."

  datatype File = File(name: string, mime: string, size: int)

  /** What decoding the file gave: its `onload` dimensions or an `onerror`. */
  datatype Decoded = Dimensions(width: int, height: int) | LoadError

  /** `validateImage(file)`: the message it sets, or None when it resolves true. */
  function ValidateImage(file: File, decoded: Decoded): Option<string> {
    if file.mime !in AllowedTypes then Some(TypeMessage)
    else if file.size > MaxFileSize then Some(SizeMessage)
    else match decoded
      case LoadError => Some(LoadMessage)
      case Dimensions(w, h) =>
        if w < MinWidth || h < MinHeight then Some(DimensionsMessage) else None
  }

  /** The checks run in order and the first failure names the message: the
      type is checked before the size, the size before decoding; a file is
      accepted exactly when all three pass, 5 MB itself included. */
  lemma ValidationOrder(file: File, decoded: Decoded)
    ensures file.mime !in AllowedTypes ==> ValidateImage(file, decoded) == Some(TypeMessage)
    ensures file.mime in AllowedTypes && file.size > MaxFileSize ==>
      ValidateImage(file, decoded) == Some(SizeMessage)
    ensures ValidateImage(file, decoded).None? <==>
      (file.mime in {"image/jpeg", "image/png", "image/webp"} && file.size <= 5242880
       && decoded.Dimensions? && decoded.width >= 1920 && decoded.height >= 1080)
    ensures file.mime in AllowedTypes && file.size <= MaxFileSize && decoded.Dimensions? ==>
      (ValidateImage(file, decoded) == Some(DimensionsMessage) <==>
       decoded.width < 1920 || decoded.height < 1080)
  {
  }

  datatype Submission = Submission(file: File, title: string, photographer: string, description: string)

  class ImageUploadModal {
    var file: Option<File>
    var preview: string
    var error: string
    var loading: bool
    var title: string
    var photographer: string
    var description: string
    var closed: bool

    /** Only a validated file is ever kept, and its preview shown. */
    ghost predicate Valid()
      reads this
    {
      file.Some? <==> preview != ""
    }

    constructor ()
      ensures file.None? && preview == "" && error == "" && !loading && !closed
      ensures title == "" && photographer == "" && description == ""
      ensures Valid()
    {
      file := None;
      preview := "";
      error := "";
      loading := false;
      title := "";
      photographer := "";
      description := "";
      closed := false;
    }

    /** `disabled={!file || loading}` */
    predicate SubmitDisabled()
      reads this
    {
      file.None? || loading
    }

    /** `handleFileChange`: `selected` is the first chosen file, `decoded`
        what loading it as an image gave, `url` its object URL. */
    method HandleFileChange(selected: Option<File>, decoded: Decoded, url: string)
      requires url != ""
      modifies this`file, this`preview, this`error
      ensures selected.None? ==> file == old(file) && preview == old(preview) && error == old(error)
      ensures selected.Some? && ValidateImage(selected.value, decoded).None? ==>
        file == selected && preview == url && error == ""
      ensures selected.Some? && ValidateImage(selected.value, decoded).Some? ==>
        file.None? && preview == "" && error == ValidateImage(selected.value, decoded).value
      ensures old(Valid()) ==> Valid()
    {
      if selected.None? {
        return;
      }
      error := "";
      var verdict := ValidateImage(selected.value, decoded);
      if verdict.Some? {
        error := verdict.value;
      }
      if verdict.None? {
        file := selected;
        preview := url;
      } else {
        file := None;
        preview := "";
      }
    }

    method TypeTitle(s: string)
      modifies this`title
      ensures title == s
    {
      title := s;
    }

    method TypePhotographer(s: string)
      modifies this`photographer
      ensures photographer == s
    {
      photographer := s;
    }

    method TypeDescription(s: string)
      modifies this`description
      ensures description == s
    {
      description := s;
    }

    /** `handleSubmit`: the submission handed to `onSubmit`, if any;
        `rejected` says whether its promise rejects. */
    method HandleSubmit(rejected: bool) returns (sent: Option<Submission>)
      modifies this`loading, this`error, this`closed
      ensures old(file).None? ==> sent.None? && loading == old(loading) && error == old(error) && closed == old(closed)
      ensures old(file).Some? ==>
        sent == Some(Submission(file.value, title, photographer, description)) && !loading
      ensures old(file).Some? && !rejected ==> closed && error == ""
      ensures old(file).Some? && rejected ==> closed == old(closed) && error == UploadMessage
    {
      sent := None;
      if file.None? {
        return;
      }
      loading := true;
      error := "";
      sent := Some(Submission(file.value, title, photographer, description));
      if rejected {
        error := UploadMessage;
      } else {
        closed := true;
      }
      loading := false;
    }

    /** The three text inputs carry `required`: the browser's constraint
        validation accepts the form only when none of them is empty. */
    predicate RequiredFilled()
      reads this
    {
      title != "" && photographer != "" && description != ""
    }

    /** A press on the submit button. While a required field is empty the
        browser blocks the `submit` event and `handleSubmit` never runs. */
    method SubmitForm(rejected: bool) returns (sent: Option<Submission>)
      modifies this`loading, this`error, this`closed
      ensures !old(RequiredFilled()) ==>
        sent.None? && loading == old(loading) && error == old(error) && closed == old(closed)
      ensures sent.Some? ==> sent.value.title != "" && sent.value.photographer != "" && sent.value.description != ""
      ensures old(RequiredFilled()) && old(file).None? ==>
        sent.None? && loading == old(loading) && error == old(error) && closed == old(closed)
      ensures old(RequiredFilled()) && old(file).Some? ==>
        sent == Some(Submission(file.value, title, photographer, description)) && !loading
      ensures old(RequiredFilled()) && old(file).Some? && !rejected ==> closed && error == ""
      ensures old(RequiredFilled()) && old(file).Some? && rejected ==> closed == old(closed) && error == UploadMessage
    {
      if !RequiredFilled() {
        return None;
      }
      sent := HandleSubmit(rejected);
    }
  }
}
