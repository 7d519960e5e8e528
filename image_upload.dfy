/** The upload form of components/ImageUpload.tsx: the checks a chosen file
    must pass, and the selected-file and preview state. The preview URL that
    `URL.createObjectURL` makes is a parameter. */
module ImageUpload {
  import opened Wrappers
  import opened Strings

  /** The size limit (ImageUpload.tsx:10-11), in megabytes and in bytes. */
  const MaxFileSizeMb: nat := 10
  const MaxFileSizeBytes: nat := MaxFileSizeMb * 1024 * 1024

  const ImagePrefix := "image/"

  /** What the form reads of a `File`: its media type and size in bytes. */
  datatype File = File(mimeType: string, size: nat)

  /** The outcome of `handleFile`'s checks; each rejection raises its own alert. */
  datatype Verdict = NotAnImage | TooLarge | Accepted

  /** The checks of `handleFile` (ImageUpload.tsx:49-57), the media type first. */
  function Check(f: File): (v: Verdict)
    ensures v == Accepted <==> StartsWith(f.mimeType, ImagePrefix) && f.size <= MaxFileSizeBytes
    ensures v == NotAnImage <==> !StartsWith(f.mimeType, ImagePrefix)
    ensures v == TooLarge <==> StartsWith(f.mimeType, ImagePrefix) && f.size > MaxFileSizeBytes
  {
    if !StartsWith(f.mimeType, ImagePrefix) then NotAnImage
    else if f.size > MaxFileSizeBytes then TooLarge
    else Accepted
  }

  /** The limit is 10,485,760 bytes and is inclusive: an image of exactly that
      size is accepted, one byte more is too large. */
  lemma SizeLimitInclusive(mimeType: string)
    requires StartsWith(mimeType, ImagePrefix)
    ensures MaxFileSizeBytes == 10485760
    ensures Check(File(mimeType, 10485760)) == Accepted
    ensures Check(File(mimeType, 10485761)) == TooLarge
  {
  }

  /** The type check comes first: a file that is not an image is rejected as
      such whatever its size. */
  lemma TypeCheckedFirst(f: File)
    requires !StartsWith(f.mimeType, ImagePrefix)
    ensures Check(f) == NotAnImage
    ensures Check(f.(size := f.size + MaxFileSizeBytes)) == NotAnImage
  {
  }

  class UploadForm {
    /** The file chosen for upload. */
    var file: Option<File>
    /** The preview URL of that file. */
    var preview: Option<string>
    /** The rejections alerted so far, oldest first. */
    var rejections: seq<Verdict>

    /** A selected file always comes with its preview and has passed the checks. */
    predicate Valid()
      reads this
    {
      && (file.Some? <==> preview.Some?)
      && (file.Some? ==> Check(file.value) == Accepted)
      && forall i :: 0 <= i < |rejections| ==> rejections[i] != Accepted
    }

    constructor ()
      ensures Valid()
      ensures file == None && preview == None && rejections == []
    {
      file := None;
      preview := None;
      rejections := [];
    }

    /** `handleFile` (ImageUpload.tsx:46-61): nothing for no file; a rejected
        file leaves the selection as it was and raises its alert; an accepted
        one becomes the selection with `objectUrl` as its preview. */
    method HandleFile(selected: Option<File>, objectUrl: string)
      requires Valid()
      modifies this
      ensures Valid()
      ensures selected.None? ==> file == old(file) && preview == old(preview) && rejections == old(rejections)
      ensures selected.Some? && Check(selected.value) != Accepted ==>
        && file == old(file) && preview == old(preview)
        && rejections == old(rejections) + [Check(selected.value)]
      ensures selected.Some? && Check(selected.value) == Accepted ==>
        file == selected && preview == Some(objectUrl) && rejections == old(rejections)
    {
      if selected.None? {
        return;
      }
      var f := selected.value;
      if !StartsWith(f.mimeType, ImagePrefix) {
        rejections := rejections + [NotAnImage];
        return;
      }
      if f.size > MaxFileSizeBytes {
        rejections := rejections + [TooLarge];
        return;
      }
      file := Some(f);
      preview := Some(objectUrl);
    }

    /** `removePreview` (ImageUpload.tsx:67-70). */
    method RemovePreview()
      requires Valid()
      modifies this
      ensures Valid()
      ensures file == None && preview == None && rejections == old(rejections)
    {
      preview := None;
      file := None;
    }

    /** `handleSubmit` (ImageUpload.tsx:72-76): the file handed to
        `onImageUpload`, if one is selected; the form itself is unchanged. */
    method HandleSubmit() returns (submitted: Option<File>)
      requires Valid()
      ensures submitted == file
      ensures submitted.Some? ==> Check(submitted.value) == Accepted
    {
      if file.Some? {
        submitted := file;
      } else {
        submitted := None;
      }
    }
  }
}
