/** The image picker: which files it accepts, the drag highlight, and the
    values it hands to its `onChange` callback. Reading a file into a data
    URL is done by the browser; here the text it yields is a parameter. */
module ImageUpload {
  import opened Wrappers
  import opened Text

  const ImageTypePrefix: string := "image/"

  /** `1.5 * 1024 * 1024` bytes. */
  const MaxImageBytes: nat := 1572864

  const NotAnImageMessage: string := "Please upload an image file."
  const TooLargeMessage: string := "Image is too large. Please choose an image under 1.5MB."

  /** What the picker looks at in a file: its MIME type and its size in
      bytes. */
  datatype FileInfo = FileInfo(mimeType: string, size: nat)

  datatype Verdict = RejectedType | RejectedSize | Accepted

  /** The checks of `handleFile`: the type first, then the size. */
  function CheckFile(f: FileInfo): (v: Verdict)
    ensures v == RejectedType <==> !StartsWith(f.mimeType, ImageTypePrefix)
    ensures v == RejectedSize <==> StartsWith(f.mimeType, ImageTypePrefix) && f.size > MaxImageBytes
    ensures v == Accepted <==> StartsWith(f.mimeType, ImageTypePrefix) && f.size <= MaxImageBytes
  {
    if !StartsWith(f.mimeType, ImageTypePrefix) then RejectedType
    else if f.size > MaxImageBytes then RejectedSize
    else Accepted
  }

  /** The alert a rejected file raises. */
  function AlertFor(v: Verdict): (r: Option<string>)
    ensures r.None? <==> v == Accepted
  {
    match v
    case RejectedType => Some(NotAnImageMessage)
    case RejectedSize => Some(TooLargeMessage)
    case Accepted => None
  }

  /** The bound is inclusive: an image of exactly 1.5 MiB is taken and one
      byte more is refused. */
  lemma SizeBoundary(mimeType: string)
    requires StartsWith(mimeType, ImageTypePrefix)
    ensures CheckFile(FileInfo(mimeType, 1572864)) == Accepted
    ensures CheckFile(FileInfo(mimeType, 1572865)) == RejectedSize
  {
  }

  /** The type is checked first: a file that is not an image gets the type
      message whatever its size. */
  lemma TypeCheckedFirst(mimeType: string, size: nat)
    requires !StartsWith(mimeType, ImageTypePrefix)
    ensures AlertFor(CheckFile(FileInfo(mimeType, size))) == Some(NotAnImageMessage)
  {
  }

  class Uploader {
    var isDragging: bool
    /** The values passed to `onChange`, oldest first. */
    var emitted: seq<string>
    /** The alerts shown, oldest first. */
    var alerts: seq<string>

    constructor()
      ensures !isDragging && emitted == [] && alerts == []
    {
      isDragging := false;
      emitted := [];
      alerts := [];
    }

    /** `handleFile`: a rejected file raises its alert and reaches no one;
        an accepted one is passed on, as the data URL read from it, exactly
        once. */
    method HandleFile(f: FileInfo, dataUrl: string)
      modifies this
      ensures CheckFile(f) == Accepted ==> emitted == old(emitted) + [dataUrl] && alerts == old(alerts)
      ensures CheckFile(f) != Accepted ==>
                emitted == old(emitted) && alerts == old(alerts) + [AlertFor(CheckFile(f)).value]
      ensures isDragging == old(isDragging)
    {
      if !StartsWith(f.mimeType, ImageTypePrefix) {
        alerts := alerts + [NotAnImageMessage];
        return;
      }
      if f.size > MaxImageBytes {
        alerts := alerts + [TooLargeMessage];
        return;
      }
      emitted := emitted + [dataUrl];
    }

    /** `onFileChange`: the first chosen file, if there is one, is handled. */
    method FileChange(file: Option<FileInfo>, dataUrl: string)
      modifies this
      ensures file.None? ==> emitted == old(emitted) && alerts == old(alerts)
      ensures file.Some? && CheckFile(file.value) == Accepted ==>
                emitted == old(emitted) + [dataUrl] && alerts == old(alerts)
      ensures file.Some? && CheckFile(file.value) != Accepted ==>
                emitted == old(emitted) && alerts == old(alerts) + [AlertFor(CheckFile(file.value)).value]
      ensures isDragging == old(isDragging)
    {
      if file.Some? {
        HandleFile(file.value, dataUrl);
      }
    }

    /** `onDragOver`: the drop zone lights up. */
    method DragOver()
      modifies this
      ensures isDragging
      ensures emitted == old(emitted) && alerts == old(alerts)
    {
      isDragging := true;
    }

    /** `onDragLeave`: the highlight goes. */
    method DragLeave()
      modifies this
      ensures !isDragging
      ensures emitted == old(emitted) && alerts == old(alerts)
    {
      isDragging := false;
    }

    /** `onDrop`: the highlight goes and the first dropped file, if there is
        one, is handled. */
    method Drop(file: Option<FileInfo>, dataUrl: string)
      modifies this
      ensures !isDragging
      ensures file.None? ==> emitted == old(emitted) && alerts == old(alerts)
      ensures file.Some? && CheckFile(file.value) == Accepted ==>
                emitted == old(emitted) + [dataUrl] && alerts == old(alerts)
      ensures file.Some? && CheckFile(file.value) != Accepted ==>
                emitted == old(emitted) && alerts == old(alerts) + [AlertFor(CheckFile(file.value)).value]
    {
      isDragging := false;
      if file.Some? {
        HandleFile(file.value, dataUrl);
      }
    }

    /** The remove button: the image is cleared by passing on `""`. */
    method Remove()
      modifies this
      ensures emitted == old(emitted) + [""]
      ensures alerts == old(alerts) && isDragging == old(isDragging)
    {
      emitted := emitted + [""];
    }
  }
}
