/** The cover-image picker of apps/web/src/app/dashboard/image-upload.tsx: the checks a chosen
    or dropped file must pass before it reaches the form, and the drop zone's highlight. */
module ImageUpload {
  import opened Wrappers

  /** What the picker reads of a file: its MIME type and its size in bytes. */
  datatype File = File(mimeType: string, size: nat)

  /** The three rejections, each reported as an error toast. */
  datatype UploadError = NotAnImage | TooLarge | UnsupportedType

  /** 5 MiB. */
  const MaxSize: nat := 5 * 1024 * 1024

  const AllowedTypes: seq<string> := ["image/jpeg", "image/png", "image/gif", "image/webp"]

  predicate HasImagePrefix(t: string) {
    |t| >= 6 && t[..6] == "image/"
  }

  /** The checks in their order; the first that fails decides the error. */
  function CheckFile(f: File): (r: Option<UploadError>)
    ensures r.None? <==> f.mimeType in AllowedTypes && f.size <= MaxSize
    ensures !HasImagePrefix(f.mimeType) ==> r == Some(NotAnImage)
    ensures r == Some(TooLarge) <==> HasImagePrefix(f.mimeType) && f.size > MaxSize
    ensures r == Some(UnsupportedType) <==> HasImagePrefix(f.mimeType) && f.size <= MaxSize && f.mimeType !in AllowedTypes
  {
    if !HasImagePrefix(f.mimeType) then Some(NotAnImage)
    else if f.size > MaxSize then Some(TooLarge)
    else if f.mimeType !in AllowedTypes then Some(UnsupportedType)
    else None
  }

  /** The size limit is inclusive, a non-image is refused whatever its size, and an image
      type outside the list (SVG) is refused once it is small enough. */
  lemma CheckFileExamples()
    ensures CheckFile(File("image/png", 5242880)) == None
    ensures CheckFile(File("image/png", 5242881)) == Some(TooLarge)
    ensures CheckFile(File("text/plain", 100000000)) == Some(NotAnImage)
    ensures CheckFile(File("image/svg+xml", 1000)) == Some(UnsupportedType)
    ensures CheckFile(File("image/svg+xml", 100000000)) == Some(TooLarge)
  {
    assert "image/png"[..6] == "image/";
    assert "image/svg+xml"[..6] == "image/";
    assert "text/plain"[0] != "image/"[0];
  }

  datatype DragEvent = DragEnter | DragOver | DragLeave

  /** One rendering of the picker. The props `disabled` and `value` are fixed for it; the
      calls made to the `onChange` prop and the error toasts shown are logged in order. */
  class ImageUploader {
    const disabled: bool
    const value: Option<File>
    var dragActive: bool
    var changes: seq<Option<File>>
    var toasts: seq<UploadError>

    /** Every file handed to `onChange` passed the checks. */
    ghost predicate Valid()
      reads this
    {
      forall k :: 0 <= k < |changes| && changes[k].Some? ==> CheckFile(changes[k].value).None?
    }

    /** The drop zone, with its drag, drop and file-input handlers, is rendered only while
        there is no preview, and its handlers are attached only when not disabled. */
    predicate Listening()
      reads this
    {
      value.None? && !disabled
    }

    constructor (disabled: bool, value: Option<File>)
      ensures this.disabled == disabled && this.value == value
      ensures !dragActive && changes == [] && toasts == [] && Valid()
    {
      this.disabled := disabled;
      this.value := value;
      dragActive := false;
      changes := [];
      toasts := [];
    }

    /** A file passes on to `onChange` when every check holds; otherwise the first failing
        check shows its toast and nothing else happens. */
    method HandleFile(f: File)
      requires Valid()
      modifies this
      ensures Valid() && dragActive == old(dragActive)
      ensures CheckFile(f).None? ==> changes == old(changes) + [Some(f)] && toasts == old(toasts)
      ensures CheckFile(f).Some? ==> changes == old(changes) && toasts == old(toasts) + [CheckFile(f).value]
    {
      var err := CheckFile(f);
      if err.Some? {
        toasts := toasts + [err.value];
        return;
      }
      changes := changes + [Some(f)];
    }

    /** Entering or moving over the zone highlights it, leaving clears the highlight. */
    method HandleDrag(e: DragEvent)
      modifies this
      ensures changes == old(changes) && toasts == old(toasts)
      ensures dragActive == if Listening() then e != DragLeave else old(dragActive)
    {
      if !Listening() {
        return;
      }
      if e == DragEnter || e == DragOver {
        dragActive := true;
      } else {
        dragActive := false;
      }
    }

    /** A drop clears the highlight and handles the first dropped file, if there is one. */
    method HandleDrop(files: seq<File>)
      requires Valid()
      modifies this
      ensures Valid()
      ensures !Listening() ==> dragActive == old(dragActive) && changes == old(changes) && toasts == old(toasts)
      ensures Listening() ==> !dragActive
      ensures Listening() && files != [] && CheckFile(files[0]).None? ==> changes == old(changes) + [Some(files[0])]
      ensures !Listening() || files == [] || CheckFile(files[0]).Some? ==> changes == old(changes)
      ensures Listening() && files != [] && CheckFile(files[0]).Some? ==> toasts == old(toasts) + [CheckFile(files[0]).value]
      ensures !(Listening() && files != [] && CheckFile(files[0]).Some?) ==> toasts == old(toasts)
    {
      if !Listening() {
        return;
      }
      dragActive := false;
      if files != [] {
        HandleFile(files[0]);
      }
    }

    /** Choosing through the file input handles the first chosen file, if there is one. */
    method HandleChange(files: seq<File>)
      requires Valid()
      modifies this
      ensures Valid() && dragActive == old(dragActive)
      ensures Listening() && files != [] && CheckFile(files[0]).None? ==> changes == old(changes) + [Some(files[0])]
      ensures !Listening() || files == [] || CheckFile(files[0]).Some? ==> changes == old(changes)
      ensures Listening() && files != [] && CheckFile(files[0]).Some? ==> toasts == old(toasts) + [CheckFile(files[0]).value]
      ensures !(Listening() && files != [] && CheckFile(files[0]).Some?) ==> toasts == old(toasts)
    {
      if !Listening() {
        return;
      }
      if files != [] {
        HandleFile(files[0]);
      }
    }

    /** The remove button, shown with the preview whether or not the picker is disabled,
        clears the image by calling `onChange` with nothing. */
    method RemoveImage()
      requires Valid()
      modifies this
      ensures Valid() && dragActive == old(dragActive) && toasts == old(toasts)
      ensures changes == if value.Some? then old(changes) + [None] else old(changes)
    {
      if value.Some? {
        changes := changes + [None];
      }
    }
  }
}
