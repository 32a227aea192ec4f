/** `PhotoLibraryDropUpload`: which dropped files the photo library accepts,
    and the window-level drag handlers that raise and clear the
    "dragging files" flag behind the drop overlay. */
module DropUpload {
  import opened JsValues
  import opened JsStrings
  import opened JsCollections

  /** The name extensions accepted whatever the MIME type, in lower case. */
  const AcceptedExtensions: seq<string> := [".heic", ".heif", ".hif", ".mov"]

  /** A dropped `File`: its name and its MIME type (`file.type`). */
  datatype File = File(name: string, mimeType: string)

  /** `event.dataTransfer`: the advertised types and the dropped files. */
  datatype DataTransfer = DataTransfer(types: seq<string>, files: seq<File>)

  // ---------------------------------------------------------------------------
  // Acceptance

  predicate HasAcceptedExtension(name: string) {
    var lower := ToLower(name);
    EndsWith(lower, ".heic") || EndsWith(lower, ".heif") || EndsWith(lower, ".hif") || EndsWith(lower, ".mov")
  }

  /** `isAcceptedPhotoAsset`. */
  predicate IsAcceptedPhotoAsset(file: File) {
    StartsWith(file.mimeType, "image/")
    || file.mimeType == "video/quicktime"
    || HasAcceptedExtension(file.name)
  }

  /** Any `image/...` type, and `video/quicktime`, are accepted whatever the name. */
  lemma AcceptedByMimeType(name: string, subtype: string)
    ensures IsAcceptedPhotoAsset(File(name, "image/" + subtype))
    ensures IsAcceptedPhotoAsset(File(name, "video/quicktime"))
  {
    assert ("image/" + subtype)[..|"image/"|] == "image/";
  }

  /** For any other type, a file is accepted exactly when some ending of its
      name lower-cases to one of the accepted extensions: the extension test
      ignores case. */
  lemma ExtensionRule(file: File)
    requires !StartsWith(file.mimeType, "image/") && file.mimeType != "video/quicktime"
    ensures IsAcceptedPhotoAsset(file) <==>
      exists k :: 0 <= k <= |file.name| && ToLower(file.name[k..]) in AcceptedExtensions
  {
    var name := file.name;
    if HasAcceptedExtension(name) {
      var lower := ToLower(name);
      var ext := if EndsWith(lower, ".heic") then ".heic"
        else if EndsWith(lower, ".heif") then ".heif"
        else if EndsWith(lower, ".hif") then ".hif"
        else ".mov";
      assert ext in AcceptedExtensions && EndsWith(lower, ext);
      LoweredEnding(name, ext);
      assert ToLower(name[|name| - |ext|..]) in AcceptedExtensions;
    }
    if exists k :: 0 <= k <= |name| && ToLower(name[k..]) in AcceptedExtensions {
      var k :| 0 <= k <= |name| && ToLower(name[k..]) in AcceptedExtensions;
      assert EndsWith(name, name[k..]);
      EndsWithToLower(name, name[k..]);
    }
  }

  /** The ending of `name` that lower-cases to a given ending of its lower-cased form. */
  lemma LoweredEnding(name: string, ext: string)
    requires EndsWith(ToLower(name), ext)
    ensures ToLower(name[|name| - |ext|..]) == ext
  {
    var k := |name| - |ext|;
    assert name == name[..k] + name[k..];
    ToLowerConcat(name[..k], name[k..]);
  }

  /** An upper-case extension is accepted as its lower-case form is. */
  lemma UpperCaseExtensionAccepted(stem: string, mimeType: string)
    ensures IsAcceptedPhotoAsset(File(stem + ".HEIC", mimeType))
    ensures IsAcceptedPhotoAsset(File(stem + ".MOV", mimeType))
  {
    ToLowerConcat(stem, ".HEIC");
    assert ToLower(".HEIC") == ".heic";
    assert (ToLower(stem) + ".heic")[|ToLower(stem)|..] == ".heic";
    ToLowerConcat(stem, ".MOV");
    assert ToLower(".MOV") == ".mov";
    assert (ToLower(stem) + ".mov")[|ToLower(stem)|..] == ".mov";
  }

  /** A file that is neither an image, QuickTime, nor named with an accepted
      extension is refused. */
  lemma RejectsOtherVideo()
    ensures !IsAcceptedPhotoAsset(File("clip.mp4", "video/mp4"))
  {
    assert "video/mp4"[..6] == "video/";
    var lower := ToLower("clip.mp4");
    assert lower == "clip.mp4";
    assert lower[3..] == "p.mp4" && lower[4..] == ".mp4";
    assert !HasAcceptedExtension("clip.mp4");
  }

  /** The drop-time filter `Array.from(files).filter(isAcceptedPhotoAsset)`. */
  function AcceptedFiles(files: seq<File>): (r: seq<File>)
    ensures forall i :: 0 <= i < |r| ==> IsAcceptedPhotoAsset(r[i]) && r[i] in files
    ensures forall i :: 0 <= i < |files| && IsAcceptedPhotoAsset(files[i]) ==> files[i] in r
  {
    Filter(files, IsAcceptedPhotoAsset)
  }

  /** The drop filter keeps the relative order of the files, and keeps a
      selection as it is. */
  lemma AcceptedFilesOrder(files: seq<File>, before: seq<File>, after: seq<File>)
    ensures AcceptedFiles(before + after) == AcceptedFiles(before) + AcceptedFiles(after)
    ensures AcceptedFiles(AcceptedFiles(files)) == AcceptedFiles(files)
  {
    FilterConcat(before, after, IsAcceptedPhotoAsset);
    FilterIdempotent(files, IsAcceptedPhotoAsset);
  }

  // ---------------------------------------------------------------------------
  // Drags and drops

  /** `hasFileDrag`: the drag carries a data transfer that advertises `Files`. */
  predicate HasFileDrag(dataTransfer: Option<DataTransfer>) {
    dataTransfer.Some? && "Files" in dataTransfer.value.types
  }

  /** What a drop leads to. */
  datatype DropOutcome =
    | Ignored                          // not a file drag: left to the page
    | NoFiles                          // no files in the data transfer
    | StoreNotReady                    // `latestRef.current` not yet set
    | Unsupported                      // the "unsupported" toast, no modal
    | ConfirmUpload(files: seq<File>)  // the upload confirmation modal

  /** The decisions of `handleDrop`. */
  function DropDecision(dataTransfer: Option<DataTransfer>, storeReady: bool): (r: DropOutcome)
    ensures r.Ignored? <==> !HasFileDrag(dataTransfer)
    ensures r.ConfirmUpload? <==>
      HasFileDrag(dataTransfer) && storeReady
      && exists f :: f in dataTransfer.value.files && IsAcceptedPhotoAsset(f)
    ensures r.Unsupported? <==>
      HasFileDrag(dataTransfer) && storeReady && |dataTransfer.value.files| > 0
      && forall f :: f in dataTransfer.value.files ==> !IsAcceptedPhotoAsset(f)
    ensures r.ConfirmUpload? ==>
      |r.files| > 0
      && forall i :: 0 <= i < |r.files| ==> IsAcceptedPhotoAsset(r.files[i]) && r.files[i] in dataTransfer.value.files
    ensures r.ConfirmUpload? ==> r.files == AcceptedFiles(dataTransfer.value.files)
  {
    if !HasFileDrag(dataTransfer) then Ignored
    else
      var files := dataTransfer.value.files;
      if |files| == 0 then NoFiles
      else if !storeReady then StoreNotReady
      else
        var selected := AcceptedFiles(files);
        if |selected| == 0 then Unsupported
        else
          assert selected[0] in files && IsAcceptedPhotoAsset(selected[0]);
          ConfirmUpload(selected)
  }

  // ---------------------------------------------------------------------------
  // The dragging flag

  /** The window and document events the component listens to. */
  datatype WindowEvent =
    | DragEnter(dataTransfer: Option<DataTransfer>)
    | DragLeave(relatedTargetIsNull: bool)
    | DragOver(dataTransfer: Option<DataTransfer>)
    | Drop(dataTransfer: Option<DataTransfer>)
    | DragEnd
    | KeyDown(key: string)
    | Blur
    | VisibilityChange(hidden: bool)

  /** Events that set the flag: a file drag entering or moving over the window. */
  predicate Raises(e: WindowEvent) {
    (e.DragEnter? || e.DragOver?) && HasFileDrag(e.dataTransfer)
  }

  /** Events that clear the flag (a no-op when it is already clear). */
  predicate Clears(e: WindowEvent) {
    match e
    case DragEnter(_) => false
    case DragOver(_) => false
    case DragLeave(relatedTargetIsNull) => relatedTargetIsNull
    case Drop(dataTransfer) => HasFileDrag(dataTransfer)
    case DragEnd => true
    case KeyDown(key) => key == "Escape"
    case Blur => true
    case VisibilityChange(hidden) => hidden
  }

  /** The flag after one event, as the handlers leave it. */
  function Next(dragging: bool, e: WindowEvent): (r: bool)
    ensures Raises(e) ==> r
    ensures Clears(e) ==> !r
    ensures !Raises(e) && !Clears(e) ==> r == dragging
  {
    match e
    case DragEnter(dataTransfer) => dragging || HasFileDrag(dataTransfer)
    case DragOver(dataTransfer) => dragging || HasFileDrag(dataTransfer)
    case DragLeave(relatedTargetIsNull) => dragging && !relatedTargetIsNull
    case Drop(dataTransfer) => dragging && !HasFileDrag(dataTransfer)
    case DragEnd => false
    case KeyDown(key) => dragging && key != "Escape"
    case Blur => false
    case VisibilityChange(hidden) => dragging && !hidden
  }

  /** The flag after a sequence of events. */
  function Run(dragging: bool, events: seq<WindowEvent>): bool {
    if events == [] then dragging
    else Next(Run(dragging, events[..|events| - 1]), events[|events| - 1])
  }

  lemma {:induction false} RunConcat(dragging: bool, first: seq<WindowEvent>, second: seq<WindowEvent>)
    ensures Run(dragging, first + second) == Run(Run(dragging, first), second)
    decreases |second|
  {
    if second == [] {
      assert first + second == first;
    } else {
      var n := |second|;
      assert (first + second)[..|first + second| - 1] == first + second[..n - 1];
      RunConcat(dragging, first, second[..n - 1]);
    }
  }

  /** Without a file drag entering or moving over the window, the flag is
      never raised: it can only stay as it was or be cleared. */
  lemma {:induction false} NoFileDragNeverRaises(dragging: bool, events: seq<WindowEvent>)
    requires forall i :: 0 <= i < |events| ==> !Raises(events[i])
    ensures Run(dragging, events) ==> dragging
  {
    if events != [] {
      NoFileDragNeverRaises(dragging, events[..|events| - 1]);
    }
  }

  /** The last event that raises or clears the flag decides it: raised after
      a file drag with no clearing event since, clear after a clearing event
      with no file drag since. */
  lemma {:induction false} LastDecisiveEventWins(dragging: bool, events: seq<WindowEvent>, k: nat)
    requires k < |events|
    requires forall i :: k < i < |events| ==> !Raises(events[i]) && !Clears(events[i])
    ensures Raises(events[k]) ==> Run(dragging, events)
    ensures Clears(events[k]) ==> !Run(dragging, events)
    decreases |events|
  {
    if k < |events| - 1 {
      LastDecisiveEventWins(dragging, events[..|events| - 1], k);
    }
  }

  /** The component's drag state; the ref mirrors the flag and is not
      modelled apart from it. */
  class DropOverlay {
    var isDraggingFiles: bool

    constructor ()
      ensures !isDraggingFiles
    {
      isDraggingFiles := false;
    }

    /** `handleDragEnter`. */
    method HandleDragEnter(dataTransfer: Option<DataTransfer>)
      modifies this
      ensures isDraggingFiles == Next(old(isDraggingFiles), DragEnter(dataTransfer))
    {
      if !HasFileDrag(dataTransfer) {
        return;
      }
      if isDraggingFiles {
        return;
      }
      isDraggingFiles := true;
    }

    /** `handleDragLeave`: only leaving the window (no related target) clears. */
    method HandleDragLeave(relatedTargetIsNull: bool)
      modifies this
      ensures isDraggingFiles == Next(old(isDraggingFiles), DragLeave(relatedTargetIsNull))
    {
      if !isDraggingFiles {
        return;
      }
      if !relatedTargetIsNull {
        return;
      }
      isDraggingFiles := false;
    }

    /** `handleDragOver`; returns whether the default is prevented (and the
        drop effect set to `copy`). */
    method HandleDragOver(dataTransfer: Option<DataTransfer>) returns (preventDefault: bool)
      modifies this
      ensures preventDefault == HasFileDrag(dataTransfer)
      ensures isDraggingFiles == Next(old(isDraggingFiles), DragOver(dataTransfer))
    {
      if !HasFileDrag(dataTransfer) {
        return false;
      }
      if !isDraggingFiles {
        isDraggingFiles := true;
      }
      return true;
    }

    /** `handleDrop`: clears the flag for a file drag, then decides what to
        present. */
    method HandleDrop(dataTransfer: Option<DataTransfer>, storeReady: bool) returns (outcome: DropOutcome)
      modifies this
      ensures outcome == DropDecision(dataTransfer, storeReady)
      ensures isDraggingFiles == Next(old(isDraggingFiles), Drop(dataTransfer))
    {
      if !HasFileDrag(dataTransfer) {
        return Ignored;
      }
      isDraggingFiles := false;
      var files := dataTransfer.value.files;
      if |files| == 0 {
        return NoFiles;
      }
      if !storeReady {
        return StoreNotReady;
      }
      var selectedFiles := AcceptedFiles(files);
      if |selectedFiles| == 0 {
        return Unsupported;
      }
      return ConfirmUpload(selectedFiles);
    }

    /** `resetDraggingState`, the `dragend` listener. */
    method ResetDraggingState()
      modifies this
      ensures isDraggingFiles == Next(old(isDraggingFiles), DragEnd)
    {
      isDraggingFiles := false;
    }

    /** `handleKeyDown`: Escape clears. */
    method HandleKeyDown(key: string)
      modifies this
      ensures isDraggingFiles == Next(old(isDraggingFiles), KeyDown(key))
    {
      if key != "Escape" {
        return;
      }
      isDraggingFiles := false;
    }

    /** `handleBlur`. */
    method HandleBlur()
      modifies this
      ensures isDraggingFiles == Next(old(isDraggingFiles), Blur)
    {
      isDraggingFiles := false;
    }

    /** `handleVisibilityChange`: hiding the document clears. */
    method HandleVisibilityChange(hidden: bool)
      modifies this
      ensures isDraggingFiles == Next(old(isDraggingFiles), VisibilityChange(hidden))
    {
      if !hidden {
        return;
      }
      isDraggingFiles := false;
    }
  }
}
