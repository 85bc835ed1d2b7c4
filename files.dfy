/** The upload list store of src/stores/file.ts: at most five attached
    files, each with its upload status. */
module Files {
  import opened Wrappers
  import JsStrings

  const MaxFiles := 5

  /** The status strings. Items use `Pending`, `Uploading`, `Success` and
      `Error`; the store as a whole uses `Idle`, `Uploading`, `Success` and
      `Error`. */
  datatype Status = Idle | Pending | Uploading | Success | Error

  /** What the store reads of a browser `File`. */
  datatype FileInput = FileInput(name: string, size: int, mimeType: string)

  datatype FileItem = FileItem(
    file: FileInput,
    originalName: string,
    storedName: Option<string>,
    size: int,
    mimeType: string,
    isImage: bool,
    uploadStatus: Status,
    error: Option<string>)

  /** The store cell; `None` is the `null` error. */
  datatype FileState = FileState(files: seq<FileItem>, status: Status, error: Option<string>)

  const Initial := FileState([], Idle, None)

  /** The message of a rejected batch. */
  function LimitMessage(availableSlots: int): (r: string)
    ensures JsStrings.StartsWith(r, "Maximum 5 files allowed. You can add ")
    ensures JsStrings.EndsWith(r, " more file(s).")
    ensures 51 <= |r| && r[37..|r| - 14] == JsStrings.IntString(availableSlots)
  {
    "Maximum 5 files allowed. You can add " + JsStrings.IntString(availableSlots) + " more file(s)."
  }

  /** The pending item made for a new file. */
  function NewItem(f: FileInput): (r: FileItem)
    ensures r.file == f && r.originalName == f.name && r.size == f.size && r.mimeType == f.mimeType
    ensures r.isImage <==> JsStrings.StartsWith(f.mimeType, "image/")
    ensures r.uploadStatus == Pending && r.storedName.None? && r.error.None?
  {
    FileItem(f, f.name, None, f.size, f.mimeType, JsStrings.StartsWith(f.mimeType, "image/"), Pending, None)
  }

  /** `newFiles.map(...)`. */
  function NewItems(fs: seq<FileInput>): (r: seq<FileItem>)
    ensures |r| == |fs| && forall i :: 0 <= i < |fs| ==> r[i] == NewItem(fs[i])
  {
    if fs == [] then [] else [NewItem(fs[0])] + NewItems(fs[1..])
  }

  /** `addFiles(newFiles)`: a batch larger than the free slots is refused
      whole, with a message; otherwise every file is appended, in order,
      as a pending item. */
  function FilesAdded(s: FileState, fs: seq<FileInput>): (r: FileState)
    ensures |fs| > MaxFiles - |s.files| ==> r == s.(error := Some(LimitMessage(MaxFiles - |s.files|)))
    ensures |fs| <= MaxFiles - |s.files| ==>
              |r.files| == |s.files| + |fs| && r.files[..|s.files|] == s.files &&
              (forall i :: 0 <= i < |fs| ==> r.files[|s.files| + i] == NewItem(fs[i])) &&
              r.status == s.status && r.error.None?
    ensures |r.files| <= MaxFiles || r.files == s.files
  {
    var availableSlots := MaxFiles - |s.files|;
    if |fs| > availableSlots then s.(error := Some(LimitMessage(availableSlots)))
    else s.(files := s.files + NewItems(fs), error := None)
  }

  /** `files.filter((_, i) => i !== index)`, read from the back. */
  function KeepOthers<T>(xs: seq<T>, index: int): (r: seq<T>)
    ensures 0 <= index < |xs| ==> r == xs[..index] + xs[index + 1..]
    ensures !(0 <= index < |xs|) ==> r == xs
  {
    if xs == [] then []
    else
      var n := |xs| - 1;
      var front := KeepOthers(xs[..n], index);
      assert 0 <= index < n ==> front + [xs[n]] == xs[..index] + xs[index + 1..];
      front + (if n == index then [] else [xs[n]])
  }

  /** `removeFile(index)`. */
  function FileRemoved(s: FileState, index: int): (r: FileState)
    ensures 0 <= index < |s.files| ==>
              && |r.files| == |s.files| - 1
              && (forall i :: 0 <= i < index ==> r.files[i] == s.files[i])
              && (forall i :: index <= i < |r.files| ==> r.files[i] == s.files[i + 1])
    ensures !(0 <= index < |s.files|) ==> r.files == s.files
    ensures r.status == s.status && r.error.None?
  {
    s.(files := KeepOthers(s.files, index), error := None)
  }

  /** Copy the list and replace the item at `index` when there is one. */
  function ReplaceAt(xs: seq<FileItem>, index: int, item: FileItem): (r: seq<FileItem>)
    ensures |r| == |xs|
    ensures forall i :: 0 <= i < |xs| ==> r[i] == if i == index then item else xs[i]
  {
    if 0 <= index < |xs| then xs[index := item] else xs
  }

  /** `updateFileAfterUpload(index, storedName)`. */
  function UploadRecorded(s: FileState, index: int, storedName: string): (r: FileState)
    ensures |r.files| == |s.files| && r.status == s.status && r.error == s.error
    ensures forall i :: 0 <= i < |s.files| && i != index ==> r.files[i] == s.files[i]
    ensures 0 <= index < |s.files| ==> r.files[index] == s.files[index].(storedName := Some(storedName), uploadStatus := Success)
  {
    if 0 <= index < |s.files| then
      s.(files := ReplaceAt(s.files, index, s.files[index].(storedName := Some(storedName), uploadStatus := Success)))
    else s
  }

  /** `setFileError(index, error)`. */
  function FileFailed(s: FileState, index: int, error: string): (r: FileState)
    ensures |r.files| == |s.files| && r.status == s.status && r.error == s.error
    ensures forall i :: 0 <= i < |s.files| && i != index ==> r.files[i] == s.files[i]
    ensures 0 <= index < |s.files| ==> r.files[index] == s.files[index].(uploadStatus := Error, error := Some(error))
  {
    if 0 <= index < |s.files| then
      s.(files := ReplaceAt(s.files, index, s.files[index].(uploadStatus := Error, error := Some(error))))
    else s
  }

  /** `error || null`: an absent or empty message is stored as `null`. */
  function ErrorOrNull(e: Option<string>): (r: Option<string>)
    ensures r.Some? <==> e.Some? && e.value != ""
    ensures r.Some? ==> r == e
  {
    if e.Some? && e.value != "" then e else None
  }

  /** Filling the list to capacity leaves no room: any further non-empty
      batch is refused. */
  lemma FullListRefuses(s: FileState, fs: seq<FileInput>, more: seq<FileInput>)
    requires |s.files| + |fs| == MaxFiles && more != []
    ensures FilesAdded(FilesAdded(s, fs), more).files == FilesAdded(s, fs).files
  {
  }

  class FileStore {
    var state: FileState

    /** The upload list never holds more than five files. */
    ghost predicate Valid()
      reads this
    {
      |state.files| <= MaxFiles
    }

    constructor ()
      ensures state == Initial && Valid()
    {
      state := Initial;
    }

    method AddFiles(newFiles: seq<FileInput>)
      requires Valid()
      modifies this
      ensures state == FilesAdded(old(state), newFiles) && Valid()
    {
      var currentCount := |state.files|;
      var availableSlots := MaxFiles - currentCount;
      if |newFiles| > availableSlots {
        state := state.(error := Some(LimitMessage(availableSlots)));
        return;
      }
      var fileItems := NewItems(newFiles);
      state := state.(files := state.files + fileItems, error := None);
    }

    method RemoveFile(index: int)
      requires Valid()
      modifies this
      ensures state == FileRemoved(old(state), index) && Valid()
    {
      state := state.(files := KeepOthers(state.files, index), error := None);
    }

    method SetUploadStatus(status: Status, error: Option<string>)
      requires status == Uploading || status == Success || status == Error
      requires Valid()
      modifies this
      ensures state == old(state).(status := status, error := ErrorOrNull(error)) && Valid()
    {
      state := state.(status := status, error := ErrorOrNull(error));
    }

    method UpdateFileAfterUpload(index: int, storedName: string)
      requires Valid()
      modifies this
      ensures state == UploadRecorded(old(state), index, storedName) && Valid()
    {
      var newFiles := state.files;
      if 0 <= index < |newFiles| {
        newFiles := newFiles[index := newFiles[index].(storedName := Some(storedName), uploadStatus := Success)];
      }
      state := state.(files := newFiles);
    }

    method SetFileError(index: int, error: string)
      requires Valid()
      modifies this
      ensures state == FileFailed(old(state), index, error) && Valid()
    {
      var newFiles := state.files;
      if 0 <= index < |newFiles| {
        newFiles := newFiles[index := newFiles[index].(uploadStatus := Error, error := Some(error))];
      }
      state := state.(files := newFiles);
    }

    method ClearFiles()
      modifies this
      ensures state == Initial && Valid()
    {
      state := Initial;
    }

    method ClearError()
      requires Valid()
      modifies this
      ensures state == old(state).(error := None) && Valid()
    {
      state := state.(error := None);
    }
  }
}
