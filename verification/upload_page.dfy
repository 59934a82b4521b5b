/** The upload page (`Home` in src/pages/Home.jsx; `HomePage` has the same logic): the
    tracked-file list, the `isUploading` flag and the toasts it raises, with the
    operations that change them. */
module UploadPage {

  import opened Wrappers
  import opened FileRules
  import opened TrackedFiles
  import opened Lists

  datatype ToastKind = SuccessToast | ErrorToast | WarningToast

  /** What a toast says, kept structured; `MessageText` spells it out as the page does. */
  datatype Message =
    | FileRemoved
    | AllCleared
    | NothingToUpload
    | AllUploaded
    | SessionFailed
    | Rejected(name: string, error: string)
    | Uploaded(name: string)
    | UploadFailed(name: string)

  /** The text of each message. `NothingToUpload` is `Home`'s wording; `HomePage` says
      "No files to upload". */
  function MessageText(m: Message): string {
    match m
    case FileRemoved => "File removed"
    case AllCleared => "All files cleared"
    case NothingToUpload => "No valid files to upload"
    case AllUploaded => "All files uploaded successfully!"
    case SessionFailed => "Upload session failed"
    case Rejected(name, error) => name + ": " + error
    case Uploaded(name) => name + " uploaded successfully"
    case UploadFailed(name) => "Failed to upload " + name
  }

  /** A `toast.success`/`toast.error`/`toast.warning` notification. */
  datatype Toast = Toast(kind: ToastKind, message: Message)

  /** The totals `uploadFiles` passes to `createUploadSession` (its start time is a clock
      reading and not modelled). */
  datatype SessionRequest = SessionRequest(totalFiles: nat, totalSize: nat)

  /** What `uploadFiles` passes to `completeUploadSession` once the loop is over: the
      size of the batch it attempted, whatever each file's outcome (its end time is a
      clock reading and not modelled). */
  datatype CompletionRequest = CompletionRequest(uploadedFiles: nat)

  /** The toast `processFiles` raises for a file that fails validation, if any. */
  function IntakeToast(raw: RawFile): seq<Toast> {
    var error := ValidateFile(raw.mimeType, raw.size);
    if error.Some? then [Toast(ErrorToast, Rejected(raw.name, error.value))] else []
  }

  /** The toasts of `processFiles`, one per rejected file, in input order. */
  function IntakeToasts(raws: seq<RawFile>): (r: seq<Toast>)
    ensures forall k :: 0 <= k < |r| ==> r[k].kind == ErrorToast
    decreases |raws|
  {
    if |raws| == 0 then []
    else
      var n := |raws| - 1;
      IntakeToasts(raws[..n]) + IntakeToast(raws[n])
  }

  /** There is one intake toast per file that fails validation. */
  lemma {:induction false} IntakeToastsCount(raws: seq<RawFile>)
    ensures |IntakeToasts(raws)| == |raws| - |Filter(raws, Passes)|
    decreases |raws|
  {
    if |raws| > 0 {
      var n := |raws| - 1;
      IntakeToastsCount(raws[..n]);
      FilterAppend(raws[..n], [raws[n]], Passes);
      assert raws[..n] + [raws[n]] == raws;
    }
  }

  /** The toasts of the first `i + 1` files are those of the first `i` and then the next one's. */
  lemma IntakeToastsStep(raws: seq<RawFile>, i: nat)
    requires i < |raws|
    ensures IntakeToasts(raws[..i + 1]) == IntakeToasts(raws[..i]) + IntakeToast(raws[i])
  {
    assert raws[..i + 1][..i] == raws[..i];
  }

  /** The toast the loop raises once the persistence call for `f` succeeded or threw. */
  function FileToast(f: TrackedFile, ok: bool): Toast {
    if ok then Toast(SuccessToast, Uploaded(f.name)) else Toast(ErrorToast, UploadFailed(f.name))
  }

  /** The toasts of the loop over `batch`: one per file, in batch order. */
  function FileToasts(batch: seq<TrackedFile>, outcomes: seq<bool>): seq<Toast>
    requires |outcomes| == |batch|
    decreases |batch|
  {
    if |batch| == 0 then []
    else
      var n := |batch| - 1;
      FileToasts(batch[..n], outcomes[..n]) + [FileToast(batch[n], outcomes[n])]
  }

  /** The toasts of the first `i + 1` files are those of the first `i` and then the next one's. */
  lemma FileToastsStep(batch: seq<TrackedFile>, outcomes: seq<bool>, i: nat)
    requires |outcomes| == |batch| && i < |batch|
    ensures FileToasts(batch[..i + 1], outcomes[..i + 1])
      == FileToasts(batch[..i], outcomes[..i]) + [FileToast(batch[i], outcomes[i])]
  {
    assert batch[..i + 1][..i] == batch[..i];
    assert outcomes[..i + 1][..i] == outcomes[..i];
  }

  /** One more file's toast, appended to the earlier toasts, extends the loop's toasts. */
  lemma FileToastsExtend(earlier: seq<Toast>, batch: seq<TrackedFile>, outcomes: seq<bool>, i: nat)
    requires |outcomes| == |batch| && i < |batch|
    ensures earlier + FileToasts(batch[..i + 1], outcomes[..i + 1])
      == (earlier + FileToasts(batch[..i], outcomes[..i])) + [FileToast(batch[i], outcomes[i])]
  {
    FileToastsStep(batch, outcomes, i);
    AppendAssoc(earlier, FileToasts(batch[..i], outcomes[..i]), [FileToast(batch[i], outcomes[i])]);
  }

  /** One toast per file of the batch, in batch order, saying how its upload ended. */
  lemma {:induction false} FileToastsAt(batch: seq<TrackedFile>, outcomes: seq<bool>)
    requires |outcomes| == |batch|
    ensures |FileToasts(batch, outcomes)| == |batch|
    ensures forall k :: 0 <= k < |batch| ==> FileToasts(batch, outcomes)[k] == FileToast(batch[k], outcomes[k])
    decreases |batch|
  {
    if |batch| > 0 {
      var n := |batch| - 1;
      FileToastsAt(batch[..n], outcomes[..n]);
    }
  }

  /** The last toast of a batch whose session was created: success if completing the
      session worked, the session failure otherwise. */
  function SessionEndToast(completed: bool): Toast {
    if completed then Toast(SuccessToast, AllUploaded) else Toast(ErrorToast, SessionFailed)
  }

  /** `Home`'s upload button (src/pages/Home.jsx:284): enabled unless no record is
      non-error or an upload is running. */
  function HomeUploadEnabled(fs: seq<TrackedFile>, uploading: bool): bool {
    !(|NonErrorFiles(fs)| == 0 || uploading)
  }

  /** `HomePage`'s upload button: enabled unless no record is pending
      (`filesForUploadButton`) or an upload is running. */
  function UploadEnabled(fs: seq<TrackedFile>, uploading: bool): bool {
    !(|Filter(fs, IsPending)| == 0 || uploading)
  }

  /** `HomePage`'s button is enabled exactly when no upload runs and some record is
      pending, which is exactly when a click would upload something. */
  lemma UploadEnabledIff(fs: seq<TrackedFile>, uploading: bool)
    ensures UploadEnabled(fs, uploading) <==> !uploading && exists i :: 0 <= i < |fs| && fs[i].status == Pending
  {
    FilterMembers(fs, IsPending);
    if exists i :: 0 <= i < |fs| && fs[i].status == Pending {
      var i :| 0 <= i < |fs| && fs[i].status == Pending;
      assert fs[i] in Filter(fs, IsPending);
    } else if |Filter(fs, IsPending)| > 0 {
      var r := Filter(fs, IsPending);
      assert r[0] in fs;
    }
  }

  /** `Home`'s button can be enabled with nothing pending: a list holding one completed
      record enables it, although a click only warns that there is nothing to upload. */
  lemma HomeUploadEnabledWithNothingPending()
    ensures var fs := [TrackedFile("a", "a.pdf", 1, PdfType, 0, 100, Completed, None, None)];
      HomeUploadEnabled(fs, false) && !UploadEnabled(fs, false) && |Filter(fs, IsPending)| == 0
  {
    var fs := [TrackedFile("a", "a.pdf", 1, PdfType, 0, 100, Completed, None, None)];
    assert fs[1..] == [];
  }

  /** The loop of `processFiles`: the record built for each raw file, in input order, and
      the toasts raised for the rejected ones. */
  method BuildFileItems(raws: seq<RawFile>, ids: seq<string>, dataUrls: seq<string>) returns (newFiles: seq<TrackedFile>, raised: seq<Toast>)
    requires |ids| == |raws| && |dataUrls| == |raws|
    ensures newFiles == NewRecords(raws, ids, dataUrls)
    ensures raised == IntakeToasts(raws)
  {
    newFiles, raised := [], [];
    var i := 0;
    while i < |raws|
      invariant 0 <= i <= |raws|
      invariant newFiles == NewRecords(raws[..i], ids[..i], dataUrls[..i])
      invariant raised == IntakeToasts(raws[..i])
    {
      var raw := raws[i];
      var error := ValidateFile(raw.mimeType, raw.size);
      var preview := CreateFilePreview(raw, dataUrls[i]);
      var item := TrackedFile(ids[i], raw.name, raw.size, raw.mimeType, raw.lastModified, 0,
                              if error.Some? then Error else Pending, error, preview);
      newFiles := newFiles + [item];
      if error.Some? {
        raised := raised + [Toast(ErrorToast, Rejected(raw.name, error.value))];
      }
      NewRecordsStep(raws, ids, dataUrls, i);
      IntakeToastsStep(raws, i);
      i := i + 1;
    }
    assert raws[..i] == raws && ids[..i] == ids && dataUrls[..i] == dataUrls;
  }

  /** Regrouping a concatenation; stated once as a helper, since the same fact
      asserted inline where the page's loops extend a sequence costs the solver far more. */
  lemma AppendAssoc<T>(a: seq<T>, b: seq<T>, c: seq<T>)
    ensures (a + b) + c == a + (b + c)
  {
  }

  /** One state of the page as it is rendered: the list and the `isUploading` flag. */
  datatype Snapshot = Snapshot(files: seq<TrackedFile>, uploading: bool)

  /** The states shown by the first `n` passes of the progress loop, each after one more
      tick on the record with `id`. */
  function TickTrace(marked: seq<TrackedFile>, id: string, n: nat, uploading: bool): (r: seq<Snapshot>)
    requires n <= |ProgressValues|
    ensures |r| == n
    decreases n
  {
    if n == 0 then []
    else TickTrace(marked, id, n - 1, uploading) + [Snapshot(Sweep(marked, id, ProgressValues[..n]), uploading)]
  }

  /** The states one pass of `uploadFiles`' loop shows for the record with `id`: marked
      'uploading', then one state per progress tick, then finished. */
  function UploadTrace(fs: seq<TrackedFile>, id: string, ok: bool, uploading: bool): seq<Snapshot> {
    var marked := UpdateById(fs, id, MarkUploading);
    [Snapshot(marked, uploading)] + TickTrace(marked, id, |ProgressValues|, uploading)
      + [Snapshot(UploadOne(fs, id, ok), uploading)]
  }

  /** The `j`-th tick state is the list after the first `j + 1` ticks. */
  lemma {:induction false} TickTraceAt(marked: seq<TrackedFile>, id: string, n: nat, uploading: bool)
    requires n <= |ProgressValues|
    ensures forall j :: 0 <= j < n ==>
      TickTrace(marked, id, n, uploading)[j] == Snapshot(Sweep(marked, id, ProgressValues[..j + 1]), uploading)
    decreases n
  {
    if n > 0 {
      TickTraceAt(marked, id, n - 1, uploading);
    }
  }

  /** The thirteen states of one upload: every one keeps the flag and the list's length;
      first the record with `id` is 'uploading' at its old progress, in state `j` (for
      `1 <= j <= 11`) it is 'uploading' at progress `10 * (j - 1)`, and last it is
      finished as `ok` says; no other record changes in any of them. */
  lemma UploadTraceAt(fs: seq<TrackedFile>, id: string, ok: bool, uploading: bool)
    ensures var t := UploadTrace(fs, id, ok, uploading);
      && |t| == 2 + |ProgressValues|
      && (forall j :: 0 <= j < |t| ==> t[j].uploading == uploading && |t[j].files| == |fs|)
      && (forall i :: 0 <= i < |fs| ==>
            t[0].files[i] == if fs[i].id == id then fs[i].(status := Uploading) else fs[i])
      && (forall j, i :: 1 <= j <= |ProgressValues| && 0 <= i < |fs| ==>
            t[j].files[i] == if fs[i].id == id then fs[i].(status := Uploading, uploadProgress := 10 * (j - 1)) else fs[i])
      && (forall i :: 0 <= i < |fs| ==>
            t[|t| - 1].files[i] == if fs[i].id == id then Finish(fs[i], ok) else fs[i])
  {
    UploadTraceStates(fs, id, ok, uploading);
    UpdateByIdAt(fs, id, MarkUploading);
    forall j | 1 <= j <= |ProgressValues|
      ensures |Sweep(UpdateById(fs, id, MarkUploading), id, ProgressValues[..j])| == |fs|
      ensures forall i :: 0 <= i < |fs| ==>
        Sweep(UpdateById(fs, id, MarkUploading), id, ProgressValues[..j])[i]
          == if fs[i].id == id then fs[i].(status := Uploading, uploadProgress := 10 * (j - 1)) else fs[i]
    {
      TickStateAt(fs, id, j);
    }
    UploadOneAt(fs, id, ok);
  }

  /** Every state of one upload carries the flag it was given. */
  lemma UploadTraceFlags(fs: seq<TrackedFile>, id: string, ok: bool, uploading: bool)
    ensures |UploadTrace(fs, id, ok, uploading)| == 13
    ensures forall j :: 0 <= j < |UploadTrace(fs, id, ok, uploading)| ==> UploadTrace(fs, id, ok, uploading)[j].uploading == uploading
  {
    UploadTraceStates(fs, id, ok, uploading);
  }

  /** The thirteen states of one upload, one by one. */
  lemma UploadTraceStates(fs: seq<TrackedFile>, id: string, ok: bool, uploading: bool)
    ensures var marked := UpdateById(fs, id, MarkUploading);
      var t := UploadTrace(fs, id, ok, uploading);
      && |t| == 2 + |ProgressValues|
      && t[0] == Snapshot(marked, uploading)
      && t[|t| - 1] == Snapshot(UploadOne(fs, id, ok), uploading)
      && forall j :: 1 <= j <= |ProgressValues| ==> t[j] == Snapshot(Sweep(marked, id, ProgressValues[..j]), uploading)
  {
    var marked := UpdateById(fs, id, MarkUploading);
    var ticks := TickTrace(marked, id, |ProgressValues|, uploading);
    TickTraceAt(marked, id, |ProgressValues|, uploading);
    var t := UploadTrace(fs, id, ok, uploading);
    forall j | 1 <= j <= |ProgressValues|
      ensures t[j] == Snapshot(Sweep(marked, id, ProgressValues[..j]), uploading)
    {
      assert t[j] == ticks[j - 1];
    }
  }

  /** After `j` ticks the record with `id` is 'uploading' at progress `10 * (j - 1)`. */
  lemma TickStateAt(fs: seq<TrackedFile>, id: string, j: nat)
    requires 1 <= j <= |ProgressValues|
    ensures var r := Sweep(UpdateById(fs, id, MarkUploading), id, ProgressValues[..j]);
      && |r| == |fs|
      && forall i :: 0 <= i < |fs| ==>
           r[i] == if fs[i].id == id then fs[i].(status := Uploading, uploadProgress := 10 * (j - 1)) else fs[i]
  {
    var marked := UpdateById(fs, id, MarkUploading);
    UpdateByIdAt(fs, id, MarkUploading);
    SweepAt(marked, id, ProgressValues[..j]);
    ProgressValuesAreSteps();
    assert ProgressValues[..j][j - 1] == 10 * (j - 1);
  }

  /** One more tick state, appended to a history, extends its tick trace. */
  lemma TickTraceExtend(before: seq<Snapshot>, marked: seq<TrackedFile>, id: string, k: nat, uploading: bool)
    requires k < |ProgressValues|
    ensures before + TickTrace(marked, id, k + 1, uploading)
      == (before + TickTrace(marked, id, k, uploading)) + [Snapshot(Sweep(marked, id, ProgressValues[..k + 1]), uploading)]
  {
    AppendAssoc(before, TickTrace(marked, id, k, uploading), [Snapshot(Sweep(marked, id, ProgressValues[..k + 1]), uploading)]);
  }

  /** A history followed by one upload's trace, regrouped as `UploadFile` builds it. */
  lemma UploadTraceSplit(h: seq<Snapshot>, fs: seq<TrackedFile>, id: string, ok: bool, uploading: bool)
    ensures var marked := UpdateById(fs, id, MarkUploading);
      h + UploadTrace(fs, id, ok, uploading)
        == ((h + [Snapshot(marked, uploading)]) + TickTrace(marked, id, |ProgressValues|, uploading))
          + [Snapshot(UploadOne(fs, id, ok), uploading)]
  {
    var marked := UpdateById(fs, id, MarkUploading);
    var ticks := TickTrace(marked, id, |ProgressValues|, uploading);
    AppendAssoc(h, [Snapshot(marked, uploading)], ticks);
    AppendAssoc(h, [Snapshot(marked, uploading)] + ticks, [Snapshot(UploadOne(fs, id, ok), uploading)]);
  }

  /** The states the loop over `batch` shows, file after file, with the flag raised. */
  function BatchTrace(start: seq<TrackedFile>, batch: seq<TrackedFile>, outcomes: seq<bool>): seq<Snapshot>
    requires |outcomes| == |batch|
    decreases |batch|
  {
    if |batch| == 0 then []
    else
      var n := |batch| - 1;
      BatchTrace(start, batch[..n], outcomes[..n])
        + UploadTrace(UploadAll(start, batch[..n], outcomes[..n]), batch[n].id, outcomes[n], true)
  }

  /** The trace of the first `i + 1` files is that of the first `i` and then the next one's. */
  lemma BatchTraceStep(start: seq<TrackedFile>, batch: seq<TrackedFile>, outcomes: seq<bool>, i: nat)
    requires |outcomes| == |batch| && i < |batch|
    ensures BatchTrace(start, batch[..i + 1], outcomes[..i + 1])
      == BatchTrace(start, batch[..i], outcomes[..i])
        + UploadTrace(UploadAll(start, batch[..i], outcomes[..i]), batch[i].id, outcomes[i], true)
  {
    assert batch[..i + 1][..i] == batch[..i];
    assert outcomes[..i + 1][..i] == outcomes[..i];
  }

  /** One more file's trace, appended to a history, extends its batch trace. */
  lemma BatchTraceExtend(before: seq<Snapshot>, start: seq<TrackedFile>, batch: seq<TrackedFile>, outcomes: seq<bool>, i: nat)
    requires |outcomes| == |batch| && i < |batch|
    ensures before + BatchTrace(start, batch[..i + 1], outcomes[..i + 1])
      == (before + BatchTrace(start, batch[..i], outcomes[..i]))
        + UploadTrace(UploadAll(start, batch[..i], outcomes[..i]), batch[i].id, outcomes[i], true)
  {
    BatchTraceStep(start, batch, outcomes, i);
    AppendAssoc(before, BatchTrace(start, batch[..i], outcomes[..i]),
      UploadTrace(UploadAll(start, batch[..i], outcomes[..i]), batch[i].id, outcomes[i], true));
  }

  /** Thirteen states per file, and the flag is up in every one of them. */
  lemma {:induction false} BatchTraceUploading(start: seq<TrackedFile>, batch: seq<TrackedFile>, outcomes: seq<bool>)
    requires |outcomes| == |batch|
    ensures |BatchTrace(start, batch, outcomes)| == 13 * |batch|
    ensures forall j :: 0 <= j < |BatchTrace(start, batch, outcomes)| ==> BatchTrace(start, batch, outcomes)[j].uploading
    decreases |batch|
  {
    if |batch| > 0 {
      var n := |batch| - 1;
      BatchTraceUploading(start, batch[..n], outcomes[..n]);
      UploadTraceFlags(UploadAll(start, batch[..n], outcomes[..n]), batch[n].id, outcomes[n], true);
    }
  }

  /** The states of an upload whose session was created: the flag goes up with the list
      as it was, stays up through thirteen states per file, and comes down last. */
  lemma UploadRunFlags(fs: seq<TrackedFile>, batch: seq<TrackedFile>, outcomes: seq<bool>, final: seq<TrackedFile>)
    requires |outcomes| == |batch|
    ensures var run := [Snapshot(fs, true)] + BatchTrace(fs, batch, outcomes) + [Snapshot(final, false)];
      && |run| == 2 + 13 * |batch|
      && (forall j :: 0 <= j < |run| - 1 ==> run[j].uploading)
      && !run[|run| - 1].uploading
  {
    BatchTraceUploading(fs, batch, outcomes);
  }

  /** The page's state. */
  class Page {
    var files: seq<TrackedFile>
    var isUploading: bool
    /** Every toast raised so far, oldest first. */
    var toasts: seq<Toast>
    /** Every state of the list and the flag the page has shown, oldest first: one more
        each time either is set. */
    ghost var history: seq<Snapshot>

    /** Every record is well formed and no two records share an id. */
    predicate Valid()
      reads this
    {
      AllWellFormed(files) && UniqueIds(files)
    }

    constructor()
      ensures Valid()
      ensures files == [] && !isUploading && toasts == []
      ensures history == [Snapshot([], false)]
    {
      files := [];
      isUploading := false;
      toasts := [];
      history := [Snapshot([], false)];
    }

    /** `processFiles`: one record per raw file, appended after the existing records in
        input order; a toast per rejected file; returns the new records without an error.
        `ids` are the fresh ids and `dataUrls` the data URLs read from the files. */
    method ProcessFiles(raws: seq<RawFile>, ids: seq<string>, dataUrls: seq<string>) returns (accepted: seq<TrackedFile>)
      requires Valid()
      requires |ids| == |raws| && |dataUrls| == |raws|
      requires forall i, j :: 0 <= i < j < |ids| ==> ids[i] != ids[j]
      requires forall j :: 0 <= j < |ids| ==> Lacks(files, ids[j])
      modifies this
      ensures Valid()
      ensures files == old(files) + NewRecords(raws, ids, dataUrls)
      ensures accepted == Filter(NewRecords(raws, ids, dataUrls), HasNoError)
      ensures toasts == old(toasts) + IntakeToasts(raws)
      ensures isUploading == old(isUploading)
      ensures history == old(history) + [Snapshot(files, isUploading)]
    {
      var newFiles, raised := BuildFileItems(raws, ids, dataUrls);
      toasts := toasts + raised;
      IntakeKeepsInvariants(files, raws, ids, dataUrls);
      files := files + newFiles;
      history := history + [Snapshot(files, isUploading)];
      accepted := Filter(newFiles, HasNoError);
    }

    /** `removeFile`: every record with the id goes, the others keep their order. */
    method RemoveFile(id: string)
      requires Valid()
      modifies this
      ensures Valid()
      ensures files == Without(old(files), id)
      ensures toasts == old(toasts) + [Toast(SuccessToast, FileRemoved)]
      ensures isUploading == old(isUploading)
      ensures history == old(history) + [Snapshot(files, isUploading)]
    {
      WithoutKeepsInvariants(files, id);
      files := Without(files, id);
      history := history + [Snapshot(files, isUploading)];
      toasts := toasts + [Toast(SuccessToast, FileRemoved)];
    }

    /** `clearAll`: the list becomes empty. */
    method ClearAll()
      modifies this
      ensures Valid()
      ensures files == []
      ensures toasts == old(toasts) + [Toast(SuccessToast, AllCleared)]
      ensures isUploading == old(isUploading)
      ensures history == old(history) + [Snapshot(files, isUploading)]
    {
      files := [];
      history := history + [Snapshot(files, isUploading)];
      toasts := toasts + [Toast(SuccessToast, AllCleared)];
    }

    /** The progress loop inside one pass of `uploadFiles`' loop: the record with `id`,
        already 'uploading', shows progress 0, 10, ..., 100 in turn, one state each. */
    method TickProgress(id: string)
      requires Valid()
      requires forall m :: 0 <= m < |files| && files[m].id == id ==> files[m].status == Uploading
      modifies this
      ensures Valid()
      ensures files == Sweep(old(files), id, ProgressValues)
      ensures history == old(history) + TickTrace(old(files), id, |ProgressValues|, isUploading)
      ensures toasts == old(toasts) && isUploading == old(isUploading)
    {
      ProgressValuesAreSteps();
      var progress := 0;
      ghost var k := 0;
      while progress <= 100
        invariant 0 <= k <= |ProgressValues| && progress == 10 * k
        invariant files == Sweep(old(files), id, ProgressValues[..k])
        invariant history == old(history) + TickTrace(old(files), id, k, isUploading)
        invariant Valid()
        invariant toasts == old(toasts) && isUploading == old(isUploading)
      {
        SweepStep(old(files), id, ProgressValues, k);
        SweepKeepsInvariants(old(files), id, ProgressValues[..k + 1]);
        files := UpdateById(files, id, SetProgress(progress));
        TickTraceExtend(old(history), old(files), id, k, isUploading);
        history := history + [Snapshot(files, isUploading)];
        progress, k := progress + 10, k + 1;
      }
      assert ProgressValues[..k] == ProgressValues;
    }

    /** One pass of `uploadFiles`' loop: 'uploading', progress 0, 10, ..., 100, then
        'completed' or 'error' as the persistence call `ok` says, and its toast. Every
        record with the file's id is that file's pending record. */
    method UploadFile(file: TrackedFile, ok: bool)
      requires Valid()
      requires forall m :: 0 <= m < |files| && files[m].id == file.id ==> files[m].status == Pending
      modifies this
      ensures Valid()
      ensures files == UploadOne(old(files), file.id, ok)
      ensures toasts == old(toasts) + [FileToast(file, ok)]
      ensures isUploading == old(isUploading)
      ensures history == old(history) + UploadTrace(old(files), file.id, ok, isUploading)
    {
      var id := file.id;
      MarkKeepsInvariants(files, id);
      files := UpdateById(files, id, MarkUploading);
      history := history + [Snapshot(files, isUploading)];
      ghost var marked := files;
      TickProgress(id);
      ProgressValuesAreSteps();
      SweepKeepsInvariants(marked, id, ProgressValues);
      if ok {
        UpdateKeepsInvariants(files, id, MarkCompleted);
        files := UpdateById(files, id, MarkCompleted);
        toasts := toasts + [Toast(SuccessToast, Uploaded(file.name))];
      } else {
        UpdateKeepsInvariants(files, id, MarkFailed);
        files := UpdateById(files, id, MarkFailed);
        toasts := toasts + [Toast(ErrorToast, UploadFailed(file.name))];
      }
      UploadTraceSplit(old(history), old(files), id, ok, isUploading);
      history := history + [Snapshot(files, isUploading)];
    }

    /** The loop of `uploadFiles` over `batch`, the snapshot's pending records: each is
        uploaded in turn, `outcomes[k]` deciding whether the persistence call for the
        k-th succeeds. It runs with the flag raised. */
    method UploadBatch(batch: seq<TrackedFile>, outcomes: seq<bool>)
      requires Valid() && isUploading
      requires batch == Filter(files, IsPending) && |outcomes| == |batch|
      modifies this
      ensures Valid()
      ensures files == UploadPending(old(files), outcomes)
      ensures toasts == old(toasts) + FileToasts(batch, outcomes)
      ensures history == old(history) + BatchTrace(old(files), batch, outcomes)
      ensures isUploading
    {
      ghost var start, shown, raised := files, history, toasts;
      var i := 0;
      while i < |batch|
        invariant 0 <= i <= |batch|
        invariant isUploading
        invariant files == UploadAll(start, batch[..i], outcomes[..i])
        invariant toasts == raised + FileToasts(batch[..i], outcomes[..i])
        invariant history == shown + BatchTrace(start, batch[..i], outcomes[..i])
      {
        UploadPrefixKeepsInvariants(start, outcomes, i);
        NextInBatchIsPending(start, outcomes, i);
        UploadFile(batch[i], outcomes[i]);
        UploadAllStep(start, batch, outcomes, i);
        FileToastsExtend(raised, batch, outcomes, i);
        BatchTraceExtend(shown, start, batch, outcomes, i);
        i := i + 1;
      }
      assert batch[..i] == batch && outcomes[..i] == outcomes;
      UploadPrefixKeepsInvariants(start, outcomes, i);
    }

    /** `uploadFiles`. With nothing pending it only warns. Otherwise it raises
        `isUploading`, asks for a session with the snapshot's count and total size, and,
        if the session is created (`sessionCreated`), uploads the pending records of the
        snapshot one after another, `outcomes[k]` deciding whether the persistence call
        for the k-th succeeds, and then asks for the session to be completed with the
        batch's count; whether that succeeds (`sessionCompleted`) decides the last toast.
        `isUploading` is false on every way out of a started upload. */
    method UploadFiles(outcomes: seq<bool>, sessionCreated: bool, sessionCompleted: bool)
      returns (request: Option<SessionRequest>, completion: Option<CompletionRequest>)
      requires Valid()
      requires |outcomes| == |Filter(files, IsPending)|
      modifies this
      ensures Valid()
      ensures var batch := Filter(old(files), IsPending);
        if |batch| == 0 then
          && request == None && completion == None
          && files == old(files) && isUploading == old(isUploading)
          && toasts == old(toasts) + [Toast(WarningToast, NothingToUpload)]
          && history == old(history)
        else
          && request == Some(SessionRequest(|batch|, SumSizes(batch)))
          && !isUploading
          && if sessionCreated then
               && completion == Some(CompletionRequest(|batch|))
               && files == UploadPending(old(files), outcomes)
               && toasts == old(toasts) + FileToasts(batch, outcomes) + [SessionEndToast(sessionCompleted)]
               && history == old(history) + [Snapshot(old(files), true)]
                    + BatchTrace(old(files), batch, outcomes) + [Snapshot(files, false)]
             else
               && completion == None
               && files == old(files)
               && toasts == old(toasts) + [Toast(ErrorToast, SessionFailed)]
               && history == old(history) + [Snapshot(old(files), true), Snapshot(old(files), false)]
    {
      var batch := Filter(files, IsPending);
      if |batch| == 0 {
        toasts := toasts + [Toast(WarningToast, NothingToUpload)];
        request, completion := None, None;
        return;
      }
      isUploading := true;
      history := history + [Snapshot(files, isUploading)];
      request := Some(SessionRequest(|batch|, SumSizes(batch)));
      if !sessionCreated {
        completion := None;
        toasts := toasts + [Toast(ErrorToast, SessionFailed)];
        isUploading := false;
        history := history + [Snapshot(files, isUploading)];
        return;
      }
      UploadBatch(batch, outcomes);
      completion := Some(CompletionRequest(|batch|));
      toasts := toasts + [SessionEndToast(sessionCompleted)];
      isUploading := false;
      history := history + [Snapshot(files, isUploading)];
    }
  }
}
