/** The records the upload page tracks, the replace-by-id updates it applies to its
    list while uploading, and the statistics it derives from the list. Everything here
    is a value; the page itself (module UploadPage) holds the list and changes it. */
module TrackedFiles {

  import opened Wrappers
  import opened Text
  import opened FileRules
  import opened Lists

  datatype Status = Pending | Uploading | Completed | Error

  /** A file as the browser hands it over (`File`: name, size, type, lastModified). */
  datatype RawFile = RawFile(name: string, size: nat, mimeType: string, lastModified: int)

  /** One record of the page's `files` list. `error` is `None` where the page stores `null`;
      `preview` is the image data URL, or `None`. */
  datatype TrackedFile = TrackedFile(
    id: string,
    name: string,
    size: nat,
    mimeType: string,
    lastModified: int,
    uploadProgress: nat,
    status: Status,
    error: Option<string>,
    preview: Option<string>)

  const UploadFailedMessage: string := "Upload failed"

  predicate IsPending(f: TrackedFile) { f.status == Pending }
  predicate IsNotError(f: TrackedFile) { f.status != Error }
  predicate IsCompleted(f: TrackedFile) { f.status == Completed }
  predicate HasNoError(f: TrackedFile) { f.error.None? }

  // ---------------------------------------------------------------------------
  // Invariants of the list

  predicate IsProgressStep(p: int) {
    0 <= p <= 100 && p % 10 == 0
  }

  /** status is 'error' exactly when an error message is set; progress is one of
      0, 10, ..., 100; a completed record shows 100. */
  predicate WellFormed(f: TrackedFile) {
    && (f.status == Error <==> f.error.Some?)
    && IsProgressStep(f.uploadProgress)
    && (f.status == Completed ==> f.uploadProgress == 100)
  }

  predicate AllWellFormed(fs: seq<TrackedFile>) {
    forall i :: 0 <= i < |fs| ==> WellFormed(fs[i])
  }

  predicate UniqueIds(fs: seq<TrackedFile>) {
    forall i, j :: 0 <= i < j < |fs| ==> fs[i].id != fs[j].id
  }

  /** No record of `fs` carries `id`. */
  predicate Lacks(fs: seq<TrackedFile>, id: string) {
    forall i :: 0 <= i < |fs| ==> fs[i].id != id
  }

  /** A filtered list keeps the ids unique. */
  lemma {:induction false} FilterKeepsUniqueIds(fs: seq<TrackedFile>, keep: TrackedFile -> bool)
    requires UniqueIds(fs)
    ensures UniqueIds(Filter(fs, keep))
    decreases |fs|
  {
    if |fs| > 0 {
      var tail := Filter(fs[1..], keep);
      FilterKeepsUniqueIds(fs[1..], keep);
      FilterMembers(fs[1..], keep);
      forall j | 0 <= j < |tail| ensures tail[j].id != fs[0].id {
        assert tail[j] in fs[1..];
      }
    }
  }

  // ---------------------------------------------------------------------------
  // Intake (`processFiles`)

  /** `createFilePreview`: the data URL read from an image, `null` for anything else. */
  function CreateFilePreview(raw: RawFile, dataUrl: string): Option<string> {
    if StartsWith(raw.mimeType, "image/") then Some(dataUrl) else None
  }

  /** The record `processFiles` builds for one raw file, given its fresh id and the data
      URL the browser would read from it. */
  function NewRecord(raw: RawFile, id: string, dataUrl: string): TrackedFile {
    var error := ValidateFile(raw.mimeType, raw.size);
    TrackedFile(id, raw.name, raw.size, raw.mimeType, raw.lastModified, 0,
                if error.Some? then Error else Pending, error, CreateFilePreview(raw, dataUrl))
  }

  /** A new record copies the file's attributes, starts at progress 0, and is 'error'
      with the validation message or 'pending' without one; it is well formed. */
  lemma NewRecordShape(raw: RawFile, id: string, dataUrl: string)
    ensures var f := NewRecord(raw, id, dataUrl);
      && f.id == id && f.name == raw.name && f.size == raw.size
      && f.mimeType == raw.mimeType && f.lastModified == raw.lastModified
      && f.uploadProgress == 0
      && f.error == ValidateFile(raw.mimeType, raw.size)
      && (f.status == Error <==> ValidateFile(raw.mimeType, raw.size).Some?)
      && (f.status == Pending <==> ValidateFile(raw.mimeType, raw.size).None?)
      && (f.preview.Some? <==> StartsWith(raw.mimeType, "image/"))
      && WellFormed(f)
  {
  }

  function NewRecords(raws: seq<RawFile>, ids: seq<string>, dataUrls: seq<string>): (r: seq<TrackedFile>)
    requires |ids| == |raws| && |dataUrls| == |raws|
    ensures |r| == |raws|
    ensures forall i :: 0 <= i < |raws| ==> r[i] == NewRecord(raws[i], ids[i], dataUrls[i])
  {
    seq(|raws|, i requires 0 <= i < |raws| => NewRecord(raws[i], ids[i], dataUrls[i]))
  }

  /** The records of the first `i + 1` files are those of the first `i` and then the next one's. */
  lemma NewRecordsStep(raws: seq<RawFile>, ids: seq<string>, dataUrls: seq<string>, i: nat)
    requires |ids| == |raws| && |dataUrls| == |raws| && i < |raws|
    ensures NewRecords(raws[..i + 1], ids[..i + 1], dataUrls[..i + 1])
      == NewRecords(raws[..i], ids[..i], dataUrls[..i]) + [NewRecord(raws[i], ids[i], dataUrls[i])]
  {
  }

  predicate Passes(raw: RawFile) {
    ValidateFile(raw.mimeType, raw.size).None?
  }

  /** What `processFiles` returns: the new records without an error are exactly the
      records of the files that pass validation, all 'pending', in input order. */
  lemma {:induction false} AcceptedRecords(raws: seq<RawFile>, ids: seq<string>, dataUrls: seq<string>)
    requires |ids| == |raws| && |dataUrls| == |raws|
    ensures var accepted := Filter(NewRecords(raws, ids, dataUrls), HasNoError);
      && |accepted| == |Filter(raws, Passes)|
      && (forall i :: 0 <= i < |accepted| ==> accepted[i].status == Pending && accepted[i].uploadProgress == 0)
    decreases |raws|
  {
    var records := NewRecords(raws, ids, dataUrls);
    var accepted := Filter(records, HasNoError);
    if |raws| > 0 {
      AcceptedRecords(raws[1..], ids[1..], dataUrls[1..]);
      assert NewRecords(raws[1..], ids[1..], dataUrls[1..]) == records[1..];
      NewRecordShape(raws[0], ids[0], dataUrls[0]);
    }
  }

  /** Appending the new records of fresh, distinct ids keeps the list's invariants and
      leaves the earlier records where they were. */
  lemma IntakeKeepsInvariants(fs: seq<TrackedFile>, raws: seq<RawFile>, ids: seq<string>, dataUrls: seq<string>)
    requires AllWellFormed(fs) && UniqueIds(fs)
    requires |ids| == |raws| && |dataUrls| == |raws|
    requires forall i, j :: 0 <= i < j < |ids| ==> ids[i] != ids[j]
    requires forall j :: 0 <= j < |ids| ==> Lacks(fs, ids[j])
    ensures var r := fs + NewRecords(raws, ids, dataUrls);
      && |r| == |fs| + |raws| && r[..|fs|] == fs
      && AllWellFormed(r) && UniqueIds(r)
  {
    var added := NewRecords(raws, ids, dataUrls);
    var r := fs + added;
    forall j | 0 <= j < |added| ensures WellFormed(added[j]) && added[j].id == ids[j] {
      NewRecordShape(raws[j], ids[j], dataUrls[j]);
    }
    forall i, j | 0 <= i < j < |r| ensures r[i].id != r[j].id {
      if j >= |fs| && i < |fs| {
        assert r[j].id == ids[j - |fs|];
      }
    }
  }

  // ---------------------------------------------------------------------------
  // Replace-by-id updates (`prev.map(f => f.id === id ? { ...f, ... } : f)`)

  /** The four record updates `uploadFiles` makes. */
  datatype Update = MarkUploading | SetProgress(progress: nat) | MarkCompleted | MarkFailed

  function Apply(f: TrackedFile, u: Update): TrackedFile {
    match u
    case MarkUploading => f.(status := Uploading)
    case SetProgress(p) => f.(uploadProgress := p)
    case MarkCompleted => f.(status := Completed, uploadProgress := 100)
    case MarkFailed => f.(status := Error, error := Some(UploadFailedMessage), uploadProgress := 0)
  }

  function UpdateById(fs: seq<TrackedFile>, id: string, u: Update): seq<TrackedFile>
    decreases |fs|
  {
    if |fs| == 0 then []
    else [if fs[0].id == id then Apply(fs[0], u) else fs[0]] + UpdateById(fs[1..], id, u)
  }

  /** A by-id update keeps the length and changes only the records with that id. */
  lemma {:induction false} UpdateByIdAt(fs: seq<TrackedFile>, id: string, u: Update)
    ensures |UpdateById(fs, id, u)| == |fs|
    ensures forall i :: 0 <= i < |fs| ==>
      UpdateById(fs, id, u)[i] == if fs[i].id == id then Apply(fs[i], u) else fs[i]
    decreases |fs|
  {
    if |fs| > 0 {
      UpdateByIdAt(fs[1..], id, u);
    }
  }

  /** An id that is not in the list (a record removed meanwhile) leaves the list as it is. */
  lemma UpdateAbsentId(fs: seq<TrackedFile>, id: string, u: Update)
    requires Lacks(fs, id)
    ensures UpdateById(fs, id, u) == fs
  {
    UpdateByIdAt(fs, id, u);
  }

  /** The updates a well-formed record can take and stay well formed: 'uploading' and
      'completed' not over an error (both keep its message), a progress step not over a
      completed record. */
  predicate Allows(f: TrackedFile, u: Update) {
    match u
    case MarkUploading => f.status != Error
    case SetProgress(p) => IsProgressStep(p) && f.status != Completed
    case MarkCompleted => f.status != Error
    case MarkFailed => true
  }

  lemma ApplyKeepsWellFormed(f: TrackedFile, u: Update)
    requires WellFormed(f) && Allows(f, u)
    ensures WellFormed(Apply(f, u)) && Apply(f, u).id == f.id
  {
  }

  /** A by-id update that every matching record allows keeps the list's invariants and ids. */
  lemma UpdateKeepsInvariants(fs: seq<TrackedFile>, id: string, u: Update)
    requires AllWellFormed(fs) && UniqueIds(fs)
    requires forall i :: 0 <= i < |fs| && fs[i].id == id ==> Allows(fs[i], u)
    ensures |UpdateById(fs, id, u)| == |fs|
    ensures forall i :: 0 <= i < |fs| ==> UpdateById(fs, id, u)[i].id == fs[i].id
    ensures AllWellFormed(UpdateById(fs, id, u)) && UniqueIds(UpdateById(fs, id, u))
  {
    UpdateByIdAt(fs, id, u);
    forall i | 0 <= i < |fs| && fs[i].id == id ensures WellFormed(Apply(fs[i], u)) {
      ApplyKeepsWellFormed(fs[i], u);
    }
  }

  // ---------------------------------------------------------------------------
  // The upload of one file and of a batch, as the list changes

  /** The values `for (let progress = 0; progress <= 100; progress += 10)` runs through. */
  const ProgressValues: seq<nat> := [0, 10, 20, 30, 40, 50, 60, 70, 80, 90, 100]

  /** The ticks are 0, 10, ..., 100: every one a progress step, ending at 100. */
  lemma ProgressValuesAreSteps()
    ensures |ProgressValues| == 11
    ensures forall k :: 0 <= k < |ProgressValues| ==> ProgressValues[k] == 10 * k
    ensures forall k :: 0 <= k < |ProgressValues| ==> IsProgressStep(ProgressValues[k])
  {
  }

  /** The list after setting the progress of the record with `id` to each of `ticks` in turn. */
  function Sweep(fs: seq<TrackedFile>, id: string, ticks: seq<nat>): seq<TrackedFile>
    decreases |ticks|
  {
    if |ticks| == 0 then fs
    else UpdateById(Sweep(fs, id, ticks[..|ticks| - 1]), id, SetProgress(ticks[|ticks| - 1]))
  }

  /** After the ticks the record with `id` shows the last one; the rest are untouched. */
  lemma {:induction false} SweepAt(fs: seq<TrackedFile>, id: string, ticks: seq<nat>)
    ensures |Sweep(fs, id, ticks)| == |fs|
    ensures forall i :: 0 <= i < |fs| ==>
      Sweep(fs, id, ticks)[i] ==
        if fs[i].id == id && |ticks| > 0 then fs[i].(uploadProgress := ticks[|ticks| - 1]) else fs[i]
    decreases |ticks|
  {
    if |ticks| > 0 {
      var n := |ticks| - 1;
      SweepAt(fs, id, ticks[..n]);
      UpdateByIdAt(Sweep(fs, id, ticks[..n]), id, SetProgress(ticks[n]));
    }
  }

  /** Sweeping one more tick is one more progress update. */
  lemma SweepStep(fs: seq<TrackedFile>, id: string, ticks: seq<nat>, k: nat)
    requires k < |ticks|
    ensures Sweep(fs, id, ticks[..k + 1]) == UpdateById(Sweep(fs, id, ticks[..k]), id, SetProgress(ticks[k]))
  {
    assert ticks[..k + 1][..k] == ticks[..k];
  }

  /** Marking the pending records with `id` 'uploading' keeps the list's invariants, and
      afterwards every record with `id` is 'uploading'. */
  lemma MarkKeepsInvariants(fs: seq<TrackedFile>, id: string)
    requires AllWellFormed(fs) && UniqueIds(fs)
    requires forall m :: 0 <= m < |fs| && fs[m].id == id ==> fs[m].status == Pending
    ensures var r := UpdateById(fs, id, MarkUploading);
      && |r| == |fs|
      && AllWellFormed(r) && UniqueIds(r)
      && forall m :: 0 <= m < |r| && r[m].id == id ==> r[m].status == Uploading
  {
    UpdateKeepsInvariants(fs, id, MarkUploading);
    UpdateByIdAt(fs, id, MarkUploading);
  }

  /** Progress ticks on a record that is uploading keep the list's invariants, and the
      record stays 'uploading'. */
  lemma SweepKeepsInvariants(fs: seq<TrackedFile>, id: string, ticks: seq<nat>)
    requires AllWellFormed(fs) && UniqueIds(fs)
    requires forall m :: 0 <= m < |fs| && fs[m].id == id ==> fs[m].status == Uploading
    requires forall k :: 0 <= k < |ticks| ==> IsProgressStep(ticks[k])
    ensures var r := Sweep(fs, id, ticks);
      && |r| == |fs|
      && AllWellFormed(r) && UniqueIds(r)
      && forall m :: 0 <= m < |r| && r[m].id == id ==> r[m].status == Uploading
  {
    SweepAt(fs, id, ticks);
  }

  /** The body of the loop over the batch: 'uploading', eleven ticks, then 'completed'
      if the persistence call succeeds and 'error' if it throws. */
  function UploadOne(fs: seq<TrackedFile>, id: string, ok: bool): seq<TrackedFile> {
    var ticked := Sweep(UpdateById(fs, id, MarkUploading), id, ProgressValues);
    UpdateById(ticked, id, if ok then MarkCompleted else MarkFailed)
  }

  /** Where one upload leaves a record: 'completed' at 100, or 'error' with
      'Upload failed' at 0; name, size, type, id and preview are kept. */
  function Finish(f: TrackedFile, ok: bool): TrackedFile {
    if ok then f.(status := Completed, uploadProgress := 100)
    else f.(status := Error, error := Some(UploadFailedMessage), uploadProgress := 0)
  }

  /** One upload finishes the records with that id and touches nothing else. */
  lemma UploadOneAt(fs: seq<TrackedFile>, id: string, ok: bool)
    ensures |UploadOne(fs, id, ok)| == |fs|
    ensures forall i :: 0 <= i < |fs| ==>
      UploadOne(fs, id, ok)[i] == if fs[i].id == id then Finish(fs[i], ok) else fs[i]
  {
    var marked := UpdateById(fs, id, MarkUploading);
    UpdateByIdAt(fs, id, MarkUploading);
    var ticked := Sweep(marked, id, ProgressValues);
    SweepAt(marked, id, ProgressValues);
    UpdateByIdAt(ticked, id, if ok then MarkCompleted else MarkFailed);
  }

  /** The list after the loop over `batch`, file by file in batch order. */
  function UploadAll(fs: seq<TrackedFile>, batch: seq<TrackedFile>, outcomes: seq<bool>): seq<TrackedFile>
    requires |outcomes| == |batch|
    decreases |batch|
  {
    if |batch| == 0 then fs
    else
      var n := |batch| - 1;
      UploadOne(UploadAll(fs, batch[..n], outcomes[..n]), batch[n].id, outcomes[n])
  }

  /** Uploading the first `i + 1` files is uploading the first `i` and then the next one. */
  lemma UploadAllStep(fs: seq<TrackedFile>, batch: seq<TrackedFile>, outcomes: seq<bool>, i: nat)
    requires |outcomes| == |batch| && i < |batch|
    ensures UploadAll(fs, batch[..i + 1], outcomes[..i + 1])
      == UploadOne(UploadAll(fs, batch[..i], outcomes[..i]), batch[i].id, outcomes[i])
  {
    assert batch[..i + 1][..i] == batch[..i];
    assert outcomes[..i + 1][..i] == outcomes[..i];
  }

  /** The batch upload keeps the length, and a record whose id is not in the batch is untouched. */
  lemma {:induction false} UploadAllUntouched(fs: seq<TrackedFile>, batch: seq<TrackedFile>, outcomes: seq<bool>, i: nat)
    requires |outcomes| == |batch| && i < |fs| && Lacks(batch, fs[i].id)
    ensures |UploadAll(fs, batch, outcomes)| == |fs|
    ensures UploadAll(fs, batch, outcomes)[i] == fs[i]
    decreases |batch|
  {
    if |batch| > 0 {
      var n := |batch| - 1;
      assert Lacks(batch[..n], fs[i].id) by {
        forall j | 0 <= j < n ensures batch[..n][j].id != fs[i].id {
          assert batch[..n][j] == batch[j];
        }
      }
      UploadAllUntouched(fs, batch[..n], outcomes[..n], i);
      var mid := UploadAll(fs, batch[..n], outcomes[..n]);
      UploadOneAt(mid, batch[n].id, outcomes[n]);
      assert mid[i].id != batch[n].id;
      assert UploadAll(fs, batch, outcomes) == UploadOne(mid, batch[n].id, outcomes[n]);
    }
  }

  /** With unique ids in the batch, the record matching its k-th file ends as that
      file's outcome says. */
  lemma {:induction false} UploadAllFinishes(fs: seq<TrackedFile>, batch: seq<TrackedFile>, outcomes: seq<bool>, k: nat, i: nat)
    requires |outcomes| == |batch| && UniqueIds(batch)
    requires k < |batch| && i < |fs| && fs[i].id == batch[k].id
    ensures |UploadAll(fs, batch, outcomes)| == |fs|
    ensures UploadAll(fs, batch, outcomes)[i] == Finish(fs[i], outcomes[k])
    decreases |batch|
  {
    var n := |batch| - 1;
    if k == n {
      UploadAllUntouched(fs, batch[..n], outcomes[..n], i);
    } else {
      UploadAllFinishes(fs, batch[..n], outcomes[..n], k, i);
    }
    var mid := UploadAll(fs, batch[..n], outcomes[..n]);
    UploadOneAt(mid, batch[n].id, outcomes[n]);
  }

  /** The list after `uploadFiles`' loop, given the outcome of each persistence call for
      the pending records taken at invocation. */
  function UploadPending(fs: seq<TrackedFile>, outcomes: seq<bool>): seq<TrackedFile>
    requires |outcomes| == |Filter(fs, IsPending)|
  {
    UploadAll(fs, Filter(fs, IsPending), outcomes)
  }

  /** Only the records pending at invocation are uploaded: any other record is
      untouched, and each pending record ends as the outcome at its place in the
      snapshot says. */
  lemma UploadPendingEffect(fs: seq<TrackedFile>, outcomes: seq<bool>)
    requires UniqueIds(fs) && |outcomes| == |Filter(fs, IsPending)|
    ensures |UploadPending(fs, outcomes)| == |fs|
    ensures forall i :: 0 <= i < |fs| && fs[i].status != Pending ==> UploadPending(fs, outcomes)[i] == fs[i]
    ensures forall i :: 0 <= i < |fs| && fs[i].status == Pending ==>
      exists k :: 0 <= k < |outcomes| && Filter(fs, IsPending)[k] == fs[i] &&
        UploadPending(fs, outcomes)[i] == Finish(fs[i], outcomes[k])
  {
    UploadPendingSkips(fs, outcomes);
    UploadPendingFinishes(fs, outcomes);
  }

  /** A record not pending at invocation is left as it was. */
  lemma UploadPendingSkips(fs: seq<TrackedFile>, outcomes: seq<bool>)
    requires UniqueIds(fs) && |outcomes| == |Filter(fs, IsPending)|
    ensures |UploadPending(fs, outcomes)| == |fs|
    ensures forall i :: 0 <= i < |fs| && fs[i].status != Pending ==> UploadPending(fs, outcomes)[i] == fs[i]
  {
    var batch := Filter(fs, IsPending);
    UploadAllLength(fs, batch, outcomes);
    FilterMembers(fs, IsPending);
    forall i | 0 <= i < |fs| && fs[i].status != Pending ensures UploadPending(fs, outcomes)[i] == fs[i] {
      forall k | 0 <= k < |batch| ensures batch[k].id != fs[i].id {
        assert batch[k] in fs;
      }
      UploadAllUntouched(fs, batch, outcomes, i);
    }
  }

  /** A record pending at invocation ends as its outcome in the batch says. */
  lemma UploadPendingFinishes(fs: seq<TrackedFile>, outcomes: seq<bool>)
    requires UniqueIds(fs) && |outcomes| == |Filter(fs, IsPending)|
    ensures |UploadPending(fs, outcomes)| == |fs|
    ensures forall i :: 0 <= i < |fs| && fs[i].status == Pending ==>
      exists k :: 0 <= k < |outcomes| && Filter(fs, IsPending)[k] == fs[i] &&
        UploadPending(fs, outcomes)[i] == Finish(fs[i], outcomes[k])
  {
    var batch := Filter(fs, IsPending);
    UploadAllLength(fs, batch, outcomes);
    FilterKeepsUniqueIds(fs, IsPending);
    FilterMembers(fs, IsPending);
    forall i | 0 <= i < |fs| && fs[i].status == Pending
      ensures exists k :: 0 <= k < |outcomes| && batch[k] == fs[i] && UploadPending(fs, outcomes)[i] == Finish(fs[i], outcomes[k])
    {
      assert fs[i] in batch;
      var k :| 0 <= k < |batch| && batch[k] == fs[i];
      UploadAllFinishes(fs, batch, outcomes, k, i);
    }
  }

  lemma {:induction false} UploadAllLength(fs: seq<TrackedFile>, batch: seq<TrackedFile>, outcomes: seq<bool>)
    requires |outcomes| == |batch|
    ensures |UploadAll(fs, batch, outcomes)| == |fs|
    decreases |batch|
  {
    if |batch| > 0 {
      var n := |batch| - 1;
      UploadAllLength(fs, batch[..n], outcomes[..n]);
      UploadOneAt(UploadAll(fs, batch[..n], outcomes[..n]), batch[n].id, outcomes[n]);
    }
  }

  /** The batch upload keeps every record's id. */
  lemma {:induction false} UploadAllKeepsIds(fs: seq<TrackedFile>, batch: seq<TrackedFile>, outcomes: seq<bool>)
    requires |outcomes| == |batch|
    ensures |UploadAll(fs, batch, outcomes)| == |fs|
    ensures forall m :: 0 <= m < |fs| ==> UploadAll(fs, batch, outcomes)[m].id == fs[m].id
    decreases |batch|
  {
    if |batch| > 0 {
      var n := |batch| - 1;
      UploadAllKeepsIds(fs, batch[..n], outcomes[..n]);
      UploadOneAt(UploadAll(fs, batch[..n], outcomes[..n]), batch[n].id, outcomes[n]);
    }
  }

  /** When the loop reaches the `i`-th file of the snapshot, every record carrying its id
      is still that file's 'pending' record. */
  lemma NextInBatchIsPending(fs: seq<TrackedFile>, outcomes: seq<bool>, i: nat)
    requires UniqueIds(fs) && |outcomes| == |Filter(fs, IsPending)| && i < |outcomes|
    ensures var batch := Filter(fs, IsPending);
      var now := UploadAll(fs, batch[..i], outcomes[..i]);
      && |now| == |fs|
      && forall m :: 0 <= m < |now| && now[m].id == batch[i].id ==> now[m].status == Pending
  {
    var batch := Filter(fs, IsPending);
    var now := UploadAll(fs, batch[..i], outcomes[..i]);
    FilterKeepsUniqueIds(fs, IsPending);
    FilterMembers(fs, IsPending);
    UploadAllKeepsIds(fs, batch[..i], outcomes[..i]);
    forall m | 0 <= m < |now| && now[m].id == batch[i].id ensures now[m].status == Pending {
      var front := batch[..i];
      forall j | 0 <= j < |front| ensures front[j].id != fs[m].id {
        assert front[j] == batch[j];
      }
      UploadAllUntouched(fs, front, outcomes[..i], m);
      assert batch[i] in fs;
      var m' :| 0 <= m' < |fs| && fs[m'] == batch[i];
      assert m' == m;
    }
  }

  /** The upload keeps the list's ids and its invariants. */
  lemma UploadPendingKeepsInvariants(fs: seq<TrackedFile>, outcomes: seq<bool>)
    requires AllWellFormed(fs) && UniqueIds(fs) && |outcomes| == |Filter(fs, IsPending)|
    ensures |UploadPending(fs, outcomes)| == |fs|
    ensures forall i :: 0 <= i < |fs| ==> UploadPending(fs, outcomes)[i].id == fs[i].id
    ensures UniqueIds(UploadPending(fs, outcomes))
    ensures AllWellFormed(UploadPending(fs, outcomes))
  {
    var r := UploadPending(fs, outcomes);
    UploadPendingEffect(fs, outcomes);
    forall i | 0 <= i < |fs| ensures r[i].id == fs[i].id && WellFormed(r[i]) {
      if fs[i].status == Pending {
        var k :| 0 <= k < |outcomes| && Filter(fs, IsPending)[k] == fs[i] && r[i] == Finish(fs[i], outcomes[k]);
      }
    }
  }

  /** Part-way through the loop, after the first `i` files of the snapshot, the list keeps
      its length, its ids and its invariants. */
  lemma UploadPrefixKeepsInvariants(fs: seq<TrackedFile>, outcomes: seq<bool>, i: nat)
    requires AllWellFormed(fs) && UniqueIds(fs)
    requires |outcomes| == |Filter(fs, IsPending)| && i <= |outcomes|
    ensures var now := UploadAll(fs, Filter(fs, IsPending)[..i], outcomes[..i]);
      && |now| == |fs|
      && (forall m :: 0 <= m < |fs| ==> now[m].id == fs[m].id)
      && AllWellFormed(now) && UniqueIds(now)
  {
    var batch := Filter(fs, IsPending);
    var front := batch[..i];
    var now := UploadAll(fs, front, outcomes[..i]);
    FilterKeepsUniqueIds(fs, IsPending);
    FilterMembers(fs, IsPending);
    UploadAllKeepsIds(fs, front, outcomes[..i]);
    assert UniqueIds(front) by {
      forall a, b | 0 <= a < b < |front| ensures front[a].id != front[b].id {
        assert front[a] == batch[a] && front[b] == batch[b];
      }
    }
    forall m | 0 <= m < |fs| ensures WellFormed(now[m]) {
      if Lacks(front, fs[m].id) {
        UploadAllUntouched(fs, front, outcomes[..i], m);
      } else {
        var k :| 0 <= k < |front| && front[k].id == fs[m].id;
        UploadAllFinishes(fs, front, outcomes[..i], k, m);
        assert front[k] == batch[k] && batch[k] in fs;
        var m' :| 0 <= m' < |fs| && fs[m'] == batch[k];
        assert m' == m;
      }
    }
  }

  // ---------------------------------------------------------------------------
  // Removal (`prev.filter(f => f.id !== fileId)`)

  function Without(fs: seq<TrackedFile>, id: string): seq<TrackedFile>
    decreases |fs|
  {
    if |fs| == 0 then []
    else (if fs[0].id == id then [] else [fs[0]]) + Without(fs[1..], id)
  }

  /** Removal drops every record with the id and keeps every other one. */
  lemma {:induction false} WithoutMembers(fs: seq<TrackedFile>, id: string)
    ensures forall f :: f in Without(fs, id) <==> f in fs && f.id != id
    ensures |Without(fs, id)| <= |fs|
    decreases |fs|
  {
    if |fs| > 0 {
      WithoutMembers(fs[1..], id);
    }
  }

  /** Removal works piecewise, so the records it keeps stay in their relative order. */
  lemma {:induction false} WithoutAppend(a: seq<TrackedFile>, b: seq<TrackedFile>, id: string)
    ensures Without(a + b, id) == Without(a, id) + Without(b, id)
    decreases |a|
  {
    if |a| == 0 {
      assert a + b == b;
    } else {
      assert (a + b)[1..] == a[1..] + b;
      WithoutAppend(a[1..], b, id);
    }
  }

  /** Removal keeps the list's invariants. */
  lemma {:induction false} WithoutKeepsInvariants(fs: seq<TrackedFile>, id: string)
    requires AllWellFormed(fs) && UniqueIds(fs)
    ensures AllWellFormed(Without(fs, id)) && UniqueIds(Without(fs, id))
    decreases |fs|
  {
    if |fs| > 0 {
      var tail := Without(fs[1..], id);
      WithoutKeepsInvariants(fs[1..], id);
      WithoutMembers(fs[1..], id);
      forall j | 0 <= j < |tail| ensures tail[j].id != fs[0].id {
        assert tail[j] in fs[1..];
      }
    }
  }

  /** Removing an id that is not there changes nothing. */
  lemma {:induction false} WithoutAbsent(fs: seq<TrackedFile>, id: string)
    requires Lacks(fs, id)
    ensures Without(fs, id) == fs
    decreases |fs|
  {
    if |fs| > 0 {
      WithoutAbsent(fs[1..], id);
    }
  }

  /** Removal leaves no record with the id behind. */
  lemma RemovedIdIsGone(fs: seq<TrackedFile>, id: string)
    ensures Lacks(Without(fs, id), id)
  {
    WithoutMembers(fs, id);
    var r := Without(fs, id);
    forall i | 0 <= i < |r| ensures r[i].id != id {
      assert r[i] in r;
    }
  }

  /** With unique ids, the id of the record at `k` occurs neither before nor after it. */
  lemma UniqueIdsAround(fs: seq<TrackedFile>, k: nat)
    requires UniqueIds(fs) && k < |fs|
    ensures Lacks(fs[..k], fs[k].id) && Lacks(fs[k + 1..], fs[k].id)
  {
    forall j | 0 <= j < k ensures fs[..k][j].id != fs[k].id {
      assert fs[..k][j] == fs[j];
    }
    var after := fs[k + 1..];
    forall j | 0 <= j < |after| ensures after[j].id != fs[k].id {
      assert after[j] == fs[k + 1 + j];
    }
  }

  /** Removing an id held by the record at `k` alone cuts out exactly that record. */
  lemma {:induction false} WithoutOnlyAt(fs: seq<TrackedFile>, k: nat)
    requires k < |fs| && Lacks(fs[..k], fs[k].id) && Lacks(fs[k + 1..], fs[k].id)
    ensures Without(fs, fs[k].id) == fs[..k] + fs[k + 1..]
    decreases k
  {
    var id := fs[k].id;
    if k == 0 {
      WithoutAbsent(fs[1..], id);
    } else {
      var tail := fs[1..];
      assert tail[k - 1] == fs[k];
      var front := tail[..k - 1];
      assert Lacks(front, id) by {
        forall j | 0 <= j < |front| ensures front[j].id != id {
          assert front[j] == fs[..k][j + 1];
        }
      }
      assert tail[k..] == fs[k + 1..];
      WithoutOnlyAt(tail, k - 1);
      assert fs[0].id != id by { assert fs[..k][0] == fs[0]; }
      assert fs[..k] == [fs[0]] + front;
    }
  }

  /** With unique ids, removing the id of the record at `k` cuts out exactly that record. */
  lemma RemoveUniqueIsSplice(fs: seq<TrackedFile>, k: nat)
    requires UniqueIds(fs) && k < |fs|
    ensures Without(fs, fs[k].id) == fs[..k] + fs[k + 1..]
  {
    UniqueIdsAround(fs, k);
    WithoutOnlyAt(fs, k);
  }

  // ---------------------------------------------------------------------------
  // Derived statistics (`validFiles`, `totalSize`, `completedFiles`, `uploadProgress`)

  function SumSizes(fs: seq<TrackedFile>): nat
    decreases |fs|
  {
    if |fs| == 0 then 0 else fs[0].size + SumSizes(fs[1..])
  }

  /** The records shown as valid: every record whose status is not 'error'. */
  function NonErrorFiles(fs: seq<TrackedFile>): seq<TrackedFile> {
    Filter(fs, IsNotError)
  }

  function TotalSize(fs: seq<TrackedFile>): nat {
    SumSizes(NonErrorFiles(fs))
  }

  function CompletedCount(fs: seq<TrackedFile>): nat {
    |Filter(fs, IsCompleted)|
  }

  /** `(completed / valid) * 100`, or 0 for no valid record; exact, where the page uses
      floating point. */
  function UploadPercent(fs: seq<TrackedFile>): real {
    var valid := |NonErrorFiles(fs)|;
    if valid > 0 then (CompletedCount(fs) as real / valid as real) * 100.0 else 0.0
  }

  /** Every completed record is a non-error record. */
  lemma {:induction false} CompletedWithinNonError(fs: seq<TrackedFile>)
    ensures CompletedCount(fs) <= |NonErrorFiles(fs)|
    decreases |fs|
  {
    if |fs| > 0 {
      CompletedWithinNonError(fs[1..]);
    }
  }

  /** `(c / v) * 100` for `0 <= c <= v`, `v > 0`: it lies in [0, 100] and times `v` gives `c * 100`. */
  lemma PercentOfPart(c: real, v: real)
    requires 0.0 <= c <= v && v > 0.0
    ensures (c / v) * 100.0 * v == c * 100.0
    ensures 0.0 <= (c / v) * 100.0 <= 100.0
  {
    var q := c / v;
    assert q * v == c;
  }

  /** The percentage is 0 with nothing to show, otherwise satisfies
      percent · valid = completed · 100, and lies in [0, 100]. */
  lemma UploadPercentBounds(fs: seq<TrackedFile>)
    ensures |NonErrorFiles(fs)| == 0 ==> UploadPercent(fs) == 0.0
    ensures UploadPercent(fs) * (|NonErrorFiles(fs)| as real) == (CompletedCount(fs) * 100) as real
    ensures 0.0 <= UploadPercent(fs) <= 100.0
  {
    CompletedWithinNonError(fs);
    var valid := |NonErrorFiles(fs)|;
    if valid > 0 {
      PercentOfPart(CompletedCount(fs) as real, valid as real);
    }
  }

  /** A list whose valid records are all completed shows 100. */
  lemma AllCompletedIsComplete(fs: seq<TrackedFile>)
    requires |NonErrorFiles(fs)| > 0
    requires forall i :: 0 <= i < |fs| ==> fs[i].status == Completed || fs[i].status == Error
    ensures UploadPercent(fs) == 100.0
  {
    CompletedEqualsNonError(fs);
    var v := |NonErrorFiles(fs)| as real;
    assert v / v == 1.0;
  }

  lemma {:induction false} CompletedEqualsNonError(fs: seq<TrackedFile>)
    requires forall i :: 0 <= i < |fs| ==> fs[i].status == Completed || fs[i].status == Error
    ensures CompletedCount(fs) == |NonErrorFiles(fs)|
    decreases |fs|
  {
    if |fs| > 0 {
      CompletedEqualsNonError(fs[1..]);
    }
  }

  /** The total size adds up the non-error records and nothing else. */
  lemma {:induction false} TotalSizeAppend(a: seq<TrackedFile>, b: seq<TrackedFile>)
    ensures TotalSize(a + b) == TotalSize(a) + TotalSize(b)
  {
    FilterAppend(a, b, IsNotError);
    SumSizesAppend(NonErrorFiles(a), NonErrorFiles(b));
  }

  lemma {:induction false} SumSizesAppend(a: seq<TrackedFile>, b: seq<TrackedFile>)
    ensures SumSizes(a + b) == SumSizes(a) + SumSizes(b)
    decreases |a|
  {
    if |a| == 0 {
      assert a + b == b;
    } else {
      assert (a + b)[1..] == a[1..] + b;
      SumSizesAppend(a[1..], b);
    }
  }
}
