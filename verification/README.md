# Upload page model

A Dafny model of the file-upload page of `dropzone-sensor-neural` and the two
in-memory services behind it.

The page keeps three pieces of state:

- a list of tracked file records;
- an `isUploading` flag;
- the toasts it has raised.

Its operations:

- `processFiles` validates each dropped file and appends one record per file.
- `uploadFiles` uploads every pending record in turn. Each record goes to
  'uploading', then through progress 0, 10, …, 100, then ends 'completed' or
  'error'.
- `removeFile` and `clearAll` remove records.
- The statistics (valid files, total size, percent complete) and the upload
  button's eligibility are derived from the list.

The two services:

- The file service keeps a list of stored copies: `uploadFile` appends,
  `getById` finds, `delete` splices, `clearAll` empties.
- The upload-session service keeps a list of sessions that are created active,
  merged with patches, and completed.

The drop zone turns the accepted MIME types into its "Supported formats" line.

Both page components hold the same logic, so it is modelled once:

- `Home` in src/pages/Home.jsx;
- `HomePage` in src/components/pages/HomePage.jsx.

They differ in two ways:

- the upload button's condition, which is the finding below;
- the wording of the nothing-to-upload warning, which is left out.

Modules, one per file:

| file | module | models |
|---|---|---|
| `wrappers.dfy` | `Wrappers` | `Option` for `null`, `Result` for a thrown `Error` |
| `text.dfy` | `Text` | `startsWith`, `includes`, `indexOf`, `split('/')[1]`, `toUpperCase`, `join`, and a reader for joined lists |
| `lists.dfy` | `Lists` | `filter`, `findIndex`/`find` by key, and `splice` of the first match, shared by the page and both services |
| `file_rules.dfy` | `FileRules` | the accepted types, the 50 MiB limit, both `validateFile`s, and `getFileIcon` |
| `tracked_files.dfy` | `TrackedFiles` | the record, the list invariants, intake, replace-by-id updates, the upload of one file and of a batch as list values, removal, and the statistics |
| `upload_page.dfy` | `UploadPage` | the page as a class `Page` whose methods update `files`, `isUploading` and `toasts` in place, with the loops of `processFiles` and `uploadFiles`; a ghost `history` records every state of the list and the flag the page shows |
| `file_service.dfy` | `FileStore` | class `FileService` over `seq<StoredFile>` |
| `upload_session_service.dfy` | `SessionStore` | class `UploadSessionService` over `seq<Session>`, with patches as records of optional fields |
| `drop_zone.dfy` | `DropZone` | `getAcceptedTypesDisplay` |

Inputs the program reads from the browser or the clock are parameters:

- the fresh ids of new records and sessions;
- the data URLs the `FileReader` would produce;
- `Date.now()` readings;
- whether each persistence call and each session call succeeds.

## Model

| member | source | states |
|---|---|---|
| FileRules.ValidateAcceptsIff | src/pages/Home.jsx:42-50 | a file is accepted exactly when its type is one of the eleven listed types and its size is at most 50 MiB |
| FileRules.ValidateMessages | src/pages/Home.jsx:42-50 | an unlisted type gets the unsupported-type message whatever the size, so the type check wins; a listed type over the limit gets the size message |
| FileRules.ValidateMessageNonEmpty | src/pages/Home.jsx:77 | every validation message is non-empty, so the truthiness test on the error sees every failure |
| FileRules.LimitIsInclusive | src/pages/Home.jsx:46 | 52428800 bytes pass and 52428801 fail |
| FileRules.ServiceAgreesWithPage | src/services/api/fileService.js:50-75 | the service's `valid` holds exactly when the page reports no error, and its `error` is the page's message |
| FileRules.ServiceCopiesAgree | src/services/api/fileService.js:53-58 | the service's own list of eleven types equals the page's list, in the same order, and its own 50 MB ceiling equals the page's |
| FileRules.DocxSpelledOut | src/services/api/fileService.js:56 | the service's spelling of the Word Open XML type equals the page's `DocxType` |
| FileRules.XlsxSpelledOut | src/services/api/fileService.js:57 | the service's spelling of the Excel Open XML type equals the page's `XlsxType` |
| FileRules.FileIconFirstMatch | src/components/pages/HomePage.jsx:33-40 | rules apply in order: 'Image' exactly for an `image/` prefix; 'FileSpreadsheet' exactly when no earlier rule matched and the type has 'excel' or 'spreadsheet'; 'File' exactly when no rule matched |
| FileRules.AcceptedTypeIcons | src/pages/Home.jsx:18-40 | the four image types get 'Image', PDF, text, CSV and the two Word types get 'FileText', the two Excel types get 'FileSpreadsheet' |
| Lists.FilterMembers | src/pages/Home.jsx:131 | a filter keeps exactly the elements that satisfy the predicate |
| Lists.FilterAppend | src/pages/Home.jsx:91 | filtering works piecewise, so it keeps the input order |
| Lists.MapAll | src/components/organisms/FileDropZone.jsx:29 | `map` with a callback that may throw: when it succeeds there is one result per input |
| Lists.MapAllPointwise | src/components/organisms/FileDropZone.jsx:29 | the map succeeds exactly when every call does, and its i-th result is the call's result on the i-th input |
| Lists.FirstIndex | src/services/api/fileService.js:42 | `findIndex`: -1 exactly when no element has the key, otherwise the first position holding it |
| Lists.Find | src/services/api/fileService.js:36-37 | `find`: `None` exactly when no element has the key, otherwise the element at the first position holding the key, no earlier element having it |
| Lists.FirstIndexAppend | src/services/api/fileService.js:25-36 | a search of `a + b` finds the match in `a` if there is one, else the one in `b` shifted by the length of `a` |
| Lists.DeleteFirst | src/services/api/fileService.js:40-48 | `delete` returns what `getById` would return; with no match it returns `None` and the list is unchanged; otherwise the element cut is the one at the first position holding the key, and the list becomes the elements before it followed by those after it, in order, one occurrence of the key fewer |
| Lists.DeleteLeavesNone | src/services/api/fileService.js:40-48 | deleting a key that occurs at most once leaves no element with it |
| Lists.FindAfterAppend | src/services/api/fileService.js:25-38 | after a push, `getById` of the pushed key finds the earlier element with it if there is one, else the pushed element |
| Lists.SpliceCount | src/services/api/uploadSessionService.js:82 | cutting out position `k` lowers the count of its key by one and no other key's count |
| Lists.FilterReplace | src/services/api/uploadSessionService.js:52-75 | replacing one element changes a filter's length by what the old and the new element contribute |
| Text.SplitJoin | src/components/organisms/FileDropZone.jsx:29 | a list joined with ", " reads back as the same list when no item contains a comma |
| Text.SecondField | src/components/organisms/FileDropZone.jsx:29 | `split('/')[1]` is missing exactly when the string has no '/'; otherwise it is the text that starts just after the first '/' and runs up to the next '/' or the end, and it holds no '/' |
| TrackedFiles.NewRecordShape | src/pages/Home.jsx:67-81 | a new record copies name, size, type and lastModified, starts at progress 0, is 'error' with the validation message or 'pending' with none, has a preview exactly for `image/` types, and is well formed |
| TrackedFiles.NewRecords | src/pages/Home.jsx:66-83 | one record per input file, in input order |
| TrackedFiles.AcceptedRecords | src/pages/Home.jsx:91 | the returned records are as many as the files that pass validation, all 'pending' at progress 0 |
| TrackedFiles.IntakeKeepsInvariants | src/components/pages/HomePage.jsx:70-90 | appending records with fresh distinct ids keeps the earlier records in place and keeps every record well formed and every id unique |
| TrackedFiles.UpdateByIdAt | src/pages/Home.jsx:151-180 | a by-id update keeps the length and changes exactly the records with that id |
| TrackedFiles.UpdateAbsentId | src/pages/Home.jsx:151-153 | an update for an id no longer in the list leaves the list unchanged |
| TrackedFiles.UpdateKeepsInvariants | src/components/pages/HomePage.jsx:151-180 | a by-id update that each matching record allows keeps ids, well-formedness and unique ids |
| TrackedFiles.ApplyKeepsWellFormed | src/components/pages/HomePage.jsx:151-180 | 'uploading', a progress step, 'completed' and 'Upload failed' each keep a record well formed when allowed |
| TrackedFiles.ProgressValuesAreSteps | src/pages/Home.jsx:156 | the progress loop runs through the eleven values 10·k, each in {0, 10, …, 100} |
| TrackedFiles.SweepAt | src/pages/Home.jsx:156-161 | after the progress ticks, the record with the id shows the last tick and every other record is unchanged |
| TrackedFiles.MarkKeepsInvariants | src/pages/Home.jsx:151-153 | marking the pending records with the id 'uploading' keeps the list invariants, and every record with the id is then 'uploading' |
| TrackedFiles.SweepKeepsInvariants | src/components/pages/HomePage.jsx:156-161 | progress ticks on an uploading record keep the list invariants, and the record stays 'uploading' |
| TrackedFiles.UploadOneAt | src/pages/Home.jsx:148-182 | one pass of the loop ends the records with that id 'completed' at 100, or 'error' with 'Upload failed' at 0, keeping their other fields, and touches nothing else |
| TrackedFiles.UploadAllUntouched | src/pages/Home.jsx:148-183 | a record whose id is not in the batch is left as it was |
| TrackedFiles.UploadAllFinishes | src/pages/Home.jsx:148-183 | with unique batch ids, the record for the k-th batch file ends as the k-th outcome says |
| TrackedFiles.UploadPendingEffect | src/components/pages/HomePage.jsx:131-183 | only records pending at invocation are uploaded: every other record is unchanged, and each pending record ends as its outcome says |
| TrackedFiles.UploadPendingKeepsInvariants | src/components/pages/HomePage.jsx:131-183 | the whole batch keeps ids, well-formedness and unique ids |
| TrackedFiles.NextInBatchIsPending | src/pages/Home.jsx:148 | when the loop reaches a file of the snapshot, its record is still 'pending' |
| TrackedFiles.WithoutMembers | src/pages/Home.jsx:125-126 | removal drops every record with the id and keeps every other record |
| TrackedFiles.WithoutAppend | src/pages/Home.jsx:126 | removal works piecewise, so the kept records stay in order |
| TrackedFiles.RemovedIdIsGone | src/pages/Home.jsx:126 | no record with the removed id remains |
| TrackedFiles.WithoutAbsent | src/pages/Home.jsx:126 | removing an id that is not there changes nothing |
| TrackedFiles.RemoveUniqueIsSplice | src/pages/Home.jsx:126 | with unique ids, removal cuts out exactly the one record with the id |
| TrackedFiles.WithoutKeepsInvariants | src/components/pages/HomePage.jsx:125-126 | removal keeps the list invariants |
| TrackedFiles.CompletedWithinNonError | src/components/pages/HomePage.jsx:204-206 | the completed count never exceeds the number of non-error records |
| TrackedFiles.UploadPercentBounds | src/pages/Home.jsx:204-209 | the percentage is 0 with no non-error records, satisfies percent·nonError = completed·100, and lies in [0, 100] |
| TrackedFiles.AllCompletedIsComplete | src/pages/Home.jsx:206-209 | when every record is completed or failed and some are valid, the percentage is 100 |
| TrackedFiles.TotalSizeAppend | src/pages/Home.jsx:204-205 | the total size adds up over list concatenation and counts only non-error records |
| UploadPage.IntakeToastsCount | src/pages/Home.jsx:85-87 | one error toast per file that fails validation |
| UploadPage.FileToastsAt | src/pages/Home.jsx:171-181 | one toast per batch file, in batch order, success or 'Failed to upload' as its outcome says |
| UploadPage.UploadEnabledIff | src/components/pages/HomePage.jsx:210 | `HomePage`'s upload button, fed the pending count, is enabled exactly when no upload runs and some record is pending |
| UploadPage.HomeUploadEnabledWithNothingPending | src/pages/Home.jsx:284 | `Home`'s button is enabled for a list whose only record is completed, where nothing is pending |
| UploadPage.BuildFileItems | src/pages/Home.jsx:64-88 | the intake loop builds exactly `NewRecords` of its inputs, in input order, and the toasts of the rejected files |
| UploadPage.Page.constructor | src/pages/Home.jsx:12-14 | the page starts with an empty list, the flag down, no toasts, and that one state in its history |
| UploadPage.Page.ProcessFiles | src/pages/Home.jsx:63-92 | the new records are appended after the old ones and the page invariant is kept; the non-error new records are returned and one toast is raised per rejected file; the history gains the one new state |
| UploadPage.Page.RemoveFile | src/pages/Home.jsx:125-128 | the list becomes the removal of the id, the invariant is kept, and 'File removed' is raised; the history gains the one new state |
| UploadPage.Page.ClearAll | src/pages/Home.jsx:199-202 | the list becomes empty and 'All files cleared' is raised; the history gains the one new state |
| UploadPage.Page.TickProgress | src/pages/Home.jsx:156-161 | the progress loop leaves the list swept through all eleven progress values, keeps the invariant, and appends one state per tick to the history (`TickTrace`) |
| UploadPage.Page.UploadFile | src/pages/Home.jsx:149-182 | the list ends as `UploadOne`, the invariant is kept and one toast is raised; the history gains exactly the thirteen states of `UploadTrace`, in order: marked 'uploading', one per progress tick, then finished |
| UploadPage.Page.UploadBatch | src/pages/Home.jsx:148-183 | the loop over the snapshot's pending records leaves the list as `UploadPending`, raises one toast per file in order, and appends `BatchTrace`, one upload trace per file, to the history; the flag stays up |
| UploadPage.Page.UploadFiles | src/pages/Home.jsx:130-197 | with nothing pending only a warning is raised and the history is unchanged; otherwise the session asks for the pending count and their total size, `isUploading` is false afterwards, and on a created session the list becomes the batch upload of the snapshot with one toast per file, the completion is requested with `uploadedFiles` equal to the snapshot's count whatever the outcomes, and a final toast reports the completion; with no session no completion is requested. The history gains the old list with the flag up, then (with a session) the batch trace, then the final list with the flag down |
| UploadPage.TickTraceAt | src/pages/Home.jsx:156-161 | the `j`-th tick state is the list after the first `j + 1` progress values |
| UploadPage.UploadTraceStates | src/pages/Home.jsx:151-180 | one upload shows thirteen states: the marked list, the list after each prefix of the progress values, and the finished list |
| UploadPage.UploadTraceAt | src/pages/Home.jsx:151-180 | in the thirteen states of one upload the flag and the list's length are kept; the record is 'uploading' at its old progress first, 'uploading' at progress `10 * (j - 1)` in state `j`, and finished by the outcome last; no other record changes in any state |
| UploadPage.TickStateAt | src/pages/Home.jsx:151-160 | after `j` ticks the record is 'uploading' at progress `10 * (j - 1)` and no other record has changed |
| UploadPage.UploadTraceFlags | src/pages/Home.jsx:148-183 | every state of one upload carries the flag it was given |
| UploadPage.BatchTraceUploading | src/pages/Home.jsx:137-183 | the batch shows thirteen states per file, and the flag is up in every one |
| UploadPage.UploadRunFlags | src/pages/Home.jsx:137-196 | an upload with a session shows `2 + 13 * n` states for `n` files: the flag is up in all of them but the last, where it is down |
| FileStore.FileService.UploadFile | src/services/api/fileService.js:8-27 | the store grows by exactly the returned copy, which carries the item's id, name, size, type, lastModified and preview, progress 100, 'completed', no error, and the given time |
| FileStore.FileService.GetAll | src/services/api/fileService.js:29-32 | all stored records in insertion order; the store is unchanged |
| FileStore.FileService.GetById | src/services/api/fileService.js:34-38 | `Find` of the store: the record at the first position with the id, or `None` when no record has it; the store is unchanged |
| FileStore.FileService.Delete | src/services/api/fileService.js:40-48 | the store and result are `DeleteFirst` of the old store: the record at the first position with the id is cut out and returned, the others keep their order; with no such record the store is unchanged and the result is `None` |
| FileStore.FileService.ClearAll | src/services/api/fileService.js:77-81 | the store is empty and the result is success |
| SessionStore.NewSession | src/services/api/uploadSessionService.js:11-21 | a new session copies totalFiles, totalSize and startTime, has zero counters, no end time, status 'active', and the given id and creation time |
| SessionStore.MergeEmpty | src/services/api/uploadSessionService.js:35-39 | spreading an empty patch changes nothing |
| SessionStore.MergeThen | src/services/api/uploadSessionService.js:35-39 | two spreads in a row are one spread of their combination, where the later wins; spreading the same patch twice is spreading it once |
| SessionStore.MergeKeepsAbsent | src/services/api/uploadSessionService.js:35-39 | each of the nine patchable fields that the patch leaves out keeps its stored value, and `updatedAt` and `completedAt` are always kept |
| SessionStore.MergeTakesPresent | src/services/api/uploadSessionService.js:35-39 | each of the nine patchable fields that the patch carries takes the patch's value |
| SessionStore.Revised | src/services/api/uploadSessionService.js:35-39 | an updated session carries `updatedAt`, its status is the patch's if given, and its `completedAt` is kept |
| SessionStore.Closed | src/services/api/uploadSessionService.js:52-57 | a completed session has status 'completed' whatever the completion data said, and carries `completedAt` |
| SessionStore.CreatedIsActive | src/services/api/uploadSessionService.js:73-76 | a created session joins the end of the active list |
| SessionStore.CompletedLeavesActive | src/services/api/uploadSessionService.js:52-75 | completing a session takes it off the active list: that list shrinks by one if the session was active, and the completed record is not on it |
| SessionStore.UploadSessionService.CreateUploadSession | src/services/api/uploadSessionService.js:8-25 | exactly one new session is appended and returned |
| SessionStore.UploadSessionService.UpdateUploadSession | src/services/api/uploadSessionService.js:27-42 | with an unknown id: 'Upload session not found' and the store unchanged; otherwise only the first session with the id is replaced by its revision, which is returned |
| SessionStore.UploadSessionService.CompleteUploadSession | src/services/api/uploadSessionService.js:44-60 | with an unknown id: 'Upload session not found' and the store unchanged; otherwise only the first session with the id is replaced by its closed form, which is returned |
| SessionStore.UploadSessionService.GetById | src/services/api/uploadSessionService.js:62-66 | `Find` of the store: the session at the first position with the id, or `None` when no session has it |
| SessionStore.UploadSessionService.GetAll | src/services/api/uploadSessionService.js:68-71 | all sessions, in order |
| SessionStore.UploadSessionService.GetActiveSessions | src/services/api/uploadSessionService.js:73-76 | the active sessions, in store order |
| SessionStore.UploadSessionService.Delete | src/services/api/uploadSessionService.js:78-86 | the store and result are `DeleteFirst` of the old store: the session at the first position with the id is cut out and returned, the others keep their order; with no such session the store is unchanged and the result is `None` |
| DropZone.LabelSpec | src/components/organisms/FileDropZone.jsx:15-29 | a known type gets its table label; another type fails exactly when it has no '/', and otherwise gets `SecondField` of it (the text between the first '/' and the next '/' or the end) upper-cased |
| DropZone.LabelsPointwise | src/components/organisms/FileDropZone.jsx:29 | the labels exist exactly when each type's label does, and they line up with the types one for one |
| DropZone.DisplayFailsIff | src/components/organisms/FileDropZone.jsx:29 | the line fails exactly when some type is neither known nor contains '/' |
| DropZone.DisplayRoundTrip | src/components/organisms/FileDropZone.jsx:29 | when no label contains a comma, the line reads back as the list of labels, one per type in order |
| DropZone.EmptyDisplay | src/components/organisms/FileDropZone.jsx:29 | an empty list gives the empty line |
| DropZone.AcceptedTypesLabelled | src/components/organisms/FileDropZone.jsx:15-27 | each of the eleven accepted types gets its fixed label (JPG, PNG, GIF, WebP, PDF, TXT, CSV, DOC, DOCX, XLS, XLSX) |
| DropZone.AcceptedTypesShown | src/components/organisms/FileDropZone.jsx:15-29 | for the page's own list, the line is those eleven labels joined with ", " and reads back as them |
| FileRules.ValidateFile | src/pages/Home.jsx:42-50 | definition of the page's `validateFile`: the unsupported-type message for an unlisted type, else the size message above 50 MiB, else `None`; ValidateAcceptsIff, ValidateMessages and LimitIsInclusive state its behaviour |
| FileRules.ServiceValidateFile | src/services/api/fileService.js:50-75 | definition of the service's `validateFile` as `{valid, error}`, over its own list, ceiling and messages; ServiceCopiesAgree and ServiceAgreesWithPage tie it to the page's |
| FileRules.FileIcon | src/pages/Home.jsx:33-40 | definition of `getFileIcon` as the same chain of rules; FileIconFirstMatch and AcceptedTypeIcons state its outcomes |
| Lists.Filter | src/pages/Home.jsx:131 | `filter`: never longer than its input; FilterMembers and FilterAppend state what it keeps and in what order |
| Text.IndexOf | src/components/organisms/FileDropZone.jsx:29 | `indexOf` of a character, where `split` cuts: -1 exactly when the character is absent, otherwise a position holding it with none before it |
| Text.Upper | src/components/organisms/FileDropZone.jsx:29 | `toUpperCase`: same length, each character upper-cased (ASCII letters only) |
| Text.Join | src/components/organisms/FileDropZone.jsx:29 | definition of `join`; SplitJoin states that it reads back |
| TrackedFiles.NewRecord | src/pages/Home.jsx:67-81 | definition of the record built for one file; NewRecordShape states its fields |
| TrackedFiles.UpdateById | src/pages/Home.jsx:151-153 | definition of `prev.map(f => f.id === id ? {...f, ...} : f)`; UpdateByIdAt and UpdateAbsentId state its effect |
| TrackedFiles.Sweep | src/pages/Home.jsx:156-161 | definition of the progress ticks applied in turn; SweepAt and SweepKeepsInvariants state its effect |
| TrackedFiles.UploadOne | src/pages/Home.jsx:148-182 | definition of one pass of the upload loop; UploadOneAt states its effect |
| TrackedFiles.UploadAll | src/pages/Home.jsx:148-183 | definition of the passes over a batch in batch order; UploadAllUntouched and UploadAllFinishes state their effect |
| TrackedFiles.UploadPending | src/pages/Home.jsx:131-183 | definition of `uploadFiles`' effect on the list: the batch pass over the pending snapshot; UploadPendingEffect states it |
| TrackedFiles.Without | src/pages/Home.jsx:126 | definition of `prev.filter(f => f.id !== fileId)`; WithoutMembers and WithoutAppend state what it keeps |
| TrackedFiles.NonErrorFiles | src/pages/Home.jsx:204 | definition of `validFiles`, the records not in 'error' |
| TrackedFiles.TotalSize | src/pages/Home.jsx:205 | definition of the summed size of the non-error records; TotalSizeAppend states it is additive |
| TrackedFiles.CompletedCount | src/pages/Home.jsx:206 | definition of the number of completed records; CompletedWithinNonError bounds it |
| TrackedFiles.UploadPercent | src/pages/Home.jsx:207-209 | definition of the overall percentage; UploadPercentBounds and AllCompletedIsComplete state its range and its full value |
| UploadPage.HomeUploadEnabled | src/pages/Home.jsx:284 | definition of `Home`'s button state, from the non-error count; HomeUploadEnabledWithNothingPending shows it enabled with nothing pending |
| UploadPage.UploadEnabled | src/components/pages/HomePage.jsx:210 | definition of `HomePage`'s button state, from `filesForUploadButton`; UploadEnabledIff states when it is enabled |
| UploadPage.IntakeToasts | src/pages/Home.jsx:85-87 | every intake toast is an error toast; IntakeToastsCount counts one per rejected file |
| UploadPage.FileToasts | src/pages/Home.jsx:171-181 | definition of the per-file toasts of the loop; FileToastsAt states one per file, in order |
| UploadPage.TickTrace | src/pages/Home.jsx:156-161 | definition of the states the progress loop shows; TickTraceAt states each one |
| UploadPage.UploadTrace | src/pages/Home.jsx:151-180 | definition of the states one upload shows; UploadTraceStates and UploadTraceAt state each one |
| UploadPage.BatchTrace | src/pages/Home.jsx:148-183 | definition of the states the loop over the batch shows; BatchTraceUploading states their count and flag |
| SessionStore.Merge | src/services/api/uploadSessionService.js:35-37 | definition of `{ ...session, ...patch }`; MergeEmpty, MergeThen, MergeKeepsAbsent and MergeTakesPresent state its laws |
| DropZone.Label | src/components/organisms/FileDropZone.jsx:15-29 | definition of one type's label; LabelSpec states it |
| DropZone.Labels | src/components/organisms/FileDropZone.jsx:29 | `MapAll` of `Label` over the types: when it succeeds there is one label per type; LabelsPointwise lines them up |
| DropZone.AcceptedTypesDisplay | src/components/organisms/FileDropZone.jsx:29 | definition of `getAcceptedTypesDisplay`; DisplayFailsIff, DisplayRoundTrip and AcceptedTypesShown state its behaviour |

## Left out

- Rendering, animation, drag-over and drag-leave handling, the hidden input and
  the preview modal are presentation, so they are not modelled.
- `formatFileSize` is floating-point (`Math.log`, `toFixed`), so it is not
  modelled.
- The percentage is an exact `real`. JavaScript's float division and any
  rounding for display are not modelled.
- `FileReader` is browser I/O. The data URL of each file is a parameter, and
  the model keeps it only for `image/` types.
- `Date.now()` and `Math.random()` are nondeterministic. Ids and timestamps
  are parameters.
- UploadPage.Page.ProcessFiles requires the new ids to be distinct and absent
  from the list, because the generated ids are assumed unique.
- Delays and `await` are modelled as plain sequential steps. A record removed
  while an upload runs, or any other interleaving, is not modelled.
- `setFiles` functional updates are applied directly to the `files` field.
  React's batching is not modelled. The ghost `history` records one state for
  each `setFiles` and each `setIsUploading` call, as if each were rendered.
- Toasts are kept as a log of structured messages; `MessageText` spells each one out.
  `processFiles` raises its toasts inside its loop; the model collects them and
  appends them once.
- `HomePage` warns "No files to upload" where `Home` warns "No valid files to
  upload". Only `Home`'s wording is modelled.
- How the page reaches `createUploadSession` and `completeUploadSession` is not
  modelled. `fileService.js` defines neither method, and the services index
  module is not part of this model. UploadPage.Page.UploadFiles takes two
  booleans: whether the session was created, and whether completing it
  succeeded.
- The session's start time and the completion's `endTime` are clock
  readings, so they are not modelled. UploadPage.Page.UploadFiles returns the
  rest of both requests: the snapshot's count and total size for the session,
  and `uploadedFiles` (the snapshot's count) for the completion.
- UploadPage.Page.UploadFiles does not model `fileService.uploadFile`
  storing a copy. Each persistence call is only an outcome; the store is
  modelled separately by FileStore.FileService.UploadFile.
- The raw `File` object that each record keeps in its `file` field is not
  modelled.
- Text.Upper upper-cases ASCII letters only. Full Unicode `toUpperCase` is not
  modelled.
- DropZone.Label does not model keys the lookup object inherits, such as
  `constructor`, which would find a non-string value.
- SessionStore.Merge models patches whose keys are among `id`, `totalFiles`,
  `totalSize`, `uploadedFiles`, `uploadedSize`, `startTime`, `endTime`,
  `status` and `createdAt`. A patch carrying `updatedAt` or `completedAt`
  (the spread would copy whichever of the two the stamp after it does not
  overwrite), a key the session does not have, or an `endTime` patched back to
  `null` is not modelled; no caller passes one.

## Findings

| source | as written | input that shows it | evidently intended | confidence | as-written member | corrected member |
|---|---|---|---|---|---|---|
| src/pages/Home.jsx:284 | The upload button is enabled when some record is not 'error'. | One record that is already 'completed': the button is enabled, and clicking it only warns "No valid files to upload". | Enabled exactly when some record is 'pending', as `HomePage` does with `filesForUploadButton` (src/components/pages/HomePage.jsx:210, 278). | not executed | UploadPage.HomeUploadEnabledWithNothingPending | UploadPage.UploadEnabledIff |
