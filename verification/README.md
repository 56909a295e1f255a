# Machine file handlers of mayfly-go, modelled in Dafny

This project models the decision logic of the SFTP file handlers of
mayfly-go's machine module (`server/internal/machine/api/machine_file.go`).
Every remote effect becomes an event in a trace, and every remote answer
becomes a parameter. The following are modelled:

- **GetMachineFileId**: the `fileId` route parameter is refused when it is
  zero. Otherwise it is reinterpreted as `uint64` with Go's two's-complement
  conversion.
- **GetDirEntry**: the requested path is normalised to end in `/`. One record
  is built per listed entry. Its path is the normalised path plus the name,
  and its type code comes from `getFileType`.
- **ReadFileContent**: a download is offered under the last `/`-separated
  segment of the path, whatever the size. An inline view is refused for files
  of 1 MiB or more. A failed read aborts the request.
- **UploadFile**: files over 1 GiB are refused. The remote upload happens
  next. Success is followed by a success notification. A business error
  raises an error notification, and any other failure is swallowed.
- **UploadFolder**: the form checks come first (base path, files, total size
  within 1 GiB, first relative path). Then one directory is created per
  distinct directory of the relative paths, in order of first occurrence. A
  failing creation, or a path without a file, ends the request there. Then
  the planned files are split into chunks, and each chunk goes to a worker
  that stops at its first failing upload. Each worker signals the wait group
  and only then sends its failure notification, if any. Once every worker
  has signalled, a success notification is sent, whatever the workers met.

Modules follow the program's structure:

| module | file | content |
|---|---|---|
| `Common` | common.dfy | `Option`, `Result`, the handlers' error conditions, Go integer widths |
| `Paths` | paths.dfy | `strings.Split`, last segment, `filepath.Dir` on slash paths, `base + "/" + dir`, trailing `/` |
| `FileId` | file_id.dfy | `GetMachineFileId` |
| `DirEntry` | dir_entry.dfy | `getFileType`, `GetDirEntry` |
| `ReadGate` | read_gate.dfy | `ReadFileContent` |
| `Trace` | trace.dfy | the events a handler causes |
| `UploadPlan` | upload_plan.dfy | the directory-creation loop of `UploadFolder` and its files |
| `UploadWorker` | upload_worker.dfy | one chunk's worker, all workers, a chunking |
| `Upload` | upload.dfy | `UploadFile`, `UploadFolder` and their properties |
| `Scenarios` | scenarios.dfy | worked runs of the upload handlers |

Remote answers are parameters:

- the directory listing is `readDir: string -> Option<seq<RemoteEntry>>`;
- the read of an opened file is `readAll: Option<string>`;
- the remote directory creation is `mkdirOk: string -> bool`. `false`
  means the creation panics and so ends the request;
- the remote upload is `remote: (dir, filename) -> CallResult`. A result is
  `Done` or a panic carrying a business error (`code`, `msg`) or something
  else. Uploads with the same target directory and file name therefore get
  the same result;
- the chunking of the planned files is `split`, because `collx.ArraySplit`
  is not part of this model. The folder lemmas assume that the chunks,
  concatenated, are exactly the planned files. `GroupSplit` (ten consecutive
  chunks) is proved to satisfy that assumption (`GroupSplitCoversPlan`).

A panic that the Gin middleware turns into an error response is modelled as
an `Err`/`error` value. The result carries the trace of what had already
happened.

## Model

| member | source | states |
|---|---|---|
| Paths.EnsureTrailingSep | server/internal/machine/api/machine_file.go:116-118 | the listed path ends in "/", starts with the requested path, is at most one character longer, and is the requested path itself when that already ends in "/" |
| Paths.EnsureTrailingSepIdempotent | server/internal/machine/api/machine_file.go:116-118 | normalising a normalised path changes nothing |
| Paths.Split | server/internal/machine/api/machine_file.go:99 | splitting gives at least one piece, no piece holds "/", a path without "/" is one piece, a path with "/" gives at least two |
| Paths.JoinSplit | server/internal/machine/api/machine_file.go:99 | joining the pieces with "/" restores the path, so the split loses nothing |
| Paths.SplitJoin | server/internal/machine/api/machine_file.go:99 | splitting "/"-free pieces joined with "/" gives back the pieces |
| Paths.Base | server/internal/machine/api/machine_file.go:99-100 | the last piece holds no "/", is a suffix of the path, is preceded by "/" when shorter than the path, and is the whole path when there is no "/" |
| Paths.DirBaseSplit | server/internal/machine/api/machine_file.go:231 | a path without "/" lies in "."; a path whose only "/" leads it lies in "/"; any other path is its directory, "/" and its last segment |
| Paths.JoinDirInjective | server/internal/machine/api/machine_file.go:234 | under one base path, different directories give different `base + "/" + dir` targets |
| Paths.BaseDirOfJoin | server/internal/machine/api/machine_file.go:272 | a target built from a directory and a "/"-free name splits back into that name and that directory, or "/" when the directory is empty |
| FileId.ToUint64 | server/internal/machine/api/machine_file.go:344 | the conversion keeps non-negative ids, maps negative ones to 2^63 or more, is undone by the reverse conversion, and is zero only for zero |
| FileId.ToUint64Injective | server/internal/machine/api/machine_file.go:344 | distinct parsed ids stay distinct after conversion |
| FileId.MachineFileId | server/internal/machine/api/machine_file.go:341-345 | the id is refused with the fileId error exactly when it parses to zero; an accepted id is non-zero and converts back to the parsed value |
| DirEntry.FileType | server/internal/machine/api/machine_file.go:331-339 | "-" exactly for regular files; "d" for directories and every other kind |
| DirEntry.LinkCodeNeverProduced | server/internal/machine/api/machine_file.go:331-339 | the declared link code "l" is never returned |
| DirEntry.BuildInfos | server/internal/machine/api/machine_file.go:120-131 | one record per listed entry, in listing order, with its name, size, mode and time, the directory path plus name as path, and its type code |
| DirEntry.GetDirEntry | server/internal/machine/api/machine_file.go:116-131 | the listing fails exactly when the remote listing of the normalised path fails; otherwise one record per entry with its name, type code and normalised path plus name |
| DirEntry.InfoPathRoundTrip | server/internal/machine/api/machine_file.go:116-125 | a record's path has the entry's name as last segment and the requested directory, without its trailing "/", as directory |
| ReadGate.ReadFileContent | server/internal/machine/api/machine_file.go:80-107 | a download is answered with the last segment of the path; a view of 1 MiB or more is refused with the size error; a smaller view returns the content or the read error |
| ReadGate.ViewAdmittedIff | server/internal/machine/api/machine_file.go:91-93 | a view whose read succeeds is answered exactly when the file is smaller than 1 MiB |
| ReadGate.DownloadIgnoresSize | server/internal/machine/api/machine_file.go:91-100 | a download is never refused and its answer does not depend on the size or the read |
| ReadGate.DownloadName | server/internal/machine/api/machine_file.go:97-100 | the download name is the last "/" piece: "/"-free, a suffix of the path, after a "/" when shorter, the whole path when it has no "/" |
| UploadPlan.Dedup | server/internal/machine/api/machine_file.go:229-236 | the directories created hold no repetition and are exactly the directories of the paths |
| UploadPlan.PlanStep | server/internal/machine/api/machine_file.go:231-236 | a directory is in the seen set exactly when an earlier path had it; a directory not seen before adds one creation and joins the set; a repeated one adds nothing |
| UploadPlan.PlanStopFrom | server/internal/machine/api/machine_file.go:230-240 | the first path at which the loop aborts (its new directory cannot be created, or it has no file): every earlier path passes; none when no path aborts |
| UploadPlan.PlanStopNoneIff | server/internal/machine/api/machine_file.go:230-240 | the loop gets through all paths exactly when every path has a file and every directory can be created |
| UploadPlan.PlanAbortCreations | server/internal/machine/api/machine_file.go:233-239 | when the loop aborts on a failed creation, that creation is the last, for the aborting path's directory, and every earlier one succeeded; when it aborts on a missing file, every creation succeeded |
| UploadPlan.PlanPath | server/internal/machine/api/machine_file.go:231-240 | one pass of the loop body: the seen set and the creations grow as the deduplicated plan says, and the pass aborts exactly when the path's new directory cannot be created (that error first) or the path has no file |
| UploadPlan.PlanFolder | server/internal/machine/api/machine_file.go:227-241 | the loop with its seen-directories map succeeds exactly when every path has a file and every directory can be created, then issuing the deduplicated creations and one planned file per path; otherwise it stops at the first aborting path with the creations up to it and that path's error |
| UploadPlan.DedupCardinality | server/internal/machine/api/machine_file.go:229-236 | as many creations as distinct directories |
| UploadPlan.DedupFirstOccurrenceOrder | server/internal/machine/api/machine_file.go:230-236 | directories are created in the order of their first occurrence among the paths |
| UploadPlan.MkDirPlanSound | server/internal/machine/api/machine_file.go:229-236 | no directory is created twice, every path's directory is created, nothing else is created, and the count is the number of distinct directories |
| UploadWorker.Notices | server/internal/machine/api/machine_file.go:257-262 | a failure produces at most one notification, present exactly for a business error, carrying its code and message |
| UploadWorker.FirstFailure | server/internal/machine/api/machine_file.go:266-273 | the first file whose upload fails, every earlier one having succeeded; none when all succeed |
| UploadWorker.Uploaded | server/internal/machine/api/machine_file.go:266-273 | a worker attempts at most all its files, and all of them exactly when none fails or only the last one does |
| UploadWorker.Worker | server/internal/machine/api/machine_file.go:253-274 | without failure all files of the chunk are uploaded in order, then the completion signal; otherwise the uploads stop at the first failing file, then the completion signal, then that failure's notification if any |
| UploadWorker.WorkerShape | server/internal/machine/api/machine_file.go:253-273 | a worker's trace is its attempted uploads in chunk order, then one completion signal, then at most one error notification |
| UploadWorker.WorkerEvents | server/internal/machine/api/machine_file.go:253-273 | a worker causes only uploads, completion signals and error notifications, and its upload at position i is of its i-th file |
| UploadWorker.WorkerDoneCount | server/internal/machine/api/machine_file.go:254-256 | a worker signals completion exactly once, whether or not an upload fails |
| UploadWorker.WorkerStopsAtFailure | server/internal/machine/api/machine_file.go:266-273 | with the first failure at k, files 0..k are attempted in order and no later file is |
| UploadWorker.WorkerErrorNoticeIff | server/internal/machine/api/machine_file.go:257-262 | a worker sends an error notification exactly when its first failing upload failed with a business error |
| UploadWorker.WorkerIsolation | server/internal/machine/api/machine_file.go:252-275 | a worker's trace depends only on the outcomes of its own chunk's uploads |
| UploadWorker.Workers | server/internal/machine/api/machine_file.go:248-275 | all workers together cause only uploads, completion signals and error notifications, one completion signal per chunk, and each upload is of a file of some chunk |
| UploadWorker.CleanRunsUploads | server/internal/machine/api/machine_file.go:266-273 | the uploads of workers that meet no failure are those of all chunks' files, chunk after chunk |
| UploadWorker.WorkersWithoutFailure | server/internal/machine/api/machine_file.go:252-278 | when no upload fails, each worker uploads its whole chunk in its own order and signals completion, so every file of every chunk is uploaded exactly once |
| UploadWorker.SplitInto | server/internal/machine/api/machine_file.go:244-245 | the chunking gives exactly the requested number of chunks, which concatenate back to the planned files |
| Upload.UploadSingle | server/internal/machine/api/machine_file.go:166-198 | a file is admitted exactly when at most 1 GiB; a refused one has no effect; an admitted one is uploaded, then followed by a success notification on success, an error notification with the code and message on a business error, and nothing on any other failure |
| Upload.TotalSizeBoundsEach | server/internal/machine/api/machine_file.go:216-218 | no file is larger than the folder's total size |
| Upload.UploadFolder | server/internal/machine/api/machine_file.go:205-281 | the request succeeds exactly when the form checks pass, every path has a file and every directory can be created; each failing check gives its own error and no effect; an aborted plan gives the creations up to the aborting path, only creations, and that path's error |
| Upload.FolderRefusalHasNoRemoteEffect | server/internal/machine/api/machine_file.go:209-223 | a folder refused by the form checks causes no directory creation and no upload |
| Upload.FolderAbort | server/internal/machine/api/machine_file.go:230-240 | an admitted folder whose plan aborts uploads nothing and notifies nobody; it ends on a failed creation after creations that succeeded, or on a missing file after creations that all succeeded |
| Upload.FolderTraceShape | server/internal/machine/api/machine_file.go:227-281 | a proceeding folder first makes exactly the planned creations and no creation after them; it sends exactly one success notification, for the first path's folder and the base path, after every creation, every upload and one completion signal per chunk; nothing orders it against the workers' error notifications |
| Upload.PlannedDirCreated | server/internal/machine/api/machine_file.go:230-240 | the directory of every planned file is among the directories created |
| Upload.WorkerUploadAfterMkDir | server/internal/machine/api/machine_file.go:230-272 | every upload of the workers targets a directory the plan created |
| Upload.FolderDirectoryBeforeUpload | server/internal/machine/api/machine_file.go:227-273 | every upload of a proceeding folder comes after the creation of its target directory |
| Upload.FolderWithoutFailure | server/internal/machine/api/machine_file.go:227-281 | when no upload fails, the trace is the creations, each worker's whole chunk followed by its completion signal, and the success notification; every planned file is uploaded exactly once |
| Upload.FolderFilesWithinSingleQuota | server/internal/machine/api/machine_file.go:216-219 | every file of an admitted folder would also pass the single-file quota |
| Upload.GroupSplitCoversPlan | server/internal/machine/api/machine_file.go:244-245 | the ten-chunk split has ten chunks that concatenate to the planned files |
| Scenarios.ThreeFileFolder | server/internal/machine/api/machine_file.go:205-281 | a folder with one top-level file and two files of one sub-directory creates "base/." and "base/sub", uploads the three files, and ends by naming folder "." in its success notification |
| Scenarios.SubDirRefused | server/internal/machine/api/machine_file.go:230-236 | when only the sub-directory cannot be created, the request ends with the two creations and the creation error, uploading nothing |
| Scenarios.SecondUploadFails | server/internal/machine/api/machine_file.go:253-273 | a business error on the second file of a chunk: two uploads, the completion signal, then the error notification; the third file is never attempted |
| Scenarios.SiblingChunkUnaffected | server/internal/machine/api/machine_file.go:252-275 | a failing chunk does not stop its sibling chunk, which uploads its file and signals completion |

## Left out

- Gin request binding, query and form parsing, and the audit strings (`rc.ReqParam`) are left out. These carry no decision. The form values appear as parameters.
- `strconv.Atoi` is left out: `MachineFileId` takes the parsed value. The handler discards the parse error, so a parameter that is not a number counts as zero and is refused, while a number out of range is clamped to the nearest `int64` bound and accepted.
- The remote SFTP operations (`ReadDir`, `ReadFile`, `Stat`, `UploadFile`, `MkDir`) are left out as code. They are outcome parameters or trace events. `MachineFileApp` is not part of this model. The handler ignores any value `MkDir` returns, so a failing creation can only show as a panic that ends the request; `mkdirOk` says which creations end that way. A creation that fails without a panic looks like success to the handler and is `true` here.
- `GetMachine` (lines 180 and 224) is left out: `MachineFileApp` is not part of this model. A lookup failure would end the request before the upload (line 180) or before the first directory creation (line 224), with no remote effect. The success notifications leave out the machine's name and address that this lookup supplies.
- A failure to open or stat the file in `ReadFileContent` is left out. `MachineFileApp.ReadFile` is not part of this model, and the stat error is discarded by the handler.
- The sort of the directory listing (`vo.MachineFileInfos`) is left out: its comparator is not part of this model. `GetDirEntry` returns the records in listing order.
- Timestamp formatting (`timex.DefaultFormat`) and mode rendering (`fi.Mode().String()`) are left out. They are taken as given strings.
- UploadWorker.SplitInto: `collx.ArraySplit` is not part of this model, so its exact chunk sizes are not modelled. Every folder property holds for any chunking that concatenates back to the planned files.
- Workers run as goroutines, but the model runs them one after another in chunk order. Interleavings are left out. `WorkerIsolation` shows that each worker's own trace does not depend on the others. `FolderTraceShape` states only what holds under every schedule.
- UploadWorker.Outcome: an upload's result depends only on its target directory and file name. Two planned files with the same target, as with a repeated relative path, end the same way in the model, even in different chunks. The remote system could answer them differently: say the first succeeds and the second fails with a business error, giving one notification where the model gives zero or two. Telling them apart would need the file's position in the plan as part of the key, and the model does not promise that case.
- A panic in a worker's notification path is left out, and so are logging and the closing of file streams.
- Paths.Dir: `filepath.Dir` is modelled for slash paths, including a path directly under the root. Cleaning of ".", ".." and repeated separators is left out. A path without "/" gives ".", as in Go.
- Upload.TotalSize: the total is an unbounded sum. The `int64` wrap-around of the Go sum would need sizes near 2^63 bytes, so it is not modelled.
- A form without a `basePath` value (line 211, an index panic before any effect) is taken as an empty base path. The multipart form error of UploadFolder (line 210) and the missing-file error of UploadFile (line 174) are left out. They occur before any effect, like the modelled checks.
- `MachineFiles`, `SaveMachineFiles` and `DeleteFile` are left out. They are CRUD pass-throughs to the application layer.
- `CreateFile` is left out. It picks `MkDir` or `CreateFile` of the application layer on `form.Type == "d"` (line 71) and has no error condition of its own.
- `WriteFileContent`, `GetDirSize`, `GetFileStat`, `RemoveFile`, `CopyFile`, `MvFile` and `Rename` are left out. They forward to remote operations without a decision of their own beyond `GetMachineFileId`.

## Notes

- In the code, a top-level file of a folder upload has directory ".". The handler therefore creates `basePath + "/."`, an existing directory, before uploading into it. A folder whose first path is a top-level file is named "." in the success notification. `Scenarios.ThreeFileFolder` exhibits both. The model follows the code.
- A worker's deferred function signals the wait group (line 256) before it sends its failure notification (lines 257-262). So the handler can send the success notification (line 281) before a failure notification of some worker. `Upload.FolderTraceShape` therefore claims no order between the two. The success notification is sent even when some worker stopped at a failed upload.
- An empty `paths` list with files present makes the handler index `paths[0]` and panic before any directory is created. The model reports this as `MissingPaths`. A path without a matching file header panics inside the planning loop, right after that path's directory was created. The model reports `MissingFileHeader`, with those creations in the trace.
