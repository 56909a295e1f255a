/** The upload handlers: a single file checked against the upload quota,
    and a folder upload that checks its form, creates the directories it
    needs, runs one worker per chunk, waits for every worker to signal
    completion and then reports success. */
module Upload {
  import opened Common
  import opened Paths
  import opened Trace
  import opened UploadPlan
  import opened UploadWorker

  /** Upload quota of one request, inclusive (1 GiB). */
  const MaxUploadFileSize: nat := 1024 * 1024 * 1024

  /** Number of chunks a folder upload is split into. */
  const GroupNum: nat := 10

  /** What a handler did: the events it caused, in order, and the error it
      ended the request with, if any. */
  datatype Response = Response(trace: seq<Event>, error: Option<ApiError>)

  /** UploadFile: a file of at most 1 GiB is uploaded into `path`; a
      successful upload is followed by a success notification, a failure
      with a business error by an error notification, and any other
      failure by nothing (it is swallowed). A larger file is refused before
      anything is uploaded. */
  function UploadSingle(path: string, header: FileHeader, remote: Remote): (r: Response)
    ensures r.error.None? <==> header.size <= MaxUploadFileSize
    ensures r.error.Some? ==> r.error.value == FileTooLarge(MaxUploadFileSize) && r.trace == []
    ensures r.error.None? ==>
      && r.trace == [UploadCall(path, header.filename)]
                    + (if remote(path, header.filename) == Done then [SuccessNotice(header.filename, path)]
                       else Notices(remote(path, header.filename)))
      && r.trace[0] == UploadCall(path, header.filename)
      && (SuccessNotice(header.filename, path) in r.trace <==> remote(path, header.filename) == Done)
      && (HasErrorNotice(r.trace) <==>
            remote(path, header.filename).Panicked? && remote(path, header.filename).failure.BizError?)
  {
    if MaxUploadFileSize < header.size then Response([], Some(FileTooLarge(MaxUploadFileSize)))
    else
      var call := UploadCall(path, header.filename);
      match remote(path, header.filename)
      case Done => Response([call, SuccessNotice(header.filename, path)], None)
      case Panicked(BizError(code, msg)) =>
        var t := [call, ErrorNotice(code, msg)];
        assert t[1].ErrorNotice?;
        Response(t, None)
      case Panicked(OtherPanic) =>
        assert forall i :: 0 <= i < |[call]| ==> [call][i] == call;
        Response([call], None)
  }

  /** Total size of the uploaded files, summed from the left. */
  function TotalSize(headers: seq<FileHeader>): nat
  {
    if |headers| == 0 then 0 else TotalSize(headers[..|headers| - 1]) + headers[|headers| - 1].size
  }

  /** No single file is larger than the total. */
  lemma {:induction false} TotalSizeBoundsEach(headers: seq<FileHeader>)
    ensures forall i :: 0 <= i < |headers| ==> headers[i].size <= TotalSize(headers)
    decreases |headers|
  {
    if |headers| > 0 {
      TotalSizeBoundsEach(headers[..|headers| - 1]);
      assert forall i :: 0 <= i < |headers| - 1 ==> headers[i] == headers[..|headers| - 1][i];
    }
  }

  /** The form checks of UploadFolder, in the order they are made: a base
      path, at least one file, a total within the quota, and at least one
      relative path (the first one names the folder). */
  function FolderCheck(basePath: string, paths: seq<string>, headers: seq<FileHeader>): Option<ApiError>
  {
    if basePath == "" then Some(EmptyBasePath)
    else if |headers| == 0 then Some(NoFiles)
    else if MaxUploadFileSize < TotalSize(headers) then Some(FolderTooLarge(MaxUploadFileSize))
    else if |paths| == 0 then Some(MissingPaths)
    else None
  }

  /** True when a folder upload passes all form checks. */
  predicate FolderAdmitted(basePath: string, paths: seq<string>, headers: seq<FileHeader>) {
    basePath != "" && 0 < |headers| && TotalSize(headers) <= MaxUploadFileSize && 0 < |paths|
  }

  /** True when a folder upload runs to its success notification: it passes
      the form checks, every relative path has a file, and every directory
      can be created. */
  predicate FolderProceeds(basePath: string, paths: seq<string>, headers: seq<FileHeader>, mkdirOk: MkDirOracle) {
    FolderAdmitted(basePath, paths, headers) && |paths| <= |headers| && AllDirsMade(basePath, paths, mkdirOk)
  }

  /** UploadFolder: `paths` are the files' relative paths, index-aligned
      with `headers`; `mkdirOk` is the remote directory creation, `remote`
      the remote upload and `split` the chunking of the planned files.
      After the form checks, one directory is created per distinct
      directory; a failing creation, or a relative path without a file,
      aborts the request right there. Otherwise each chunk is handed to a
      worker, and once every worker has signalled completion a success
      notification names the folder and the base path. */
  function UploadFolder(basePath: string, paths: seq<string>, headers: seq<FileHeader>, mkdirOk: MkDirOracle,
                        remote: Remote, split: seq<FolderFile> -> seq<seq<FolderFile>>): (r: Response)
    ensures r.error.None? <==> FolderProceeds(basePath, paths, headers, mkdirOk)
    ensures !FolderAdmitted(basePath, paths, headers) ==> r.trace == []
    ensures basePath == "" ==> r.error == Some(EmptyBasePath)
    ensures basePath != "" && |headers| == 0 ==> r.error == Some(NoFiles)
    ensures basePath != "" && 0 < |headers| && MaxUploadFileSize < TotalSize(headers) ==>
      r.error == Some(FolderTooLarge(MaxUploadFileSize))
    ensures basePath != "" && 0 < |headers| && TotalSize(headers) <= MaxUploadFileSize && |paths| == 0 ==>
      r.error == Some(MissingPaths)
    ensures FolderAdmitted(basePath, paths, headers) && PlanStop(basePath, paths, headers, mkdirOk).Some? ==>
      var k := PlanStop(basePath, paths, headers, mkdirOk).value;
      && r.error == Some(StopError(basePath, paths, mkdirOk, k))
      && r.trace == MkDirPlan(basePath, paths[..k + 1])
      && AllMkDir(r.trace)
  {
    PlanStopNoneIff(basePath, paths, headers, mkdirOk);
    match FolderCheck(basePath, paths, headers)
    case Some(e) => Response([], Some(e))
    case None =>
      match PlanStop(basePath, paths, headers, mkdirOk)
      case Some(k) => Response(MkDirPlan(basePath, paths[..k + 1]), Some(StopError(basePath, paths, mkdirOk, k)))
      case None =>
        var files := FolderFiles(paths, headers);
        Response(MkDirPlan(basePath, paths) + Workers(basePath, split(files), remote)
                 + [SuccessNotice(Dir(paths[0]), basePath)], None)
  }

  /** A refused folder upload touches nothing remote: every check comes
      before the first directory creation and the first upload. */
  lemma FolderRefusalHasNoRemoteEffect(basePath: string, paths: seq<string>, headers: seq<FileHeader>,
                                       mkdirOk: MkDirOracle, remote: Remote,
                                       split: seq<FolderFile> -> seq<seq<FolderFile>>)
    requires !FolderAdmitted(basePath, paths, headers)
    ensures var r := UploadFolder(basePath, paths, headers, mkdirOk, remote, split);
      r.error.Some? && forall i :: 0 <= i < |r.trace| ==> !IsRemote(r.trace[i])
  {
  }

  /** An admitted folder upload whose planning loop aborts uploads nothing
      and notifies nobody: it ends either with a failed creation, after
      creations that all succeeded, or with a missing file, after creations
      that all succeeded. */
  lemma FolderAbort(basePath: string, paths: seq<string>, headers: seq<FileHeader>,
                    mkdirOk: MkDirOracle, remote: Remote, split: seq<FolderFile> -> seq<seq<FolderFile>>)
    requires FolderAdmitted(basePath, paths, headers)
    requires !(|paths| <= |headers| && AllDirsMade(basePath, paths, mkdirOk))
    ensures var r := UploadFolder(basePath, paths, headers, mkdirOk, remote, split);
      var t := r.trace;
      && AllMkDir(t)
      && (r.error == Some(MkDirFailed) || r.error == Some(MissingFileHeader))
      && (r.error == Some(MkDirFailed) ==>
            0 < |t| && !mkdirOk(t[|t| - 1].path) && forall i :: 0 <= i < |t| - 1 ==> mkdirOk(t[i].path))
      && (r.error == Some(MissingFileHeader) ==> forall i :: 0 <= i < |t| ==> mkdirOk(t[i].path))
  {
    PlanStopNoneIff(basePath, paths, headers, mkdirOk);
    PlanAbortCreations(basePath, paths, headers, mkdirOk);
  }

  /** The trace of a proceeding folder upload, phase by phase. */
  lemma FolderPhases(basePath: string, paths: seq<string>, headers: seq<FileHeader>, mkdirOk: MkDirOracle,
                     remote: Remote, split: seq<FolderFile> -> seq<seq<FolderFile>>)
    requires FolderProceeds(basePath, paths, headers, mkdirOk)
    ensures UploadFolder(basePath, paths, headers, mkdirOk, remote, split).trace
      == MkDirPlan(basePath, paths) + Workers(basePath, split(FolderFiles(paths, headers)), remote)
         + [SuccessNotice(Dir(paths[0]), basePath)]
  {
    PlanStopNoneIff(basePath, paths, headers, mkdirOk);
  }

  /** Creations, then the workers' events, then one success notification. */
  lemma PhaseShape(mk: seq<Event>, w: seq<Event>, done: Event)
    requires AllMkDir(mk)
    requires forall i :: 0 <= i < |w| ==> w[i].UploadCall? || w[i].WorkerDone? || w[i].ErrorNotice?
    requires done.SuccessNotice?
    ensures var t := mk + w + [done];
      && t[..|mk|] == mk
      && (forall j :: |mk| <= j < |t| ==> !t[j].MkDir?)
      && (forall i, j :: 0 <= i < j < |t| && t[i].UploadCall? ==> !t[j].MkDir?)
      && t[|t| - 1] == done
      && (forall s :: 0 <= s < |t| && t[s].SuccessNotice? ==> s == |t| - 1)
      && DoneCount(t[..|t| - 1]) == DoneCount(w)
  {
    var t := mk + w + [done];
    assert t[..|mk|] == mk;
    assert t[..|t| - 1] == mk + w;
    AllMkDirCounts(mk);
    DoneCountAppend(mk, w);
    forall j | |mk| <= j < |t|
      ensures !t[j].MkDir?
    {
      if j < |t| - 1 {
        assert t[j] == w[j - |mk|];
      }
    }
    forall i, j | 0 <= i < j < |t| && t[i].UploadCall?
      ensures !t[j].MkDir?
    {
      if j < |t| - 1 {
        assert t[j] == w[j - |mk|];
      }
    }
    forall s | 0 <= s < |t| - 1
      ensures !t[s].SuccessNotice?
    {
      if s < |mk| {
        assert t[s] == mk[s];
      } else {
        assert t[s] == w[s - |mk|];
      }
    }
  }

  /** What holds of a proceeding folder upload however its workers are
      scheduled: the planned creations come first and no other creation
      follows them; exactly one success notification is sent, naming the first
      path's folder and the base path, whatever the workers met; it comes
      after every creation, every upload and every worker's completion
      signal, one per chunk. Nothing orders it against the workers' error
      notifications, which each worker sends after its completion signal. */
  lemma FolderTraceShape(basePath: string, paths: seq<string>, headers: seq<FileHeader>, mkdirOk: MkDirOracle,
                         remote: Remote, split: seq<FolderFile> -> seq<seq<FolderFile>>)
    requires FolderProceeds(basePath, paths, headers, mkdirOk)
    ensures var t := UploadFolder(basePath, paths, headers, mkdirOk, remote, split).trace;
      var m := |MkDirPlan(basePath, paths)|;
      && m < |t|
      && t[..m] == MkDirPlan(basePath, paths)
      && (forall j :: m <= j < |t| ==> !t[j].MkDir?)
      && (forall i, j :: 0 <= i < j < |t| && t[i].UploadCall? ==> !t[j].MkDir?)
      && (exists s :: 0 <= s < |t| && t[s] == SuccessNotice(Dir(paths[0]), basePath))
      && (forall s1, s2 :: 0 <= s1 < |t| && 0 <= s2 < |t| && t[s1].SuccessNotice? && t[s2].SuccessNotice? ==> s1 == s2)
      && (forall s :: 0 <= s < |t| && t[s].SuccessNotice? ==>
            && t[s] == SuccessNotice(Dir(paths[0]), basePath)
            && (forall j :: 0 <= j < |t| && (t[j].MkDir? || t[j].UploadCall? || t[j].WorkerDone?) ==> j < s)
            && DoneCount(t[..s]) == |split(FolderFiles(paths, headers))|)
  {
    var t := UploadFolder(basePath, paths, headers, mkdirOk, remote, split).trace;
    var mk := MkDirPlan(basePath, paths);
    var w := Workers(basePath, split(FolderFiles(paths, headers)), remote);
    var done := SuccessNotice(Dir(paths[0]), basePath);
    FolderPhases(basePath, paths, headers, mkdirOk, remote, split);
    PhaseShape(mk, w, done);
    assert t[|t| - 1] == done;
  }

  /** The directory of every planned file is among the directories created. */
  lemma PlannedDirCreated(basePath: string, paths: seq<string>, headers: seq<FileHeader>, f: FolderFile)
    requires |paths| <= |headers|
    requires f in FolderFiles(paths, headers)
    ensures MkDir(JoinDir(basePath, f.dir)) in MkDirPlan(basePath, paths)
  {
    var files := FolderFiles(paths, headers);
    var k :| 0 <= k < |files| && files[k] == f;
    MkDirPlanSound(basePath, paths);
  }

  /** Every upload of the workers' trace targets a directory the plan
      created. */
  lemma WorkerUploadAfterMkDir(basePath: string, paths: seq<string>, headers: seq<FileHeader>,
                               chunks: seq<seq<FolderFile>>, remote: Remote)
    requires |paths| <= |headers|
    requires Flatten(chunks) == FolderFiles(paths, headers)
    ensures var w := Workers(basePath, chunks, remote);
      forall j :: 0 <= j < |w| && w[j].UploadCall? ==> MkDir(w[j].dir) in MkDirPlan(basePath, paths)
  {
    var w := Workers(basePath, chunks, remote);
    forall j | 0 <= j < |w| && w[j].UploadCall?
      ensures MkDir(w[j].dir) in MkDirPlan(basePath, paths)
    {
      var f :| f in Flatten(chunks) && w[j] == Attempt(basePath, f);
      PlannedDirCreated(basePath, paths, headers, f);
    }
  }

  /** If every upload of `w` targets a directory created in `mk`, then in
      `mk + w + tail` every upload comes after the creation of its directory. */
  lemma CreatedBeforeUse(mk: seq<Event>, w: seq<Event>, tail: seq<Event>)
    requires AllMkDir(mk)
    requires forall k :: 0 <= k < |w| && w[k].UploadCall? ==> MkDir(w[k].dir) in mk
    requires forall k :: 0 <= k < |tail| ==> !tail[k].UploadCall?
    ensures var t := mk + w + tail;
      forall j :: 0 <= j < |t| && t[j].UploadCall? ==> exists i :: 0 <= i < j && t[i] == MkDir(t[j].dir)
  {
    var t := mk + w + tail;
    forall j | 0 <= j < |t| && t[j].UploadCall?
      ensures exists i :: 0 <= i < j && t[i] == MkDir(t[j].dir)
    {
      assert |mk| <= j < |mk| + |w|;
      assert t[j] == w[j - |mk|];
      var i :| 0 <= i < |mk| && mk[i] == MkDir(t[j].dir);
      assert t[i] == mk[i];
    }
  }

  /** In a proceeding folder upload whose chunks hold exactly the planned
      files, the directory of every upload has been created before it. */
  lemma FolderDirectoryBeforeUpload(basePath: string, paths: seq<string>, headers: seq<FileHeader>,
                                    mkdirOk: MkDirOracle, remote: Remote,
                                    split: seq<FolderFile> -> seq<seq<FolderFile>>)
    requires FolderProceeds(basePath, paths, headers, mkdirOk)
    requires Flatten(split(FolderFiles(paths, headers))) == FolderFiles(paths, headers)
    ensures var t := UploadFolder(basePath, paths, headers, mkdirOk, remote, split).trace;
      forall j :: 0 <= j < |t| && t[j].UploadCall? ==>
        exists i :: 0 <= i < j && t[i] == MkDir(t[j].dir)
  {
    var chunks := split(FolderFiles(paths, headers));
    var mk := MkDirPlan(basePath, paths);
    var w := Workers(basePath, chunks, remote);
    WorkerUploadAfterMkDir(basePath, paths, headers, chunks, remote);
    FolderPhases(basePath, paths, headers, mkdirOk, remote, split);
    CreatedBeforeUse(mk, w, [SuccessNotice(Dir(paths[0]), basePath)]);
  }

  /** When no upload fails and the chunks hold exactly the planned files,
      every worker uploads its whole chunk, each chunk in its own order, and
      signals completion, so every planned file is uploaded exactly once; in
      the chunk-after-chunk schedule the uploads follow the plan's order. */
  lemma FolderWithoutFailure(basePath: string, paths: seq<string>, headers: seq<FileHeader>, mkdirOk: MkDirOracle,
                             remote: Remote, split: seq<FolderFile> -> seq<seq<FolderFile>>)
    requires FolderProceeds(basePath, paths, headers, mkdirOk)
    requires Flatten(split(FolderFiles(paths, headers))) == FolderFiles(paths, headers)
    requires forall i :: 0 <= i < |paths| ==> remote(JoinDir(basePath, Dir(paths[i])), headers[i].filename) == Done
    ensures var t := UploadFolder(basePath, paths, headers, mkdirOk, remote, split).trace;
      && t == MkDirPlan(basePath, paths) + CleanRuns(basePath, split(FolderFiles(paths, headers)))
              + [SuccessNotice(Dir(paths[0]), basePath)]
      && UploadsOf(t) == Attempts(basePath, FolderFiles(paths, headers))
  {
    var files := FolderFiles(paths, headers);
    var mk := MkDirPlan(basePath, paths);
    var w := Workers(basePath, split(files), remote);
    forall f | f in Flatten(split(files))
      ensures Outcome(basePath, f, remote) == Done
    {
      var k :| 0 <= k < |files| && files[k] == f;
    }
    WorkersWithoutFailure(basePath, split(files), remote);
    FolderPhases(basePath, paths, headers, mkdirOk, remote, split);
    AllMkDirCounts(mk);
    DoneCountAppend(mk, w);
    DoneCountAppend(mk + w, [SuccessNotice(Dir(paths[0]), basePath)]);
  }

  /** Every file of an admitted folder upload would also pass the quota of
      a single upload. */
  lemma FolderFilesWithinSingleQuota(basePath: string, paths: seq<string>, headers: seq<FileHeader>)
    requires FolderAdmitted(basePath, paths, headers)
    ensures forall i :: 0 <= i < |headers| ==> headers[i].size <= MaxUploadFileSize
  {
    TotalSizeBoundsEach(headers);
  }

  /** A chunking into `GroupNum` consecutive chunks. */
  function GroupSplit(files: seq<FolderFile>): seq<seq<FolderFile>>
  {
    SplitInto(files, GroupNum)
  }

  /** That chunking is a true partition of the plan into `GroupNum` chunks,
      so the folder lemmas above apply to it. */
  lemma GroupSplitCoversPlan(paths: seq<string>, headers: seq<FileHeader>)
    requires |paths| <= |headers|
    ensures var files := FolderFiles(paths, headers);
      |GroupSplit(files)| == GroupNum && Flatten(GroupSplit(files)) == files
  {
  }
}
