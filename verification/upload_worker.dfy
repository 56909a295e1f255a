/** One upload worker of a folder upload: it uploads the files of its chunk
    in order and stops at the first failing upload; a failure carrying a
    business error code is reported to the user, any other failure only
    ends the worker. Workers are modelled one after the other, each on its
    own chunk; their interleaving is not modelled. */
module UploadWorker {
  import opened Common
  import opened Paths
  import opened Trace
  import opened UploadPlan

  /** Why a remote call failed: a business error with a code and a message,
      or any other runtime failure. */
  datatype Failure = BizError(code: int, msg: string) | OtherPanic

  /** How a remote upload ended. */
  datatype CallResult = Done | Panicked(failure: Failure)

  /** The remote upload: its outcome for a target directory and a file name.
      Two uploads to the same target therefore end the same way. */
  type Remote = (string, string) -> CallResult

  /** The remote upload of `f` under `basePath`. */
  function Attempt(basePath: string, f: FolderFile): Event
  {
    UploadCall(JoinDir(basePath, f.dir), f.header.filename)
  }

  /** How the remote upload of `f` under `basePath` ends. */
  function Outcome(basePath: string, f: FolderFile, remote: Remote): CallResult
  {
    remote(JoinDir(basePath, f.dir), f.header.filename)
  }

  /** The uploads of `files`, one per file, in order. */
  function Attempts(basePath: string, files: seq<FolderFile>): seq<Event>
  {
    seq(|files|, i requires 0 <= i < |files| => Attempt(basePath, files[i]))
  }

  /** The notification a failed upload produces: one for a business error,
      none otherwise. */
  function Notices(r: CallResult): (t: seq<Event>)
    ensures |t| <= 1
    ensures |t| == 1 <==> r.Panicked? && r.failure.BizError?
    ensures |t| == 1 ==> t[0] == ErrorNotice(r.failure.code, r.failure.msg)
  {
    match r
    case Panicked(BizError(code, msg)) => [ErrorNotice(code, msg)]
    case _ => []
  }

  /** The position of the first file of `files` whose upload fails. */
  function FirstFailure(basePath: string, files: seq<FolderFile>, remote: Remote): (k: Option<nat>)
    ensures k.Some? ==>
      && k.value < |files|
      && Outcome(basePath, files[k.value], remote).Panicked?
      && forall j :: 0 <= j < k.value ==> Outcome(basePath, files[j], remote) == Done
    ensures k.None? ==> forall j :: 0 <= j < |files| ==> Outcome(basePath, files[j], remote) == Done
  {
    if |files| == 0 then None
    else if Outcome(basePath, files[0], remote).Panicked? then Some(0)
    else match FirstFailure(basePath, files[1..], remote)
      case None => None
      case Some(k) => Some(k + 1)
  }

  /** After a first upload that succeeds, the first failure is that of the
      remaining files, one position later. */
  lemma FirstFailureCons(basePath: string, files: seq<FolderFile>, remote: Remote)
    requires 0 < |files| && Outcome(basePath, files[0], remote) == Done
    ensures FirstFailure(basePath, files, remote).None? <==> FirstFailure(basePath, files[1..], remote).None?
    ensures FirstFailure(basePath, files, remote).Some? ==>
      && 0 < FirstFailure(basePath, files, remote).value
      && FirstFailure(basePath, files[1..], remote).value == FirstFailure(basePath, files, remote).value - 1
      && files[1..][FirstFailure(basePath, files, remote).value - 1] == files[FirstFailure(basePath, files, remote).value]
  {
  }

  /** How many uploads a worker attempts: all of its files, or those up to
      and including the first failing one. */
  function Uploaded(basePath: string, files: seq<FolderFile>, remote: Remote): (n: nat)
    ensures n <= |files|
    ensures n == |files| <==> FirstFailure(basePath, files, remote).None? || FirstFailure(basePath, files, remote).value == |files| - 1
  {
    match FirstFailure(basePath, files, remote)
    case None => |files|
    case Some(k) => k + 1
  }

  /** The uploads of a non-empty chunk, or of one of its non-empty
      prefixes, start with the upload of its first file. */
  lemma AttemptsCons(basePath: string, files: seq<FolderFile>)
    requires 0 < |files|
    ensures Attempts(basePath, files) == [Attempt(basePath, files[0])] + Attempts(basePath, files[1..])
    ensures forall n :: 0 <= n < |files| ==>
      Attempts(basePath, files[..n + 1]) == [Attempt(basePath, files[0])] + Attempts(basePath, files[1..][..n])
  {
    forall n | 0 <= n < |files|
      ensures Attempts(basePath, files[..n + 1]) == [Attempt(basePath, files[0])] + Attempts(basePath, files[1..][..n])
    {
      assert files[..n + 1] == [files[0]] + files[1..][..n];
      AttemptsAppend(basePath, [files[0]], files[1..][..n]);
    }
    assert files == [files[0]] + files[1..];
    AttemptsAppend(basePath, [files[0]], files[1..]);
  }

  /** A worker over its chunk: upload each file in turn, and let the first
      failing upload end the loop. The deferred function then signals the
      wait group, and only after that sends the failure's notification, if
      it has one. */
  function Worker(basePath: string, files: seq<FolderFile>, remote: Remote): (t: seq<Event>)
    ensures FirstFailure(basePath, files, remote).None? ==> t == Attempts(basePath, files) + [WorkerDone]
    ensures FirstFailure(basePath, files, remote).Some? ==>
      var k := FirstFailure(basePath, files, remote).value;
      t == Attempts(basePath, files[..k + 1]) + [WorkerDone] + Notices(Outcome(basePath, files[k], remote))
  {
    if |files| == 0 then [WorkerDone]
    else
      var f := files[0];
      match Outcome(basePath, f, remote)
      case Done =>
        AttemptsCons(basePath, files);
        FirstFailureCons(basePath, files, remote);
        [Attempt(basePath, f)] + Worker(basePath, files[1..], remote)
      case Panicked(e) =>
        assert Attempts(basePath, files[..1]) == [Attempt(basePath, f)];
        [Attempt(basePath, f), WorkerDone] + Notices(Panicked(e))
  }

  /** The shape of a worker's trace: the uploads of its first n files in
      chunk order, then its one completion signal, then at most one error
      notification. So a worker signals completion after all its uploads and
      before its failure notification. */
  lemma WorkerShape(basePath: string, files: seq<FolderFile>, remote: Remote)
    ensures var t := Worker(basePath, files, remote);
      var n := Uploaded(basePath, files, remote);
      && n < |t| <= n + 2
      && (forall i :: 0 <= i < n ==> t[i] == Attempt(basePath, files[i]))
      && t[n] == WorkerDone
      && (|t| == n + 2 ==> t[n + 1].ErrorNotice?)
  {
  }

  /** A failure at position k: the files before k were uploaded, the file at
      k was attempted, and no later file is attempted. */
  lemma WorkerStopsAtFailure(basePath: string, files: seq<FolderFile>, remote: Remote, k: nat)
    requires k < |files|
    requires Outcome(basePath, files[k], remote).Panicked?
    requires forall j :: 0 <= j < k ==> Outcome(basePath, files[j], remote) == Done
    ensures var t := Worker(basePath, files, remote);
      && (forall j :: 0 <= j <= k ==> Attempt(basePath, files[j]) == t[j])
      && (forall i :: 0 <= i < |t| && t[i].UploadCall? ==> i <= k)
  {
    var t := Worker(basePath, files, remote);
    var ff := FirstFailure(basePath, files, remote);
    assert ff == Some(k);
    assert Uploaded(basePath, files, remote) == k + 1;
    WorkerShape(basePath, files, remote);
  }

  /** An error notification is sent exactly when the first failing upload
      failed with a business error. */
  lemma WorkerErrorNoticeIff(basePath: string, files: seq<FolderFile>, remote: Remote)
    ensures var ff := FirstFailure(basePath, files, remote);
      HasErrorNotice(Worker(basePath, files, remote))
      <==> ff.Some? && Outcome(basePath, files[ff.value], remote).failure.BizError?
  {
    var t := Worker(basePath, files, remote);
    var ff := FirstFailure(basePath, files, remote);
    if ff.None? {
      assert t == Attempts(basePath, files) + [WorkerDone] + [];
      UploadsThenNotices(Attempts(basePath, files), []);
    } else {
      var n := Notices(Outcome(basePath, files[ff.value], remote));
      assert t == Attempts(basePath, files[..ff.value + 1]) + [WorkerDone] + n;
      UploadsThenNotices(Attempts(basePath, files[..ff.value + 1]), n);
      if |n| == 1 {
        assert n[0].ErrorNotice?;
      }
    }
  }

  /** Uploads, a completion signal and then notifications hold an error
      notification exactly when the notifications do. */
  lemma UploadsThenNotices(a: seq<Event>, n: seq<Event>)
    requires forall i :: 0 <= i < |a| ==> a[i].UploadCall?
    ensures HasErrorNotice(a + [WorkerDone] + n) <==> HasErrorNotice(n)
  {
    var t := a + [WorkerDone] + n;
    forall i | 0 <= i < |t| && t[i].ErrorNotice?
      ensures |a| < i && n[i - |a| - 1].ErrorNotice?
    {
      if |a| < i {
        assert t[i] == n[i - |a| - 1];
      }
    }
    forall i | 0 <= i < |n| && n[i].ErrorNotice?
      ensures t[|a| + 1 + i].ErrorNotice?
    {
      assert t[|a| + 1 + i] == n[i];
    }
  }

  /** The kinds of events of a worker's trace, and the file of each of its
      uploads. */
  lemma WorkerEvents(basePath: string, files: seq<FolderFile>, remote: Remote)
    ensures var t := Worker(basePath, files, remote);
      && (forall i :: 0 <= i < |t| ==> t[i].UploadCall? || t[i].WorkerDone? || t[i].ErrorNotice?)
      && (forall i :: 0 <= i < |t| && t[i].UploadCall? ==> i < |files| && t[i] == Attempt(basePath, files[i]))
  {
    var t := Worker(basePath, files, remote);
    var n := Uploaded(basePath, files, remote);
    WorkerShape(basePath, files, remote);
    forall i | 0 <= i < |t|
      ensures t[i].UploadCall? || t[i].WorkerDone? || t[i].ErrorNotice?
      ensures t[i].UploadCall? ==> i < |files| && t[i] == Attempt(basePath, files[i])
    {
      if i < n {
        assert t[i] == Attempt(basePath, files[i]);
      } else if i == n {
        assert t[i] == WorkerDone;
      } else {
        assert t[i].ErrorNotice?;
      }
    }
  }

  /** A worker's trace depends only on how the uploads of its own files end:
      a failure elsewhere does not change it. */
  lemma {:induction false} WorkerIsolation(basePath: string, files: seq<FolderFile>, remote1: Remote, remote2: Remote)
    requires forall f :: f in files ==> Outcome(basePath, f, remote1) == Outcome(basePath, f, remote2)
    ensures Worker(basePath, files, remote1) == Worker(basePath, files, remote2)
    decreases |files|
  {
    if |files| > 0 {
      assert files[0] in files;
      forall f | f in files[1..]
        ensures Outcome(basePath, f, remote1) == Outcome(basePath, f, remote2)
      {
        assert f in files;
      }
      WorkerIsolation(basePath, files[1..], remote1, remote2);
    }
  }

  /** All chunks one after another. */
  function Flatten(chunks: seq<seq<FolderFile>>): seq<FolderFile>
  {
    if |chunks| == 0 then [] else chunks[0] + Flatten(chunks[1..])
  }

  /** The events of one worker followed by those of the workers after it. */
  lemma ConcatEvents(basePath: string, w: seq<Event>, rest: seq<Event>, files: seq<FolderFile>, later: seq<FolderFile>)
    requires forall i :: 0 <= i < |w| ==> w[i].UploadCall? || w[i].WorkerDone? || w[i].ErrorNotice?
    requires forall i :: 0 <= i < |w| && w[i].UploadCall? ==> i < |files| && w[i] == Attempt(basePath, files[i])
    requires forall i :: 0 <= i < |rest| ==> rest[i].UploadCall? || rest[i].WorkerDone? || rest[i].ErrorNotice?
    requires forall i :: 0 <= i < |rest| && rest[i].UploadCall? ==>
      exists f :: f in later && rest[i] == Attempt(basePath, f)
    ensures var t := w + rest;
      && (forall i :: 0 <= i < |t| ==> t[i].UploadCall? || t[i].WorkerDone? || t[i].ErrorNotice?)
      && (forall i :: 0 <= i < |t| && t[i].UploadCall? ==> exists f :: f in files + later && t[i] == Attempt(basePath, f))
  {
    var t := w + rest;
    forall i | 0 <= i < |t| && t[i].UploadCall?
      ensures exists f :: f in files + later && t[i] == Attempt(basePath, f)
    {
      if i < |w| {
        assert (files + later)[i] == files[i];
      } else {
        assert t[i] == rest[i - |w|];
        var f :| f in later && rest[i - |w|] == Attempt(basePath, f);
        assert f in files + later;
      }
    }
  }

  /** Every worker on its own chunk, chunk after chunk: only uploads of
      files of the chunks, completion signals, one per chunk, and error
      notifications. */
  function Workers(basePath: string, chunks: seq<seq<FolderFile>>, remote: Remote): (t: seq<Event>)
    ensures forall i :: 0 <= i < |t| ==> t[i].UploadCall? || t[i].WorkerDone? || t[i].ErrorNotice?
    ensures forall i :: 0 <= i < |t| && t[i].UploadCall? ==>
      exists f :: f in Flatten(chunks) && t[i] == Attempt(basePath, f)
    ensures DoneCount(t) == |chunks|
  {
    if |chunks| == 0 then []
    else
      var w := Worker(basePath, chunks[0], remote);
      var rest := Workers(basePath, chunks[1..], remote);
      WorkerEvents(basePath, chunks[0], remote);
      WorkerDoneCount(basePath, chunks[0], remote);
      DoneCountAppend(w, rest);
      ConcatEvents(basePath, w, rest, chunks[0], Flatten(chunks[1..]));
      w + rest
  }

  /** Uploads alone contain no completion signal and are kept by the filter. */
  lemma {:induction false} AttemptsCounts(basePath: string, files: seq<FolderFile>)
    ensures DoneCount(Attempts(basePath, files)) == 0
    ensures UploadsOf(Attempts(basePath, files)) == Attempts(basePath, files)
    decreases |files|
  {
    var t := Attempts(basePath, files);
    if |files| > 0 {
      assert t[1..] == Attempts(basePath, files[1..]);
      AttemptsCounts(basePath, files[1..]);
    }
  }

  /** A worker signals completion exactly once. */
  lemma WorkerDoneCount(basePath: string, files: seq<FolderFile>, remote: Remote)
    ensures DoneCount(Worker(basePath, files, remote)) == 1
  {
    var ff := FirstFailure(basePath, files, remote);
    if ff.None? {
      AttemptsCounts(basePath, files);
      DoneCountAppend(Attempts(basePath, files), [WorkerDone]);
    } else {
      var k := ff.value;
      var n := Notices(Outcome(basePath, files[k], remote));
      AttemptsCounts(basePath, files[..k + 1]);
      DoneCountAppend(Attempts(basePath, files[..k + 1]), [WorkerDone]);
      DoneCountAppend(Attempts(basePath, files[..k + 1]) + [WorkerDone], n);
      assert DoneCount(n) == 0;
    }
  }

  /** Uploads of two runs of files. */
  lemma AttemptsAppend(basePath: string, a: seq<FolderFile>, b: seq<FolderFile>)
    ensures Attempts(basePath, a + b) == Attempts(basePath, a) + Attempts(basePath, b)
  {
  }

  /** The trace of workers none of whose uploads fails: each chunk's uploads
      in chunk order, followed by that worker's completion signal. */
  function CleanRuns(basePath: string, chunks: seq<seq<FolderFile>>): seq<Event>
  {
    if |chunks| == 0 then [] else Attempts(basePath, chunks[0]) + [WorkerDone] + CleanRuns(basePath, chunks[1..])
  }

  /** The uploads of clean runs are those of all chunks' files, chunk after
      chunk. */
  lemma {:induction false} CleanRunsUploads(basePath: string, chunks: seq<seq<FolderFile>>)
    ensures UploadsOf(CleanRuns(basePath, chunks)) == Attempts(basePath, Flatten(chunks))
    decreases |chunks|
  {
    if |chunks| > 0 {
      var a := Attempts(basePath, chunks[0]);
      CleanRunsUploads(basePath, chunks[1..]);
      AttemptsCounts(basePath, chunks[0]);
      DoneCountAppend(a, [WorkerDone]);
      DoneCountAppend(a + [WorkerDone], CleanRuns(basePath, chunks[1..]));
      assert UploadsOf([WorkerDone]) == [];
      AttemptsAppend(basePath, chunks[0], Flatten(chunks[1..]));
    }
  }

  /** When no upload fails, every worker uploads its whole chunk, in chunk
      order, and then signals completion; taken together, every file of
      every chunk is uploaded exactly once. */
  lemma {:induction false} WorkersWithoutFailure(basePath: string, chunks: seq<seq<FolderFile>>, remote: Remote)
    requires forall f :: f in Flatten(chunks) ==> Outcome(basePath, f, remote) == Done
    ensures Workers(basePath, chunks, remote) == CleanRuns(basePath, chunks)
    ensures UploadsOf(Workers(basePath, chunks, remote)) == Attempts(basePath, Flatten(chunks))
    decreases |chunks|
  {
    if |chunks| > 0 {
      var c := chunks[0];
      assert Flatten(chunks) == c + Flatten(chunks[1..]);
      assert forall f :: f in c ==> f in Flatten(chunks);
      assert FirstFailure(basePath, c, remote).None?;
      WorkersWithoutFailure(basePath, chunks[1..], remote);
    }
    CleanRunsUploads(basePath, chunks);
  }

  /** Multiplication by a natural number is monotonic. */
  lemma MulLe(a: nat, b: nat, n: nat)
    requires a <= b
    ensures a * n <= b * n
  {
    var d := b - a;
    assert b * n == a * n + d * n;
  }

  /** The size of the first of `n` chunks of `len` files is at most `len`. */
  lemma ChunkSizeBound(len: nat, n: nat)
    requires 1 < n
    ensures (len + n - 1) / n <= len
  {
    var q := (len + n - 1) / n;
    assert q * n + (len + n - 1) % n == len + n - 1;
    if q > len {
      MulLe(len + 1, q, n);
      assert (len + 1) * n == len * n + n;
      MulLe(1, n, len);
    }
  }

  /** Splits `xs` into exactly `n` consecutive chunks of at most
      ceil(|xs| / n) files each; trailing chunks may be empty. */
  function SplitInto(xs: seq<FolderFile>, n: nat): (chunks: seq<seq<FolderFile>>)
    requires 0 < n
    ensures |chunks| == n
    ensures Flatten(chunks) == xs
    decreases n
  {
    if n == 1 then
      assert Flatten([xs]) == xs + Flatten([]);
      [xs]
    else
      var size := (|xs| + n - 1) / n;
      ChunkSizeBound(|xs|, n);
      var rest := SplitInto(xs[size..], n - 1);
      var chunks := [xs[..size]] + rest;
      assert chunks[0] == xs[..size];
      assert chunks[1..] == rest;
      assert Flatten(chunks) == xs[..size] + Flatten(rest);
      assert xs == xs[..size] + xs[size..];
      chunks
  }
}
