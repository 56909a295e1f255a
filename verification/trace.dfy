/** The observable effects of the upload handlers, in the order they happen:
    calls into the remote session and notifications sent to the user. */
module Trace {

  datatype Event =
    | MkDir(path: string)                        // remote directory creation
    | UploadCall(dir: string, filename: string)  // remote upload of one file into `dir`
    | ErrorNotice(code: int, msg: string)        // "upload failed" notification
    | WorkerDone                                 // an upload worker signals the wait group
    | SuccessNotice(subject: string, target: string) // "upload succeeded" notification

  /** Events that touch the remote machine. */
  predicate IsRemote(e: Event) {
    e.MkDir? || e.UploadCall?
  }

  /** True when every event of `t` is a MkDir. */
  predicate AllMkDir(t: seq<Event>) {
    forall i :: 0 <= i < |t| ==> t[i].MkDir?
  }

  /** The number of completion signals in `t`. */
  function DoneCount(t: seq<Event>): nat
  {
    if |t| == 0 then 0 else (if t[0].WorkerDone? then 1 else 0) + DoneCount(t[1..])
  }

  /** The uploads of `t`, in order, without the other events. */
  function UploadsOf(t: seq<Event>): seq<Event>
  {
    if |t| == 0 then [] else (if t[0].UploadCall? then [t[0]] else []) + UploadsOf(t[1..])
  }

  /** Counting and filtering distribute over concatenation. */
  lemma {:induction false} DoneCountAppend(a: seq<Event>, b: seq<Event>)
    ensures DoneCount(a + b) == DoneCount(a) + DoneCount(b)
    ensures UploadsOf(a + b) == UploadsOf(a) + UploadsOf(b)
    decreases |a|
  {
    if |a| > 0 {
      assert (a + b)[1..] == a[1..] + b;
      DoneCountAppend(a[1..], b);
    } else {
      assert a + b == b;
    }
  }

  /** Directory creations hold no completion signal and no upload. */
  lemma {:induction false} AllMkDirCounts(t: seq<Event>)
    requires AllMkDir(t)
    ensures DoneCount(t) == 0 && UploadsOf(t) == []
    decreases |t|
  {
    if |t| > 0 {
      assert t[0].MkDir?;
      AllMkDirCounts(t[1..]);
    }
  }

  /** True when `t` contains an error notification. */
  predicate HasErrorNotice(t: seq<Event>) {
    exists i :: 0 <= i < |t| && t[i].ErrorNotice?
  }

  /** True when no event of `t` is a notification of success. */
  predicate NoSuccessNotice(t: seq<Event>) {
    forall i :: 0 <= i < |t| ==> !t[i].SuccessNotice?
  }
}
