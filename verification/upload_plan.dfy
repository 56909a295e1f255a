/** Planning of a folder upload: every uploaded file is paired with the
    directory part of its relative path, and each distinct directory is
    created once, in the order in which it first occurs. */
module UploadPlan {
  import opened Common
  import opened Paths
  import opened Trace

  /** A multipart file: its name and its size in bytes. */
  datatype FileHeader = FileHeader(filename: string, size: nat)

  /** One file of a folder upload with the directory it goes into, relative
      to the base path. */
  datatype FolderFile = FolderFile(dir: string, header: FileHeader)

  predicate NoDup<T(==)>(s: seq<T>) {
    forall i, j :: 0 <= i < j < |s| ==> s[i] != s[j]
  }

  /** Position of the first occurrence of `x` in `s`. */
  function FirstIndex<T(==)>(s: seq<T>, x: T): (k: nat)
    requires x in s
    ensures k < |s| && s[k] == x
    ensures forall j :: 0 <= j < k ==> s[j] != x
  {
    if s[0] == x then 0 else 1 + FirstIndex(s[1..], x)
  }

  /** The elements of `s` without repetitions, each kept where it first
      occurs. */
  function Dedup(s: seq<string>): (r: seq<string>)
    ensures NoDup(r)
    ensures forall x :: x in r <==> x in s
  {
    if |s| == 0 then []
    else
      var p := s[..|s| - 1];
      var x := s[|s| - 1];
      assert s == p + [x];
      if x in p then Dedup(p) else Dedup(p) + [x]
  }

  /** The directory part of every relative path. */
  function Dirs(paths: seq<string>): seq<string>
  {
    seq(|paths|, i requires 0 <= i < |paths| => Dir(paths[i]))
  }

  /** The directory creations for `dirs` under `basePath`, in order. */
  function MkDirEvents(basePath: string, dirs: seq<string>): seq<Event>
  {
    seq(|dirs|, i requires 0 <= i < |dirs| => MkDir(JoinDir(basePath, dirs[i])))
  }

  /** The directory creations a folder upload issues: one per distinct
      directory of the relative paths, in order of first occurrence. */
  function MkDirPlan(basePath: string, paths: seq<string>): seq<Event>
  {
    MkDirEvents(basePath, Dedup(Dirs(paths)))
  }

  /** The files of a folder upload, index-aligned with the relative paths;
      headers beyond the last path are not part of the plan. */
  function FolderFiles(paths: seq<string>, headers: seq<FileHeader>): seq<FolderFile>
    requires |paths| <= |headers|
  {
    seq(|paths|, i requires 0 <= i < |paths| => FolderFile(Dir(paths[i]), headers[i]))
  }

  /** Dedup of a sequence extended by one element. */
  lemma DedupSnoc(s: seq<string>, x: string)
    ensures Dedup(s + [x]) == if x in s then Dedup(s) else Dedup(s) + [x]
  {
    assert (s + [x])[..|s|] == s;
  }

  /** The set of elements of `s`. */
  function Elems(s: seq<string>): set<string>
  {
    set x | x in s
  }

  /** Membership in the set of elements is membership in the sequence. */
  lemma ElemsMember(s: seq<string>, x: string)
    ensures x in Elems(s) <==> x in s
  {
  }

  lemma ElemsSnoc(s: seq<string>, x: string)
    ensures Elems(s + [x]) == Elems(s) + {x}
  {
  }

  /** The planned files of one more path. */
  lemma FolderFilesSnoc(paths: seq<string>, headers: seq<FileHeader>, i: nat)
    requires i < |paths| && i < |headers|
    ensures FolderFiles(paths[..i + 1], headers) == FolderFiles(paths[..i], headers) + [FolderFile(Dir(paths[i]), headers[i])]
  {
  }

  /** The creations for one more directory. */
  lemma MkDirEventsSnoc(basePath: string, dirs: seq<string>, d: string)
    ensures MkDirEvents(basePath, dirs + [d]) == MkDirEvents(basePath, dirs) + [MkDir(JoinDir(basePath, d))]
  {
  }

  /** One step of the planning loop: the directory of path `i` is new
      exactly when it is not among the directories of the earlier paths; a
      new one adds one creation, a repeated one none. */
  lemma PlanStep(basePath: string, paths: seq<string>, i: nat)
    requires i < |paths|
    ensures Elems(Dirs(paths)[..i + 1]) == Elems(Dirs(paths)[..i]) + {Dir(paths[i])}
    ensures Dir(paths[i]) in Elems(Dirs(paths)[..i]) <==> !NewDirAt(paths, i)
    ensures Dir(paths[i]) in Elems(Dirs(paths)[..i]) ==>
      MkDirEvents(basePath, Dedup(Dirs(paths)[..i + 1])) == MkDirEvents(basePath, Dedup(Dirs(paths)[..i]))
    ensures Dir(paths[i]) !in Elems(Dirs(paths)[..i]) ==>
      MkDirEvents(basePath, Dedup(Dirs(paths)[..i + 1])) ==
        MkDirEvents(basePath, Dedup(Dirs(paths)[..i])) + [MkDir(JoinDir(basePath, Dir(paths[i])))]
  {
    var ds := Dirs(paths);
    var dir := Dir(paths[i]);
    assert ds[..i + 1] == ds[..i] + [dir];
    ElemsSnoc(ds[..i], dir);
    ElemsMember(ds[..i], dir);
    DedupSnoc(ds[..i], dir);
    MkDirEventsSnoc(basePath, Dedup(ds[..i]), dir);
  }

  /** The creations planned for a prefix of the paths are those of the
      same prefix of their directories. */
  lemma MkDirPlanPrefix(basePath: string, paths: seq<string>, n: nat)
    requires n <= |paths|
    ensures MkDirPlan(basePath, paths[..n]) == MkDirEvents(basePath, Dedup(Dirs(paths)[..n]))
  {
    assert Dirs(paths[..n]) == Dirs(paths)[..n];
  }

  /** The remote directory creation: true when creating the directory at
      the given path succeeds. */
  type MkDirOracle = string -> bool

  /** True when path `i` is the first with its directory, so that the
      planning loop creates the directory there. */
  predicate NewDirAt(paths: seq<string>, i: nat)
    requires i < |paths|
  {
    Dir(paths[i]) !in Dirs(paths)[..i]
  }

  /** True when the planning loop aborts at path `i`: creating its new
      directory fails, or there is no file for the path. */
  predicate StopsAt(basePath: string, paths: seq<string>, headers: seq<FileHeader>, mkdirOk: MkDirOracle, i: nat)
    requires i < |paths|
  {
    (NewDirAt(paths, i) && !mkdirOk(JoinDir(basePath, Dir(paths[i])))) || |headers| <= i
  }

  /** The first path, from `i` on, at which the planning loop aborts. */
  function PlanStopFrom(basePath: string, paths: seq<string>, headers: seq<FileHeader>, mkdirOk: MkDirOracle, i: nat): (k: Option<nat>)
    requires i <= |paths|
    ensures k.Some? ==>
      && i <= k.value < |paths|
      && StopsAt(basePath, paths, headers, mkdirOk, k.value)
      && forall j :: i <= j < k.value ==> !StopsAt(basePath, paths, headers, mkdirOk, j)
    ensures k.None? ==> forall j :: i <= j < |paths| ==> !StopsAt(basePath, paths, headers, mkdirOk, j)
    decreases |paths| - i
  {
    if i == |paths| then None
    else if StopsAt(basePath, paths, headers, mkdirOk, i) then Some(i)
    else PlanStopFrom(basePath, paths, headers, mkdirOk, i + 1)
  }

  /** The first path at which the planning loop aborts, if any. */
  function PlanStop(basePath: string, paths: seq<string>, headers: seq<FileHeader>, mkdirOk: MkDirOracle): Option<nat>
  {
    PlanStopFrom(basePath, paths, headers, mkdirOk, 0)
  }

  /** The error the planning loop aborts with at path `k`: the directory
      creation comes before the file lookup, so a failing creation wins. */
  function StopError(basePath: string, paths: seq<string>, mkdirOk: MkDirOracle, k: nat): ApiError
    requires k < |paths|
  {
    if NewDirAt(paths, k) && !mkdirOk(JoinDir(basePath, Dir(paths[k]))) then MkDirFailed else MissingFileHeader
  }

  /** True when the directory of every path can be created. */
  predicate AllDirsMade(basePath: string, paths: seq<string>, mkdirOk: MkDirOracle) {
    forall i :: 0 <= i < |paths| ==> mkdirOk(JoinDir(basePath, Dir(paths[i])))
  }

  /** Path `j` is the first with its directory when it is the first
      occurrence of that directory. */
  lemma FirstOccurrenceIsNew(paths: seq<string>, i: nat)
    requires i < |paths|
    ensures Dirs(paths)[i] == Dir(paths[i])
    ensures var j := FirstIndex(Dirs(paths), Dir(paths[i]));
      j <= i && Dir(paths[j]) == Dir(paths[i]) && NewDirAt(paths, j)
  {
    var ds := Dirs(paths);
    assert ds[i] == Dir(paths[i]);
    var j := FirstIndex(ds, Dir(paths[i]));
    assert j <= i;
    assert Dir(paths[i]) !in ds[..j];
  }

  /** The planning loop runs to the end exactly when every path has a file
      and every directory can be created. */
  lemma PlanStopNoneIff(basePath: string, paths: seq<string>, headers: seq<FileHeader>, mkdirOk: MkDirOracle)
    ensures PlanStop(basePath, paths, headers, mkdirOk).None? <==>
      |paths| <= |headers| && AllDirsMade(basePath, paths, mkdirOk)
  {
    if PlanStop(basePath, paths, headers, mkdirOk).None? {
      if |headers| < |paths| {
        assert StopsAt(basePath, paths, headers, mkdirOk, |headers|);
      }
      forall i | 0 <= i < |paths|
        ensures mkdirOk(JoinDir(basePath, Dir(paths[i])))
      {
        FirstOccurrenceIsNew(paths, i);
        var j := FirstIndex(Dirs(paths), Dir(paths[i]));
        assert !StopsAt(basePath, paths, headers, mkdirOk, j);
      }
    }
  }

  /** The loop passes path `i` when it does not abort there. */
  lemma PlanStopPass(basePath: string, paths: seq<string>, headers: seq<FileHeader>, mkdirOk: MkDirOracle, i: nat)
    requires i < |paths| && i < |headers|
    requires !NewDirAt(paths, i) || mkdirOk(JoinDir(basePath, Dir(paths[i])))
    ensures PlanStopFrom(basePath, paths, headers, mkdirOk, i) == PlanStopFrom(basePath, paths, headers, mkdirOk, i + 1)
  {
  }

  /** The loop aborts at path `i` when it reaches it and aborts there. */
  lemma PlanStopHere(basePath: string, paths: seq<string>, headers: seq<FileHeader>, mkdirOk: MkDirOracle, i: nat,
                     e: ApiError)
    requires i < |paths|
    requires PlanStop(basePath, paths, headers, mkdirOk) == PlanStopFrom(basePath, paths, headers, mkdirOk, i)
    requires e == MkDirFailed ==> NewDirAt(paths, i) && !mkdirOk(JoinDir(basePath, Dir(paths[i])))
    requires e == MissingFileHeader ==> (!NewDirAt(paths, i) || mkdirOk(JoinDir(basePath, Dir(paths[i])))) && |headers| <= i
    requires e == MkDirFailed || e == MissingFileHeader
    ensures PlanStop(basePath, paths, headers, mkdirOk) == Some(i)
    ensures StopError(basePath, paths, mkdirOk, i) == e
  {
  }

  /** Every directory of the paths before the first abort can be created. */
  lemma PrefixDirsMade(basePath: string, paths: seq<string>, headers: seq<FileHeader>, mkdirOk: MkDirOracle, k: nat)
    requires k <= |paths|
    requires forall j :: 0 <= j < k ==> !StopsAt(basePath, paths, headers, mkdirOk, j)
    ensures forall d :: d in Dirs(paths)[..k] ==> mkdirOk(JoinDir(basePath, d))
  {
    var ds := Dirs(paths);
    forall d | d in ds[..k]
      ensures mkdirOk(JoinDir(basePath, d))
    {
      var j :| 0 <= j < k && ds[..k][j] == d;
      FirstOccurrenceIsNew(paths, j);
      var f := FirstIndex(ds, d);
      assert !StopsAt(basePath, paths, headers, mkdirOk, f);
    }
  }

  /** Creations of directories that can all be created all succeed. */
  lemma EventsMade(basePath: string, u: seq<string>, mkdirOk: MkDirOracle)
    requires forall d :: d in u ==> mkdirOk(JoinDir(basePath, d))
    ensures var t := MkDirEvents(basePath, u);
      forall i :: 0 <= i < |t| ==> mkdirOk(t[i].path)
  {
    var t := MkDirEvents(basePath, u);
    forall i | 0 <= i < |t|
      ensures mkdirOk(t[i].path)
    {
      assert u[i] in u;
    }
  }

  /** The creations of an aborted planning loop: every creation before the
      failing one succeeds; a failing creation is the last one, for the
      directory of the path at which the loop aborts; when a file is
      missing instead, every creation succeeds. */
  lemma PlanAbortCreations(basePath: string, paths: seq<string>, headers: seq<FileHeader>, mkdirOk: MkDirOracle)
    requires PlanStop(basePath, paths, headers, mkdirOk).Some?
    ensures var k := PlanStop(basePath, paths, headers, mkdirOk).value;
      var t := MkDirPlan(basePath, paths[..k + 1]);
      && (StopError(basePath, paths, mkdirOk, k) == MkDirFailed ==>
            && 0 < |t|
            && t[|t| - 1] == MkDir(JoinDir(basePath, Dir(paths[k])))
            && !mkdirOk(t[|t| - 1].path)
            && forall i :: 0 <= i < |t| - 1 ==> mkdirOk(t[i].path))
      && (StopError(basePath, paths, mkdirOk, k) == MissingFileHeader ==>
            forall i :: 0 <= i < |t| ==> mkdirOk(t[i].path))
  {
    var k := PlanStop(basePath, paths, headers, mkdirOk).value;
    var ds := Dirs(paths);
    var t := MkDirPlan(basePath, paths[..k + 1]);
    var u := Dedup(ds[..k]);
    var prev := MkDirEvents(basePath, u);
    var last := MkDir(JoinDir(basePath, Dir(paths[k])));
    assert forall i :: 0 <= i < |prev| ==> prev[i].MkDir? && mkdirOk(prev[i].path) by {
      PrefixDirsMade(basePath, paths, headers, mkdirOk, k);
      EventsMade(basePath, u, mkdirOk);
    }
    assert t == if NewDirAt(paths, k) then prev + [last] else prev by {
      MkDirPlanPrefix(basePath, paths, k + 1);
      PlanStep(basePath, paths, k);
    }
    if NewDirAt(paths, k) {
      AppendedCreation(t, prev, last, mkdirOk);
    }
  }

  /** Creations that all succeed, followed by one more creation. */
  lemma AppendedCreation(t: seq<Event>, prev: seq<Event>, last: Event, mkdirOk: MkDirOracle)
    requires t == prev + [last]
    requires last.MkDir?
    requires forall i :: 0 <= i < |prev| ==> prev[i].MkDir? && mkdirOk(prev[i].path)
    ensures 0 < |t| && t[|t| - 1] == last
    ensures forall i :: 0 <= i < |t| - 1 ==> mkdirOk(t[i].path)
    ensures mkdirOk(last.path) ==> forall i :: 0 <= i < |t| ==> mkdirOk(t[i].path)
  {
    assert forall i :: 0 <= i < |prev| ==> t[i] == prev[i];
  }

  /** The loop state when it aborts at path `i`. */
  lemma PlanAbortAt(basePath: string, paths: seq<string>, headers: seq<FileHeader>, mkdirOk: MkDirOracle, i: nat)
    requires i < |paths|
    requires PlanStop(basePath, paths, headers, mkdirOk) == PlanStopFrom(basePath, paths, headers, mkdirOk, i)
    requires StopsAt(basePath, paths, headers, mkdirOk, i)
    ensures PlanStop(basePath, paths, headers, mkdirOk) == Some(i)
    ensures MkDirPlan(basePath, paths[..i + 1]) == MkDirEvents(basePath, Dedup(Dirs(paths)[..i + 1]))
    ensures !(|paths| <= |headers| && AllDirsMade(basePath, paths, mkdirOk))
  {
    MkDirPlanPrefix(basePath, paths, i + 1);
    PlanStopNoneIff(basePath, paths, headers, mkdirOk);
  }

  /** The loop state when it has passed every path. */
  lemma PlanEnd(basePath: string, paths: seq<string>, headers: seq<FileHeader>, mkdirOk: MkDirOracle)
    requires PlanStop(basePath, paths, headers, mkdirOk) == PlanStopFrom(basePath, paths, headers, mkdirOk, |paths|)
    ensures MkDirPlan(basePath, paths) == MkDirEvents(basePath, Dedup(Dirs(paths)[..|paths|]))
    ensures paths[..|paths|] == paths
    ensures |paths| <= |headers| && AllDirsMade(basePath, paths, mkdirOk)
  {
    MkDirPlanPrefix(basePath, paths, |paths|);
    assert paths[..|paths|] == paths;
    PlanStopNoneIff(basePath, paths, headers, mkdirOk);
  }

  /** One pass of the planning loop, at path `i`: a directory not seen
      before is created and remembered; a failing creation aborts, and so
      does a path without a file, after the creation. */
  method PlanPath(basePath: string, paths: seq<string>, headers: seq<FileHeader>, mkdirOk: MkDirOracle, i: nat,
                  made: set<string>, mkdirs: seq<Event>)
    returns (madeNext: set<string>, mkdirsNext: seq<Event>, stop: Option<ApiError>)
    requires i < |paths|
    requires made == Elems(Dirs(paths)[..i])
    requires mkdirs == MkDirEvents(basePath, Dedup(Dirs(paths)[..i]))
    ensures madeNext == Elems(Dirs(paths)[..i + 1])
    ensures mkdirsNext == MkDirEvents(basePath, Dedup(Dirs(paths)[..i + 1]))
    ensures stop.None? <==> !StopsAt(basePath, paths, headers, mkdirOk, i)
    ensures stop.Some? ==> stop.value == StopError(basePath, paths, mkdirOk, i)
  {
    var dir := Dir(paths[i]);
    var isNew := dir !in made;
    assert NewDirAt(paths, i) <==> isNew by {
      PlanStep(basePath, paths, i);
    }
    madeNext, mkdirsNext := made, mkdirs;
    if isNew {
      mkdirsNext := mkdirs + [MkDir(JoinDir(basePath, dir))];
      madeNext := made + {dir};
    }
    assert madeNext == Elems(Dirs(paths)[..i + 1]) && mkdirsNext == MkDirEvents(basePath, Dedup(Dirs(paths)[..i + 1]))
    by {
      PlanStep(basePath, paths, i);
    }
    if isNew && !mkdirOk(JoinDir(basePath, dir)) {
      return madeNext, mkdirsNext, Some(MkDirFailed);
    }
    if |headers| <= i {
      return madeNext, mkdirsNext, Some(MissingFileHeader);
    }
    return madeNext, mkdirsNext, None;
  }

  /** The planning loop of UploadFolder: walks the paths once, remembers the
      directories already created, issues a creation for each one not seen
      before, and records each file with its directory. A failing creation,
      or a path without a file, aborts the loop right after that path's
      creation. */
  method PlanFolder(basePath: string, paths: seq<string>, headers: seq<FileHeader>, mkdirOk: MkDirOracle)
    returns (mkdirs: seq<Event>, folderFiles: seq<FolderFile>, err: Option<ApiError>)
    ensures err.None? <==> |paths| <= |headers| && AllDirsMade(basePath, paths, mkdirOk)
    ensures err.None? ==> mkdirs == MkDirPlan(basePath, paths) && folderFiles == FolderFiles(paths, headers)
    ensures err.Some? ==>
      && PlanStop(basePath, paths, headers, mkdirOk).Some?
      && var k := PlanStop(basePath, paths, headers, mkdirOk).value;
      && mkdirs == MkDirPlan(basePath, paths[..k + 1])
      && err.value == StopError(basePath, paths, mkdirOk, k)
  {
    mkdirs := [];
    folderFiles := [];
    var made: set<string> := {};
    var i := 0;
    while i < |paths|
      invariant 0 <= i <= |paths| && i <= |headers|
      invariant PlanStop(basePath, paths, headers, mkdirOk) == PlanStopFrom(basePath, paths, headers, mkdirOk, i)
      invariant made == Elems(Dirs(paths)[..i])
      invariant mkdirs == MkDirEvents(basePath, Dedup(Dirs(paths)[..i]))
      invariant folderFiles == FolderFiles(paths[..i], headers)
    {
      var stop;
      made, mkdirs, stop := PlanPath(basePath, paths, headers, mkdirOk, i, made, mkdirs);
      if stop.Some? {
        PlanAbortAt(basePath, paths, headers, mkdirOk, i);
        return mkdirs, folderFiles, stop;
      }
      folderFiles := folderFiles + [FolderFile(Dir(paths[i]), headers[i])];
      FolderFilesSnoc(paths, headers, i);
      i := i + 1;
    }
    PlanEnd(basePath, paths, headers, mkdirOk);
    return mkdirs, folderFiles, None;
  }

  /** A sequence without repetitions has as many distinct elements as
      elements. */
  lemma {:induction false} NoDupCardinality<T>(s: seq<T>)
    requires NoDup(s)
    ensures |set x | x in s| == |s|
    decreases |s|
  {
    if |s| > 0 {
      var p := s[..|s| - 1];
      var x := s[|s| - 1];
      assert s == p + [x];
      NoDupCardinality(p);
      assert (set y | y in s) == (set y | y in p) + {x};
      assert x !in (set y | y in p);
    }
  }

  /** Dedup keeps exactly one copy of each distinct element. */
  lemma DedupCardinality(s: seq<string>)
    ensures |Dedup(s)| == |set x | x in s|
  {
    NoDupCardinality(Dedup(s));
    assert (set x | x in Dedup(s)) == (set x | x in s);
  }

  /** The first occurrence of an element of a prefix is unchanged by
      appending. */
  lemma {:induction false} FirstIndexAppend<T>(p: seq<T>, y: T, x: T)
    requires x in p
    ensures FirstIndex(p + [y], x) == FirstIndex(p, x)
  {
    var k := FirstIndex(p, x);
    var k' := FirstIndex(p + [y], x);
    assert (p + [y])[k] == x;
    assert k' <= k;
    assert p[k'] == x;
  }

  /** Dedup lists the distinct elements in the order of their first
      occurrences. */
  lemma {:induction false} DedupFirstOccurrenceOrder(s: seq<string>)
    ensures forall i, j :: 0 <= i < j < |Dedup(s)| ==>
      FirstIndex(s, Dedup(s)[i]) < FirstIndex(s, Dedup(s)[j])
    decreases |s|
  {
    if |s| > 0 {
      var p := s[..|s| - 1];
      var x := s[|s| - 1];
      assert s == p + [x];
      DedupFirstOccurrenceOrder(p);
      var r := Dedup(s);
      var q := Dedup(p);
      forall i | 0 <= i < |q|
        ensures FirstIndex(s, q[i]) == FirstIndex(p, q[i])
      {
        FirstIndexAppend(p, x, q[i]);
      }
      if x !in p {
        assert r == q + [x];
        assert FirstIndex(s, x) == |p|;
      }
    }
  }

  /** The directory creations of a folder upload: every file's directory is
      created, nothing else is, no directory is created twice, and there are
      exactly as many creations as distinct directories. */
  lemma MkDirPlanSound(basePath: string, paths: seq<string>)
    ensures var t := MkDirPlan(basePath, paths);
      && NoDup(t)
      && (forall i :: 0 <= i < |paths| ==> MkDir(JoinDir(basePath, Dir(paths[i]))) in t)
      && (forall e :: e in t ==> exists i :: 0 <= i < |paths| && e == MkDir(JoinDir(basePath, Dir(paths[i]))))
      && |t| == |set d | d in Dirs(paths)|
  {
    var ds := Dirs(paths);
    var u := Dedup(ds);
    var t := MkDirPlan(basePath, paths);
    forall i, j | 0 <= i < j < |t|
      ensures t[i] != t[j]
    {
      if t[i] == t[j] {
        JoinDirInjective(basePath, u[i], u[j]);
      }
    }
    forall i | 0 <= i < |paths|
      ensures MkDir(JoinDir(basePath, Dir(paths[i]))) in t
    {
      assert ds[i] in u;
      var k :| 0 <= k < |u| && u[k] == ds[i];
      assert t[k] == MkDir(JoinDir(basePath, Dir(paths[i])));
    }
    forall e | e in t
      ensures exists i :: 0 <= i < |paths| && e == MkDir(JoinDir(basePath, Dir(paths[i])))
    {
      var k :| 0 <= k < |t| && t[k] == e;
      assert u[k] in ds;
      var i :| 0 <= i < |ds| && ds[i] == u[k];
      assert e == MkDir(JoinDir(basePath, Dir(paths[i])));
    }
    DedupCardinality(ds);
  }
}
